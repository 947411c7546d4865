/** Merging evidence rows of one tuple (`merge_panopticon_evidence` in gpucall/panopticon.py). */
module EvidenceMerge {
  import opened Evidence

  function MergedStatus(left: Status, right: Status, findings: seq<Finding>): Status {
    if StatusFrom(findings) == Blocked || left == Blocked || right == Blocked then Blocked
    else if left == LiveRevalidated || right == LiveRevalidated then LiveRevalidated
    else if left == Unknown || right == Unknown then Unknown
    else NotChecked
  }

  function Min(x: real, y: real): real { if y < x then y else x }

  function MergeRows(a: Row, b: Row): Row {
    var findings := Dedupe(a.findings + b.findings);
    var observed, expires := Min(a.observed, b.observed), Min(a.expires, b.expires);
    Row(a.target, a.adapter, MergedStatus(a.status, b.status, findings), a.checked || b.checked, Dimensions(findings), findings,
        observed, expires, if Trunc(expires - observed) < 0 then 0 else Trunc(expires - observed),
        if a.catalogValidator.Some? then a.catalogValidator else b.catalogValidator)
  }

  /** What merging is a join of: everything but the order of findings and the validator flag. */
  datatype Meaning = Meaning(status: Status, checked: bool, observed: real, expires: real, findings: set<Finding>)

  function FindingSet(findings: seq<Finding>): set<Finding> { set f | f in findings }

  function MeaningOf(r: Row): Meaning {
    Meaning(r.status, r.checked, r.observed, r.expires, FindingSet(r.findings))
  }

  function Rank(s: Status): nat {
    match s case NotChecked => 0 case Unknown => 1 case LiveRevalidated => 2 case Blocked => 3
  }

  function Worse(a: Status, b: Status): Status { if Rank(a) < Rank(b) then b else a }

  function Join(a: Meaning, b: Meaning): Meaning {
    Meaning(Worse(a.status, b.status), a.checked || b.checked, Min(a.observed, b.observed), Min(a.expires, b.expires), a.findings + b.findings)
  }

  predicate Mergeable(a: Row, b: Row) {
    RowOk(a) && RowOk(b) && a.target == b.target && a.adapter == b.adapter
  }

  lemma MergedElements(a: Row, b: Row)
    ensures forall f :: f in MergeRows(a, b).findings <==> f in a.findings || f in b.findings
    ensures FindingSet(MergeRows(a, b).findings) == FindingSet(a.findings) + FindingSet(b.findings)
  {
    forall f ensures f in MergeRows(a, b).findings <==> f in a.findings || f in b.findings {
      DedupeKeepsElements(a.findings + b.findings, f);
    }
    hide Dedupe;
  }

  /** The contract survives merging. */
  lemma MergeKeepsContract(a: Row, b: Row)
    requires Mergeable(a, b)
    ensures RowOk(MergeRows(a, b))
  {
    MergedElements(a, b);
    var m := MergeRows(a, b);
    assert m.status in {LiveRevalidated, Blocked} ==> m.findings != [] by {
      hide Dedupe;
      if a.findings != [] { assert a.findings[0] in m.findings; }
      if b.findings != [] { assert b.findings[0] in m.findings; }
    }
    hide Dedupe, FindingOk, Dimensions, Blocker;
  }

  /** On contract-satisfying rows of one tuple and adapter, merging is exactly the join. */
  lemma MergeIsJoin(a: Row, b: Row)
    requires Mergeable(a, b)
    ensures MeaningOf(MergeRows(a, b)) == Join(MeaningOf(a), MeaningOf(b))
  {
    MergedElements(a, b);
    assert HasBlocker(MergeRows(a, b).findings) ==> a.status == Blocked || b.status == Blocked;
    hide Dedupe, FindingOk, Dimensions, Blocker, Trunc;
  }

  lemma JoinLaws(a: Meaning, b: Meaning, c: Meaning)
    ensures Join(a, b) == Join(b, a)
    ensures Join(Join(a, b), c) == Join(a, Join(b, c))
    ensures Join(a, a) == a
  {}

  /** Merging is commutative, associative and idempotent up to the order of findings, and its result is
      blocked if and only if one of the rows was. */
  lemma MergeLaws(a: Row, b: Row, c: Row)
    requires Mergeable(a, b) && Mergeable(b, c)
    ensures MeaningOf(MergeRows(a, b)) == MeaningOf(MergeRows(b, a))
    ensures MeaningOf(MergeRows(MergeRows(a, b), c)) == MeaningOf(MergeRows(a, MergeRows(b, c)))
    ensures MeaningOf(MergeRows(a, a)) == MeaningOf(a)
    ensures MergeRows(a, b).status == Blocked <==> a.status == Blocked || b.status == Blocked
  {
    MergeKeepsContract(a, b);
    MergeKeepsContract(b, c);
    MergeIsJoin(a, b);
    MergeIsJoin(b, a);
    MergeIsJoin(a, a);
    MergeIsJoin(b, c);
    MergeIsJoin(MergeRows(a, b), c);
    MergeIsJoin(a, MergeRows(b, c));
    JoinLaws(MeaningOf(a), MeaningOf(b), MeaningOf(c));
    SameRowEnds(a, b);
    SameRowEnds(b, c);
    hide MergeRows, RowOk, MeaningOf, Join;
  }

  lemma SameRowEnds(a: Row, b: Row)
    ensures MergeRows(a, b).target == a.target && MergeRows(a, b).adapter == a.adapter
    ensures MergeRows(a, b).status == MeaningOf(MergeRows(a, b)).status
    ensures Join(MeaningOf(a), MeaningOf(b)).status == Blocked <==> a.status == Blocked || b.status == Blocked
  {
    hide Dedupe;
  }

  /** A loaded row as merging reads it, its load metadata stripped. */
  function AsRow(loaded: Loaded): Row {
    loaded.row.(status := loaded.status, findings := loaded.findings, dimensions := Dimensions(loaded.findings))
  }

  lemma LoadedKeepsContract(name: string, row: Row, now: real, reason: string)
    requires RowOk(row) && row.target == name
    ensures var loaded := LoadRow(name, row, now, Blocked, reason);
      && RowOk(AsRow(loaded))
      && AsRow(loaded).dimensions == if loaded.stale then row.dimensions + {loaded.findings[0].dimension} else row.dimensions
  {
    var loaded := LoadRow(name, row, now, Blocked, reason);
    if loaded.stale {
      var f := ExpiryFinding(name, row, reason);
      assert FindingOk(f) && Blocker(f) && f in loaded.findings;
      assert forall x :: x in loaded.findings <==> x == f || x in row.findings;
      hide FindingOk, Blank, Blocker;
    }
  }

  /** Loading and then merging fails closed: a loaded row, stale or not, satisfies the contract, and a stale one
      merged with any other row of its tuple and adapter, in either order, is blocked. */
  lemma StaleEvidenceStaysBlocked(name: string, row: Row, now: real, reason: string, other: Row)
    requires RowOk(row) && row.target == name && RowOk(other) && other.target == name && other.adapter == row.adapter
    ensures var loaded := AsRow(LoadRow(name, row, now, Blocked, reason));
      && RowOk(loaded) && RowOk(MergeRows(loaded, other)) && RowOk(MergeRows(other, loaded))
      && (row.expires <= now ==> MergeRows(loaded, other).status == Blocked && MergeRows(other, loaded).status == Blocked)
  {
    LoadedKeepsContract(name, row, now, reason);
    var loaded := AsRow(LoadRow(name, row, now, Blocked, reason));
    assert loaded.target == name && loaded.adapter == row.adapter && (row.expires <= now ==> loaded.status == Blocked);
    MergeKeepsContract(loaded, other);
    MergeKeepsContract(other, loaded);
    MergeLaws(loaded, other, other);
    MergeLaws(other, loaded, loaded);
    hide RowOk, MergeRows, MeaningOf, LoadRow, AsRow;
  }

  /** The validator flag is outside the join: the first row that has one decides. */
  lemma ValidatorFlagDependsOnOrder(a: Row, b: Row)
    requires Mergeable(a, b)
    ensures MergeRows(a, b).catalogValidator == MergeRows(b, a).catalogValidator
       <==> a.catalogValidator.None? || b.catalogValidator.None? || a.catalogValidator == b.catalogValidator
  {
    hide Dedupe;
  }

  /** What a merge of several rows is, stated row by row. */
  ghost predicate MergeOf(merged: Row, rows: seq<Row>) {
    && RowOk(merged) && (forall r | r in rows :: merged.target == r.target && merged.adapter == r.adapter)
    && (merged.status == Blocked <==> exists r :: r in rows && r.status == Blocked)
    && (merged.checked <==> exists r :: r in rows && r.checked)
    && (forall f :: f in merged.findings <==> exists r :: r in rows && f in r.findings)
    && (forall r | r in rows :: merged.expires <= r.expires) && (exists r :: r in rows && merged.expires == r.expires)
    && (forall r | r in rows :: merged.observed <= r.observed) && (exists r :: r in rows && merged.observed == r.observed)
  }

  /** The loop over the rows of one tuple, from any number of evidence maps. */
  method MergeAll(rows: seq<Row>) returns (merged: Row)
    requires rows != [] && forall r | r in rows :: RowOk(r) && r.target == rows[0].target && r.adapter == rows[0].adapter
    ensures MergeOf(merged, rows)
  {
    merged := rows[0];
    assert rows[..1] == [rows[0]];
    assert MergeOf(merged, rows[..1]);
    hide MergeOf, RowOk;
    for k := 1 to |rows|
      invariant MergeOf(merged, rows[..k]) && merged.target == rows[0].target && merged.adapter == rows[0].adapter
    {
      assert rows[..k + 1] == rows[..k] + [rows[k]];
      MergeOneMore(merged, rows[..k], rows[k]);
      merged := MergeRows(merged, rows[k]);
    }
    assert rows[..|rows|] == rows;
  }

  lemma MergeOneMore(merged: Row, rows: seq<Row>, next: Row)
    requires MergeOf(merged, rows) && RowOk(next) && next.target == merged.target && next.adapter == merged.adapter
    ensures MergeOf(MergeRows(merged, next), rows + [next])
    ensures MergeRows(merged, next).target == merged.target && MergeRows(merged, next).adapter == merged.adapter
  {
    MergeKeepsContract(merged, next);
    MergeIsJoin(merged, next);
    MergedElements(merged, next);
    SameRowEnds(merged, next);
    var m, all := MergeRows(merged, next), rows + [next];
    assert next in all && forall r | r in rows :: r in all;
    hide RowOk, MergeRows;
    var e :| e in rows && merged.expires == e.expires;
    var o :| o in rows && merged.observed == o.observed;
    assert m.expires == merged.expires || m.expires == next.expires;
    assert m.observed == merged.observed || m.observed == next.observed;
  }
}
