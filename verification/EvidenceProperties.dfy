/** What every sequence of evidence stores and loads guarantees. */
module EvidenceProperties {
  import opened Wrappers
  import opened Evidence

  // ---------------------------------------------------------------- last writer per dimension

  /** The findings a call writes for (name, d), if it mentions that dimension of that tuple. */
  function Written(payload: Payload, evidence: seq<(string, InputRow)>, now: real, ttl: Option<int>, name: string, d: Dimension): Option<seq<Finding>>
    decreases |evidence|
  {
    if evidence == [] then None
    else
      var (entry, input) := evidence[0];
      match StoreRow(Lookup(payload, entry), entry, input, now, ttl)
      case Err(_) => None
      case Ok(row) =>
        var later := Written(payload[entry := row], evidence[1..], now, ttl, name, d);
        if later.Some? then later else Mentioned(Lookup(payload, entry), entry, input, now, ttl, name, d)
  }

  function Mentioned(existing: Option<Row>, entry: string, input: InputRow, now: real, ttl: Option<int>, name: string, d: Dimension): Option<seq<Finding>>
  {
    var canonical := CanonicalAll(input.findings, entry, AdapterFor(existing, input), now, TtlFor(input, ttl));
    if entry == name && canonical.Ok? && Of(canonical.value, d) != [] then Some(Dedupe(Of(canonical.value, d))) else None
  }

  /** Reference answer: what the last successful call that mentioned (name, d) wrote. */
  function LastWritten(calls: seq<Call>, name: string, d: Dimension): seq<Finding> {
    if calls == [] then []
    else
      var before, call := calls[..|calls| - 1], calls[|calls| - 1];
      var outcome := StoreAll(Stored(before), call.evidence, call.now, call.ttl);
      var written := Written(Stored(before), call.evidence, call.now, call.ttl, name, d);
      if outcome.Ok? && written.Some? then written.value else LastWritten(before, name, d)
  }

  function FindingsOf(payload: Payload, name: string): seq<Finding> {
    if name in payload then payload[name].findings else []
  }

  ghost predicate AllDistinct(payload: Payload) {
    forall name | name in payload :: Distinct(payload[name].findings)
  }

  lemma {:induction false} OfWithout(findings: seq<Finding>, dims: set<Dimension>, d: Dimension)
    ensures Of(Without(findings, dims), d) == if d in dims then [] else Of(findings, d)
  {
    if findings != [] {
      var n := |findings| - 1;
      var last: seq<Finding> := if findings[n].dimension in dims then [] else [findings[n]];
      OfWithout(findings[..n], dims, d);
      OfConcat(Without(findings[..n], dims), last, d);
      if last != [] {
        assert last[..0] == [];
      }
    }
  }

  lemma {:induction false} OfDistinct(findings: seq<Finding>, d: Dimension)
    requires Distinct(findings)
    ensures Distinct(Of(findings, d))
  {
    if findings != [] {
      var n := |findings| - 1;
      OfDistinct(findings[..n], d);
      OfElements(findings[..n], d, findings[n]);
    }
  }

  /** One stored row: a mentioned dimension is replaced by the new findings, any other is kept as it was. */
  lemma MergedByDimension(existing: Option<Row>, enriched: seq<Finding>, d: Dimension)
    requires existing.Some? ==> Distinct(existing.value.findings)
    ensures Of(Merged(existing, enriched), d)
         == if Of(enriched, d) != [] then Dedupe(Of(enriched, d)) else Of(if existing.Some? then existing.value.findings else [], d)
  {
    var old_: seq<Finding> := if existing.Some? then existing.value.findings else [];
    var kept := Without(old_, Dimensions(enriched));
    OfDedupe(kept + enriched, d);
    OfConcat(kept, enriched, d);
    OfWithout(old_, Dimensions(enriched), d);
    if Of(enriched, d) != [] {
      OfElements(enriched, d, Of(enriched, d)[0]);
      assert d in Dimensions(enriched);
      assert [] + Of(enriched, d) == Of(enriched, d);
    } else {
      if d in Dimensions(enriched) {
        var f :| f in enriched && f.dimension == d;
        OfElements(enriched, d, f);
      }
      assert Of(old_, d) + [] == Of(old_, d);
      OfDistinct(old_, d);
      DedupeOfDistinct(Of(old_, d));
    }
  }

  lemma StoredRowShape(existing: Option<Row>, name: string, input: InputRow, now: real, ttl: Option<int>)
    ensures var r := StoreRow(existing, name, input, now, ttl);
      r.Ok? ==>
        && RowOk(r.value) && r.value.target == name && Distinct(r.value.findings)
        && var c := CanonicalAll(input.findings, name, AdapterFor(existing, input), now, TtlFor(input, ttl));
           c.Ok? && r.value.findings == Merged(existing, c.value)
           && (EarliestExpiry(r.value.findings).Some? ==> r.value.expires == EarliestExpiry(r.value.findings).value)
  {
    var c := CanonicalAll(input.findings, name, AdapterFor(existing, input), now, TtlFor(input, ttl));
    if c.Ok? {
      DedupeDistinct(Without(if existing.Some? then existing.value.findings else [], Dimensions(c.value)) + c.value);
    }
    hide RowOk, CanonicalAll, Dedupe, Without, EarliestExpiry, EarliestObserved, Distinct;
  }

  /** One entry of a call replaces the dimensions it mentions and keeps the others. */
  lemma RowByDimension(existing: Option<Row>, name: string, input: InputRow, now: real, ttl: Option<int>, d: Dimension)
    requires StoreRow(existing, name, input, now, ttl).Ok? && (existing.Some? ==> Distinct(existing.value.findings))
    ensures var row, written := StoreRow(existing, name, input, now, ttl).value, Mentioned(existing, name, input, now, ttl, name, d);
      && Distinct(row.findings)
      && Of(row.findings, d) == if written.Some? then written.value else Of(if existing.Some? then existing.value.findings else [], d)
  {
    StoredRowShape(existing, name, input, now, ttl);
    var c := CanonicalAll(input.findings, name, AdapterFor(existing, input), now, TtlFor(input, ttl));
    MergedByDimension(existing, c.value, d);
    hide StoreRow, CanonicalAll, Of, Merged, Dedupe, Distinct, RowOk;
  }

  lemma {:induction false} CallByDimension(payload: Payload, evidence: seq<(string, InputRow)>, now: real, ttl: Option<int>, name: string, d: Dimension)
    requires AllDistinct(payload) && StoreAll(payload, evidence, now, ttl).Ok?
    ensures var next, written := StoreAll(payload, evidence, now, ttl).value, Written(payload, evidence, now, ttl, name, d);
      && AllDistinct(next)
      && Of(FindingsOf(next, name), d) == if written.Some? then written.value else Of(FindingsOf(payload, name), d)
    decreases |evidence|
  {
    hide StoreRow, CanonicalAll, Of, Distinct;
    if evidence != [] {
      var (entry, input) := evidence[0];
      var existing := Lookup(payload, entry);
      var row := StoreRow(existing, entry, input, now, ttl).value;
      RowByDimension(existing, entry, input, now, ttl, d);
      CallByDimension(payload[entry := row], evidence[1..], now, ttl, name, d);
    }
  }

  lemma {:induction false} StoredDistinct(calls: seq<Call>)
    ensures AllDistinct(Stored(calls))
  {
    if calls != [] {
      var before, call := calls[..|calls| - 1], calls[|calls| - 1];
      StoredDistinct(before);
      if StoreAll(Stored(before), call.evidence, call.now, call.ttl).Ok? {
        CallByDimension(Stored(before), call.evidence, call.now, call.ttl, "", Price);
      }
    }
  }

  /** After any sequence of stores, failing ones included, the findings a tuple has for a dimension are
      exactly the deduplicated findings of the last successful store that mentioned it. */
  lemma {:induction false} LastWriterWins(calls: seq<Call>, name: string, d: Dimension)
    ensures Of(FindingsOf(Stored(calls), name), d) == LastWritten(calls, name, d)
  {
    if calls != [] {
      var before, call := calls[..|calls| - 1], calls[|calls| - 1];
      LastWriterWins(before, name, d);
      StoredDistinct(before);
      if StoreAll(Stored(before), call.evidence, call.now, call.ttl).Ok? {
        CallByDimension(Stored(before), call.evidence, call.now, call.ttl, name, d);
      }
      hide StoreAll, Written, Of;
    }
  }

  // ---------------------------------------------------------------- when a store succeeds

  predicate Timed(findings: seq<Finding>) {
    forall f | f in findings :: f.observed.Some? && f.expires.Some?
  }

  lemma MergedElements(existing: Option<Row>, enriched: seq<Finding>, f: Finding)
    ensures f in Merged(existing, enriched) <==>
      || f in enriched
      || (existing.Some? && f in existing.value.findings && f.dimension !in Dimensions(enriched))
  {
    var old_: seq<Finding> := if existing.Some? then existing.value.findings else [];
    DedupeKeepsElements(Without(old_, Dimensions(enriched)) + enriched, f);
    WithoutElements(old_, Dimensions(enriched), f);
  }

  lemma {:induction false} WithoutElements(findings: seq<Finding>, dims: set<Dimension>, f: Finding)
    ensures f in Without(findings, dims) <==> f in findings && f.dimension !in dims
  {
    if findings != [] {
      var n := |findings| - 1;
      WithoutElements(findings[..n], dims, f);
      assert findings == findings[..n] + [findings[n]];
    }
  }

  lemma {:induction false} CanonicalAreOk(raws: seq<RawFinding>, target: string, adapter: string, now: real, ttl: int)
    requires CanonicalAll(raws, target, adapter, now, ttl).Ok?
    ensures forall f | f in CanonicalAll(raws, target, adapter, now, ttl).value :: FindingOk(f) && f.target == target && f.adapter == adapter
  {
    if raws != [] {
      CanonicalAreOk(raws[1..], target, adapter, now, ttl);
    }
  }

  lemma TimedSpan(findings: seq<Finding>)
    requires Timed(findings) && findings != [] && forall f | f in findings :: FindingOk(f)
    ensures EarliestExpiry(findings).Some? && EarliestObserved(findings).Some?
    ensures EarliestObserved(findings).value <= EarliestExpiry(findings).value
  {
    assert findings[0] in findings;
    EarliestExpiryIsLeast(findings);
    EarliestObservedIsLeast(findings);
    var f :| f in findings && f.expires == EarliestExpiry(findings);
    assert f.observed.value <= f.expires.value;
  }

  function ObservedAt(findings: seq<Finding>, now: real): real {
    if EarliestObserved(findings).Some? then EarliestObserved(findings).value else now
  }

  function ExpiresAt(findings: seq<Finding>, now: real, ttl: int): real {
    if EarliestExpiry(findings).Some? then EarliestExpiry(findings).value else now + ttl as real
  }

  /** Exactly when a row can be stored: it is for its own tuple, has an adapter, and its own findings are canonical; the
      kept findings come from the same adapter, the earliest observation is not after the earliest expiry, and the row
      either has findings and is checked or blocked, or has none and claims neither of the statuses that need some. */
  lemma StoreSucceedsIff(existing: Option<Row>, name: string, input: InputRow, now: real, ttl: Option<int>)
    requires existing.Some? ==> RowOk(existing.value) && existing.value.target == name
    ensures var adapter, t := AdapterFor(existing, input), TtlFor(input, ttl);
      StoreRow(existing, name, input, now, ttl).Ok? <==>
        && !Blank(name) && (input.target == "" || input.target == name) && !Blank(adapter)
        && CanonicalAll(input.findings, name, adapter, now, t).Ok? && (
        var findings := Merged(existing, CanonicalAll(input.findings, name, adapter, now, t).value);
        && (forall f | f in findings :: f.adapter == adapter)
        && ObservedAt(findings, now) <= ExpiresAt(findings, now, t)
        && (if findings == [] then input.status !in {Some(LiveRevalidated), Some(Blocked)} else input.checked || HasBlocker(findings)))
  {
    var adapter, t := AdapterFor(existing, input), TtlFor(input, ttl);
    var all := CanonicalAll(input.findings, name, adapter, now, t);
    assert adapter == "" ==> Blank(adapter);
    if all.Ok? {
      if Blank(name) || Blank(adapter) {
        assert !RowOk(BuildRow(existing, name, adapter, input, all.value, now, t));
      } else {
        CanonicalAreOk(input.findings, name, adapter, now, t);
        forall f | f in Merged(existing, all.value) ensures FindingOk(f) && f.target == name {
          MergedElements(existing, all.value, f);
        }
        BuiltRowOkIff(existing, name, adapter, input, all.value, now, t);
      }
    }
    hide RowOk, Blank, CanonicalAll, Merged, HasBlocker, BuildRow, EarliestObserved, EarliestExpiry, AdapterFor;
  }

  lemma BuiltRowOkIff(existing: Option<Row>, name: string, adapter: string, input: InputRow, c: seq<Finding>, now: real, t: int)
    requires !Blank(name) && !Blank(adapter)
    requires forall f | f in Merged(existing, c) :: FindingOk(f) && f.target == name
    ensures var findings, row := Merged(existing, c), BuildRow(existing, name, adapter, input, c, now, t);
      row.ttl >= 0 && RowOk(row) <==>
        && (forall f | f in findings :: f.adapter == adapter)
        && ObservedAt(findings, now) <= ExpiresAt(findings, now, t)
        && (if findings == [] then input.status !in {Some(LiveRevalidated), Some(Blocked)} else input.checked || HasBlocker(findings))
  {
    hide Merged, FindingOk, Dimensions, Blocker, Blank, EarliestObserved, EarliestExpiry;
  }

  /** Well-formed input is always stored: a checked row whose adapter is that of the stored row, whose
      findings all carry both times, and which claims no status when nothing is found. */
  lemma WellFormedIsStored(existing: Option<Row>, name: string, input: InputRow, now: real, ttl: Option<int>)
    requires existing.Some? ==> RowOk(existing.value) && existing.value.target == name && Timed(existing.value.findings)
    requires existing.Some? ==> existing.value.adapter == AdapterFor(existing, input)
    requires !Blank(name) && (input.target == "" || input.target == name) && !Blank(AdapterFor(existing, input))
    requires CanonicalAll(input.findings, name, AdapterFor(existing, input), now, TtlFor(input, ttl)).Ok?
    requires Timed(CanonicalAll(input.findings, name, AdapterFor(existing, input), now, TtlFor(input, ttl)).value)
    requires input.checked && input.status.None? && TtlFor(input, ttl) >= 0
    ensures StoreRow(existing, name, input, now, ttl).Ok?
    ensures RowOk(StoreRow(existing, name, input, now, ttl).value) && Timed(StoreRow(existing, name, input, now, ttl).value.findings)
  {
    var adapter, t := AdapterFor(existing, input), TtlFor(input, ttl);
    var c := CanonicalAll(input.findings, name, adapter, now, t).value;
    CanonicalAreOk(input.findings, name, adapter, now, t);
    StoreSucceedsIff(existing, name, input, now, ttl);
    StoredRowShape(existing, name, input, now, ttl);
    var findings := Merged(existing, c);
    forall f | f in findings ensures FindingOk(f) && f.adapter == adapter && f.observed.Some? && f.expires.Some? {
      MergedElements(existing, c, f);
    }
    if findings != [] {
      TimedSpan(findings);
    }
    hide StoreRow, Merged, CanonicalAll, RowOk, FindingOk, Blank, HasBlocker, AdapterFor;
  }

  // ---------------------------------------------------------------- freshness

  /** Some finding carries an expiry; explicit nulls do not. */
  predicate HasExpiry(findings: seq<Finding>) {
    exists f :: f in findings && f.expires.Some?
  }

  predicate ExpiresBy(findings: seq<Finding>, t: real) {
    exists f :: f in findings && f.expires.Some? && f.expires.value <= t
  }

  lemma EarliestExpiryBy(findings: seq<Finding>, t: real)
    ensures EarliestExpiry(findings).Some? <==> HasExpiry(findings)
    ensures EarliestExpiry(findings).Some? && EarliestExpiry(findings).value <= t <==> ExpiresBy(findings, t)
  {
    EarliestExpiryIsLeast(findings);
  }

  /** The deadline the last entry for `name` in a call would give a row whose findings carry no expiry. */
  function DeadlineIn(evidence: seq<(string, InputRow)>, now: real, ttl: Option<int>, name: string): Option<real>
    decreases |evidence|
  {
    if evidence == [] then None
    else
      var later := DeadlineIn(evidence[1..], now, ttl, name);
      if later.Some? then later
      else if evidence[0].0 == name then Some(now + TtlFor(evidence[0].1, ttl) as real) else None
  }

  /** The same over all calls that succeeded. */
  function LastDeadline(calls: seq<Call>, name: string): Option<real> {
    if calls == [] then None
    else
      var before, call := calls[..|calls| - 1], calls[|calls| - 1];
      var here := DeadlineIn(call.evidence, call.now, call.ttl, name);
      if StoreAll(Stored(before), call.evidence, call.now, call.ttl).Ok? && here.Some? then here else LastDeadline(before, name)
  }

  /** A row expires with its earliest finding, or, when none carries an expiry, at its deadline. */
  predicate ExpiresAtEarliest(row: Row, deadline: Option<real>) {
    if EarliestExpiry(row.findings).Some? then row.expires == EarliestExpiry(row.findings).value else deadline == Some(row.expires)
  }

  lemma StoredRowExpiry(existing: Option<Row>, name: string, input: InputRow, now: real, ttl: Option<int>)
    requires StoreRow(existing, name, input, now, ttl).Ok?
    ensures ExpiresAtEarliest(StoreRow(existing, name, input, now, ttl).value, Some(now + TtlFor(input, ttl) as real))
  {
    hide RowOk, CanonicalAll, Dedupe, Without, EarliestExpiry, EarliestObserved, Distinct;
  }

  lemma {:induction false} CallExpiry(payload: Payload, evidence: seq<(string, InputRow)>, now: real, ttl: Option<int>, name: string)
    requires StoreAll(payload, evidence, now, ttl).Ok?
    ensures var next, here := StoreAll(payload, evidence, now, ttl).value, DeadlineIn(evidence, now, ttl, name);
      if here.Some? then name in next && ExpiresAtEarliest(next[name], here)
      else Lookup(next, name) == Lookup(payload, name)
    decreases |evidence|
  {
    hide StoreRow, ExpiresAtEarliest;
    if evidence != [] {
      var (entry, input) := evidence[0];
      StoredRowExpiry(Lookup(payload, entry), entry, input, now, ttl);
      CallExpiry(payload[entry := StoreRow(Lookup(payload, entry), entry, input, now, ttl).value], evidence[1..], now, ttl, name);
    }
  }

  lemma {:induction false} StoredExpiry(calls: seq<Call>, name: string)
    ensures name in Stored(calls) ==> ExpiresAtEarliest(Stored(calls)[name], LastDeadline(calls, name))
  {
    if calls != [] {
      var before, call := calls[..|calls| - 1], calls[|calls| - 1];
      StoredExpiry(before, name);
      if StoreAll(Stored(before), call.evidence, call.now, call.ttl).Ok? {
        CallExpiry(Stored(before), call.evidence, call.now, call.ttl, name);
      }
      hide ExpiresAtEarliest, StoreAll, DeadlineIn;
    }
  }

  /** A stored row never outlives a finding that carries an expiry. */
  lemma StoredRowExpiresFirst(existing: Option<Row>, name: string, input: InputRow, now: real, ttl: Option<int>)
    requires StoreRow(existing, name, input, now, ttl).Ok?
    ensures var row := StoreRow(existing, name, input, now, ttl).value;
      forall f | f in row.findings && f.expires.Some? :: row.expires <= f.expires.value
  {
    StoredRowExpiry(existing, name, input, now, ttl);
    EarliestExpiryIsLeast(StoreRow(existing, name, input, now, ttl).value.findings);
    hide StoreRow;
  }

  /** Nor does any row after any sequence of stores. */
  lemma StoredExpiresFirst(calls: seq<Call>, name: string)
    requires name in Stored(calls)
    ensures forall f | f in Stored(calls)[name].findings && f.expires.Some? :: Stored(calls)[name].expires <= f.expires.value
  {
    StoredExpiry(calls, name);
    EarliestExpiryIsLeast(Stored(calls)[name].findings);
    hide Stored, LastDeadline;
  }

  /** Fail-closed freshness over all stores and loads, explicit null expiries included. A load is stale exactly
      when one of the row's findings has expired or, if none carries an expiry, when the deadline of the last
      store of that row has passed; a stale row loads as blocked by default, and a row that loads as revalidated
      has no finding past its expiry. */
  lemma LoadsFailClosed(calls: seq<Call>, name: string, now: real, reason: string)
    requires name in Stored(calls)
    ensures var row := Stored(calls)[name];
            var loaded := LoadRow(name, row, now, Blocked, reason);
      && (loaded.stale <==>
            if HasExpiry(row.findings) then ExpiresBy(row.findings, now)
            else LastDeadline(calls, name).Some? && LastDeadline(calls, name).value <= now)
      && (loaded.stale ==> loaded.status == Blocked && loaded.findings != [] && Blocker(loaded.findings[0]))
      && (loaded.status == LiveRevalidated ==> !loaded.stale && forall f | f in loaded.findings && f.expires.Some? :: f.expires.value > now)
  {
    StoredExpiry(calls, name);
    EarliestExpiryBy(Stored(calls)[name].findings, now);
    hide Stored, LastDeadline, EarliestExpiry;
  }

  /** Until when a row lets one of its findings stand. */
  function Life(row: Row, f: Finding): real {
    if f.expires.Some? then f.expires.value else row.expires
  }

  /** What a store leaves of the row that was there. */
  function Kept(existing: Row, new_: seq<Finding>): seq<Finding> { Without(existing.findings, Dimensions(new_)) }

  lemma KeptOrNew(existing: Row, new_: seq<Finding>, t: real)
    ensures HasExpiry(Merged(Some(existing), new_)) <==> HasExpiry(Kept(existing, new_)) || HasExpiry(new_)
    ensures ExpiresBy(Merged(Some(existing), new_), t) <==> ExpiresBy(Kept(existing, new_), t) || ExpiresBy(new_, t)
  {
    forall f ensures f in Merged(Some(existing), new_) <==> f in new_ || f in Kept(existing, new_) {
      MergedElements(Some(existing), new_, f);
      WithoutElements(existing.findings, Dimensions(new_), f);
    }
    hide Merged, Kept;
  }

  /** Storing other dimensions keeps a finding; exactly when it does not extend its life. It never does for a
      finding with an expiry of its own. A finding whose expiry is an explicit null stands as long as its row:
      the row is not pushed past its old deadline if and only if some kept or new finding expires by then or,
      when none of them carries an expiry, the new call's own deadline is no later. */
  lemma KeptFindingKeepsItsLife(existing: Row, name: string, input: InputRow, now: real, ttl: Option<int>, f: Finding)
    requires StoreRow(Some(existing), name, input, now, ttl).Ok? && f in existing.findings
    requires CanonicalAll(input.findings, name, AdapterFor(Some(existing), input), now, TtlFor(input, ttl)).Ok?
    requires f.dimension !in Dimensions(CanonicalAll(input.findings, name, AdapterFor(Some(existing), input), now, TtlFor(input, ttl)).value)
    ensures var row := StoreRow(Some(existing), name, input, now, ttl).value;
            var c := CanonicalAll(input.findings, name, AdapterFor(Some(existing), input), now, TtlFor(input, ttl)).value;
      && f in row.findings
      && (row.expires <= Life(existing, f) <==>
            || f.expires.Some?
            || ExpiresBy(Kept(existing, c), existing.expires) || ExpiresBy(c, existing.expires)
            || (!HasExpiry(Kept(existing, c)) && !HasExpiry(c) && now + TtlFor(input, ttl) as real <= existing.expires))
  {
    var row := StoreRow(Some(existing), name, input, now, ttl).value;
    var c := CanonicalAll(input.findings, name, AdapterFor(Some(existing), input), now, TtlFor(input, ttl)).value;
    StoredRowShape(Some(existing), name, input, now, ttl);
    StoredRowExpiry(Some(existing), name, input, now, ttl);
    MergedElements(Some(existing), c, f);
    KeptOrNew(existing, c, existing.expires);
    EarliestExpiryBy(row.findings, existing.expires);
    if f.expires.Some? {
      EarliestExpiryBy(row.findings, f.expires.value);
    }
    hide StoreRow, CanonicalAll, Merged, Kept, RowOk, EarliestExpiry, TtlFor, AdapterFor;
  }

  // ---------------------------------------------------------------- a life that is extended

  /** A finding without times that neither blocks nor names a price. */
  predicate Untimed(f: Finding) {
    FindingOk(f) && !Blocker(f) && f.price.None? && f.observed.None? && f.expires.None?
  }

  /** A checked input row with one finding whose times are explicit nulls. */
  function NullTimes(f: Finding): InputRow {
    InputRow("", f.adapter, None, true, [RawFinding(Absent, Absent, Null, Null, f)], None)
  }

  /** How a life is extended, for any two such findings of one tuple in different dimensions and any times:
      the first is stored at `now` and stands until `now + ttl`; storing only the second at `later` keeps it,
      and the row, still revalidated, now stands until `later + ttl`. */
  lemma UntimedFindingOutlivesItsRow(f: Finding, g: Finding, now: real, later: real, ttl: nat)
    requires Untimed(f) && Untimed(g) && f.target == g.target && f.adapter == g.adapter && f.dimension != g.dimension
    requires now <= later
    ensures var first := StoreRow(None, f.target, NullTimes(f), now, Some(ttl));
      && first.Ok? && f in first.value.findings && first.value.expires == now + ttl as real
      && var second := StoreRow(Some(first.value), f.target, NullTimes(g), later, Some(ttl));
         && second.Ok? && f in second.value.findings && second.value.expires == later + ttl as real
         && second.value.status == LiveRevalidated
  {
    MergedOne(f);
    UntimedRow(None, f, [f], now, ttl);
    var first := StoreRow(None, f.target, NullTimes(f), now, Some(ttl)).value;
    MergedTwo(first, f, g);
    hide StoreRow, Merged, Untimed, RowOk;
    UntimedRow(Some(first), g, [f, g], later, ttl);
  }

  lemma MergedOne(f: Finding)
    ensures Merged(None, [f]) == [f]
  {
    assert [] + [f] == [f];
    DedupeOfDistinct([f]);
  }

  lemma MergedTwo(row: Row, f: Finding, g: Finding)
    requires row.findings == [f] && f.dimension != g.dimension
    ensures Merged(Some(row), [g]) == [f, g]
  {
    assert [f][..0] == [] && Dimensions([g]) == {g.dimension};
    assert Without([f], {g.dimension}) == [] + [f] == [f] && [f] + [g] == [f, g];
    DedupeOfDistinct([f, g]);
  }

  lemma UntimedRow(existing: Option<Row>, f: Finding, findings: seq<Finding>, now: real, ttl: nat)
    requires findings == Merged(existing, [f]) && findings != []
    requires existing.Some? ==> RowOk(existing.value) && existing.value.target == f.target
    requires Untimed(f) && forall x | x in findings :: Untimed(x) && x.adapter == f.adapter
    ensures var row := StoreRow(existing, f.target, NullTimes(f), now, Some(ttl));
      row.Ok? && row.value.findings == findings && row.value.expires == now + ttl as real && row.value.status == LiveRevalidated
      && RowOk(row.value) && row.value.target == f.target
  {
    OneNullTimes(existing, f, now, ttl);
    assert !HasBlocker(findings);
    NoExpiry(findings);
    hide StoreRow, Merged, RowOk, FindingOk, EarliestExpiry, EarliestObserved, Blank, CanonicalAll, HasBlocker, AdapterFor, Untimed;
    StoreSucceedsIff(existing, f.target, NullTimes(f), now, Some(ttl));
    StoredRowShape(existing, f.target, NullTimes(f), now, Some(ttl));
    StoredRowExpiry(existing, f.target, NullTimes(f), now, Some(ttl));
    StoredRowStatus(existing, f.target, NullTimes(f), now, Some(ttl));
  }

  lemma OneNullTimes(existing: Option<Row>, f: Finding, now: real, ttl: nat)
    requires Untimed(f)
    ensures CanonicalAll(NullTimes(f).findings, f.target, f.adapter, now, ttl) == Ok([f])
    ensures !Blank(f.target) && !Blank(f.adapter) && AdapterFor(existing, NullTimes(f)) == f.adapter
  {
    assert NullTimes(f).findings[1..] == [] && [f] + [] == [f];
    assert Canonical(NullTimes(f).findings[0], f.target, f.adapter, now, ttl) == Ok(f);
  }

  lemma StoredRowStatus(existing: Option<Row>, name: string, input: InputRow, now: real, ttl: Option<int>)
    ensures var r := StoreRow(existing, name, input, now, ttl); r.Ok? ==> r.value.status == StoredStatus(input.status, r.value.findings)
  {
    hide RowOk, CanonicalAll, Dedupe, Without, EarliestExpiry, EarliestObserved, StoredStatus;
  }

  lemma {:induction false} NoExpiry(findings: seq<Finding>)
    requires forall f | f in findings :: f.expires.None? && f.observed.None?
    ensures EarliestExpiry(findings).None? && EarliestObserved(findings).None?
  {
    if findings != [] {
      NoExpiry(findings[1..]);
    }
  }
}
