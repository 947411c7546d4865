/** What the contracts of findings and rows refuse, and what a stored, loaded or merged row is made of, field by field. */
module EvidenceContracts {
  import opened Wrappers
  import opened Evidence
  import opened EvidenceProperties
  import opened EvidenceMerge

  /** `int()` rounds toward zero. */
  lemma TruncTowardZero(x: real)
    ensures x >= 0.0 ==> 0 <= Trunc(x) && Trunc(x) as real <= x < Trunc(x) as real + 1.0
    ensures x <= 0.0 ==> Trunc(x) <= 0 && Trunc(x) as real - 1.0 < x <= Trunc(x) as real
  {}

  /** What `strip` takes off: the white space of Latin-1, code by code. */
  const WHITE: seq<int> := [9, 10, 11, 12, 13, 28, 29, 30, 31, 32, 133, 160]

  /** A white character more or less changes nothing; any other makes a name that is not blank. */
  lemma BlankExactly(before: string, c: char, after: string)
    ensures Blank("")
    ensures c as int in WHITE ==> (Blank(before + [c] + after) <==> Blank(before + after))
    ensures c as int !in WHITE ==> !Blank(before + [c] + after)
  {
    assert c in before + [c] + after;
    forall x | x in before + after ensures x in before + [c] + after {}
    forall x | x in before + [c] + after ensures x == c || x in before + after {}
  }

  /** Exactly which findings are refused. */
  lemma FindingRefusedIff(f: Finding)
    ensures !FindingOk(f) <==>
      || Blank(f.target) || Blank(f.adapter)
      || (f.price.Some? && f.price.value < 0.0)
      || (f.observed.Some? && f.expires.Some? && f.expires.value < f.observed.value)
      || (f.severity.Error? && f.reason == "" && f.field == "" && f.liveReason == "")
      || (f.severity.Info? && f.dimension.Price? && (f.price.None? || (f.priceSource == "" && f.source == "")))
      || (f.severity.Info? && f.dimension.Stock? && f.stock.None?)
  {
    hide Blank;
  }

  /** Exactly which rows are refused. */
  lemma RowRefusedIff(r: Row)
    ensures !RowOk(r) <==>
      || Blank(r.target) || Blank(r.adapter)
      || r.expires < r.observed || r.ttl != Trunc(r.expires - r.observed)
      || (exists d :: d in r.dimensions && forall f | f in r.findings :: f.dimension != d)
      || (exists f :: f in r.findings && f.dimension !in r.dimensions)
      || (exists f :: f in r.findings && (!FindingOk(f) || f.target != r.target || f.adapter != r.adapter))
      || (r.findings == [] && (r.status.LiveRevalidated? || r.status.Blocked?))
      || (!r.status.Blocked? && exists f :: f in r.findings && (f.severity.Error? || f.stock == Some(Unavailable)))
      || (r.status.LiveRevalidated? && !r.checked)
  {
    hide FindingOk, Blank, Trunc;
  }

  /** The status of a stored row: blocked by an error or unavailable stock, revalidated by any other finding, and
      otherwise as claimed, or unknown. */
  lemma StoredStatusByFindings(existing: Option<Row>, name: string, input: InputRow, now: real, ttl: Option<int>)
    requires StoreRow(existing, name, input, now, ttl).Ok?
    ensures var row := StoreRow(existing, name, input, now, ttl).value;
      && (row.status.Blocked? <==> exists f :: f in row.findings && (f.severity.Error? || f.stock == Some(Unavailable)))
      && (row.status.LiveRevalidated? <==> row.findings != [] && !row.status.Blocked?)
      && (row.findings == [] ==> row.status == if input.status.Some? then input.status.value else Unknown)
      && row.checked == input.checked && row.dimensions == set f | f in row.findings :: f.dimension
  {
    StoredRowStatus(existing, name, input, now, ttl);
    StoredRowShape(existing, name, input, now, ttl);
    StoredRowChecked(existing, name, input, now, ttl);
    hide StoreRow, Merged, Distinct, EarliestExpiry, FindingOk, Blank, Trunc, CanonicalAll;
  }

  lemma StoredRowChecked(existing: Option<Row>, name: string, input: InputRow, now: real, ttl: Option<int>)
    requires StoreRow(existing, name, input, now, ttl).Ok?
    ensures var row := StoreRow(existing, name, input, now, ttl).value;
      && row.checked == input.checked && row.adapter == AdapterFor(existing, input)
      && row.catalogValidator == if input.catalogValidator.Some? then input.catalogValidator
                                 else if existing.Some? then existing.value.catalogValidator else None
  {
    hide RowOk, CanonicalAll, Dedupe, Without, EarliestExpiry, EarliestObserved, StoredStatus, AdapterFor;
  }

  predicate NamesAdapter(raw: RawFinding) { raw.adapter.Given? && raw.adapter.value != "" }

  lemma {:induction false} FirstAdapterIs(raws: seq<RawFinding>)
    ensures FirstAdapter(raws) == "" <==> forall raw | raw in raws :: !NamesAdapter(raw)
    ensures FirstAdapter(raws) != "" ==>
      exists k :: 0 <= k < |raws| && NamesAdapter(raws[k]) && FirstAdapter(raws) == raws[k].adapter.value
                  && forall j | 0 <= j < k :: !NamesAdapter(raws[j])
  {
    if raws != [] && !NamesAdapter(raws[0]) {
      FirstAdapterIs(raws[1..]);
      assert raws == [raws[0]] + raws[1..];
      if FirstAdapter(raws[1..]) != "" {
        var k :| 0 <= k < |raws[1..]| && NamesAdapter(raws[1..][k]) && FirstAdapter(raws[1..]) == raws[1..][k].adapter.value
          && forall j | 0 <= j < k :: !NamesAdapter(raws[1..][j]);
        assert raws[k + 1] == raws[1..][k];
        forall j | 0 <= j < k + 1 ensures !NamesAdapter(raws[j]) {
          assert j > 0 ==> raws[j] == raws[1..][j - 1];
        }
      }
    } else if raws != [] {
      assert raws[0] in raws;
    }
  }

  /** Whose row it is: the input's adapter, else the first one a finding names, else that of the row already there. */
  lemma AdapterByInput(existing: Option<Row>, input: InputRow)
    ensures var adapter, named := AdapterFor(existing, input), exists raw :: raw in input.findings && NamesAdapter(raw);
      && (input.adapter != "" ==> adapter == input.adapter)
      && (input.adapter == "" && named ==>
            exists k :: 0 <= k < |input.findings| && NamesAdapter(input.findings[k]) && adapter == input.findings[k].adapter.value
                        && forall j | 0 <= j < k :: !NamesAdapter(input.findings[j]))
      && (input.adapter == "" && !named ==> adapter == if existing.Some? then existing.value.adapter else "")
  {
    FirstAdapterIs(input.findings);
    hide FirstAdapter, NamesAdapter;
  }

  lemma StoredAdapter(existing: Option<Row>, name: string, input: InputRow, now: real, ttl: Option<int>)
    requires StoreRow(existing, name, input, now, ttl).Ok?
    ensures var row := StoreRow(existing, name, input, now, ttl).value;
      && row.adapter == AdapterFor(existing, input)
      && (input.catalogValidator.Some? ==> row.catalogValidator == input.catalogValidator)
      && (input.catalogValidator.None? && existing.Some? ==> row.catalogValidator == existing.value.catalogValidator)
      && (input.catalogValidator.None? && existing.None? ==> row.catalogValidator.None?)
  {
    StoredRowChecked(existing, name, input, now, ttl);
    hide StoreRow, AdapterFor;
  }

  /** The first of three price sources that says something. */
  predicate IsFirstSource(source: string, own: string, general: string) {
    && (own != "" ==> source == own)
    && (own == "" && general != "" ==> source == general)
    && (own == "" && general == "" ==> source == "provider-panopticon")
  }

  /** Exactly which raw findings are accepted for a row, and what becomes of them: those that name the row's tuple and
      adapter or none, are not observed after they expire, give a reason for an error, and the price or stock they are
      about. Besides identity and times only the source of a price is filled in. */
  lemma AcceptedIff(raw: RawFinding, target: string, adapter: string, now: real, ttl: int)
    ensures var o := (match raw.observed case Absent => Some(now) case Null => None case Given(v) => Some(v));
      var e := (match raw.expires case Absent => Some(now + ttl as real) case Null => None case Given(v) => Some(v));
      var f := raw.rest;
      Canonical(raw, target, adapter, now, ttl).Ok? <==>
        && (raw.target == Absent || raw.target == Given(target)) && (raw.adapter == Absent || raw.adapter == Given(adapter))
        && !Blank(target) && !Blank(adapter)
        && (f.price.Some? ==> f.price.value >= 0.0)
        && (o.Some? && e.Some? ==> o.value <= e.value)
        && (f.severity.Error? ==> f.reason != "" || f.field != "" || f.liveReason != "")
        && (f.severity.Info? && f.dimension.Price? ==> f.price.Some?)
        && (f.severity.Info? && f.dimension.Stock? ==> f.stock.Some?)
    ensures Canonical(raw, target, adapter, now, ttl).Ok? ==>
      var f := Canonical(raw, target, adapter, now, ttl).value;
      && f.target == target && f.adapter == adapter
      && (if raw.rest.price.Some? then IsFirstSource(f.priceSource, raw.rest.priceSource, raw.rest.source) else f.priceSource == raw.rest.priceSource)
      && f.(target := raw.rest.target, adapter := raw.rest.adapter, priceSource := raw.rest.priceSource,
            observed := raw.rest.observed, expires := raw.rest.expires) == raw.rest
  {
    hide Blank;
  }

  lemma {:induction false} AllAcceptedIff(raws: seq<RawFinding>, target: string, adapter: string, now: real, ttl: int)
    ensures CanonicalAll(raws, target, adapter, now, ttl).Ok? <==> forall raw | raw in raws :: Canonical(raw, target, adapter, now, ttl).Ok?
  {
    hide Canonical;
    if raws != [] {
      AllAcceptedIff(raws[1..], target, adapter, now, ttl);
      assert raws == [raws[0]] + raws[1..];
    }
  }

  /** A stale row loads with one more finding in front, an error that names the expiry, in the price dimension if the row
      is about prices alone; a row that is not stale loads as it is. */
  lemma LoadedFindings(name: string, row: Row, now: real, expiredStatus: Status, reason: string)
    ensures var loaded := LoadRow(name, row, now, expiredStatus, reason);
      && loaded.row == row
      && loaded.stale == (row.expires <= now)
      && (!loaded.stale ==> loaded.findings == row.findings && loaded.status == row.status)
      && (loaded.stale ==>
            && loaded.status == expiredStatus
            && |loaded.findings| == |row.findings| + 1 && loaded.findings[1..] == row.findings
            && var f := loaded.findings[0];
               && f.target == name && f.adapter == row.adapter && f.severity == Error && f.reason == reason
               && f.liveReason == "panopticon_evidence_expired" && f.expires.None? && f.observed.None?
               && (if row.dimensions == {Price} then f.dimension == Price else f.dimension == Panopticon))
  {}

  /** The fields of a merged row outside the join: the target and adapter of the rows, the time between the earliest
      observation and expiry, and the first validator flag. */
  lemma MergedFields(a: Row, b: Row)
    requires Mergeable(a, b)
    ensures var m := MergeRows(a, b);
      && m.target == a.target && m.adapter == a.adapter && m.ttl == Trunc(m.expires - m.observed) >= 0
      && (a.catalogValidator.Some? ==> m.catalogValidator == a.catalogValidator)
      && (a.catalogValidator.None? ==> m.catalogValidator == b.catalogValidator)
  {
    hide Dedupe, Dimensions, FindingOk, Blank, HasBlocker;
  }
}
