/** What a finding stored without times is given, told over raw findings and stored rows. */
module EvidenceLifetimes {
  import opened Wrappers
  import opened Evidence
  import opened EvidenceProperties

  /** A day for contracts, an hour for prices, five minutes for everything else. */
  lemma LifetimeTable(d: Dimension)
    ensures Ttl(d) == if d.Contract? then 24 * 3600 else if d.Price? then 3600 else 5 * 60
  {}

  /** The shortest lifetime among the raw findings' own dimensions: a lower bound that one of them attains. */
  lemma {:induction false} ShortestIsLeast(raws: seq<RawFinding>)
    ensures raws == [] ==> ShortestTtl(raws) == 300
    ensures forall raw | raw in raws :: ShortestTtl(raws) <= Ttl(raw.rest.dimension)
    ensures raws != [] ==> exists raw :: raw in raws && ShortestTtl(raws) == Ttl(raw.rest.dimension)
  {
    hide Ttl;
    if |raws| > 1 {
      ShortestIsLeast(raws[1..]);
      var raw :| raw in raws[1..] && ShortestTtl(raws[1..]) == Ttl(raw.rest.dimension);
      assert raw in raws && raws[0] in raws;
      assert forall x | x in raws :: x == raws[0] || x in raws[1..];
    } else if raws != [] {
      assert raws[0] in raws;
    }
  }

  /** When a raw finding is observed: now, unless it says when, or says it is not known. */
  predicate ObservedRightly(raw: RawFinding, f: Finding, now: real) {
    match raw.observed
    case Absent => f.observed == Some(now)
    case Null => f.observed == None
    case Given(v) => f.observed == Some(v)
  }

  /** When it expires, among the raw findings of its row: as it says; after the lifetime the call gives; or, when
      neither says, after a lifetime that is at most that of its own dimension and of every dimension in the row,
      and is that of one of them. */
  ghost predicate ExpiresRightly(raw: RawFinding, raws: seq<RawFinding>, f: Finding, now: real, ttl: Option<int>) {
    match raw.expires
    case Null => f.expires == None
    case Given(v) => f.expires == Some(v)
    case Absent =>
      f.expires.Some? && (
      if ttl.Some? then f.expires.value == now + ttl.value as real
      else
        && (forall other | other in raws :: f.expires.value <= now + Ttl(other.rest.dimension) as real)
        && (exists other :: other in raws && f.expires.value == now + Ttl(other.rest.dimension) as real))
  }

  lemma {:induction false} CanonicalAt(raws: seq<RawFinding>, target: string, adapter: string, now: real, ttl: int, k: nat)
    requires k < |raws| && CanonicalAll(raws, target, adapter, now, ttl).Ok?
    ensures var all := CanonicalAll(raws, target, adapter, now, ttl).value;
      |all| == |raws| && Canonical(raws[k], target, adapter, now, ttl) == Ok(all[k])
  {
    hide Canonical;
    var rest := CanonicalAll(raws[1..], target, adapter, now, ttl).value;
    CanonicalLength(raws[1..], target, adapter, now, ttl);
    if k > 0 {
      CanonicalAt(raws[1..], target, adapter, now, ttl, k - 1);
    }
  }

  lemma {:induction false} CanonicalLength(raws: seq<RawFinding>, target: string, adapter: string, now: real, ttl: int)
    requires CanonicalAll(raws, target, adapter, now, ttl).Ok?
    ensures |CanonicalAll(raws, target, adapter, now, ttl).value| == |raws|
  {
    hide Canonical;
    if raws != [] {
      CanonicalLength(raws[1..], target, adapter, now, ttl);
    }
  }

  /** Every raw finding of a stored row is in it, for its tuple and adapter, with the times it is due. */
  lemma StoredTimes(existing: Option<Row>, name: string, input: InputRow, now: real, ttl: Option<int>, raw: RawFinding)
    requires StoreRow(existing, name, input, now, ttl).Ok? && raw in input.findings
    ensures var row := StoreRow(existing, name, input, now, ttl).value;
      exists f :: f in row.findings && f.target == name && f.adapter == row.adapter && f.dimension == raw.rest.dimension
        && f.severity == raw.rest.severity && f.reason == raw.rest.reason && f.stock == raw.rest.stock && f.price == raw.rest.price
        && (f.price.Some? ==> f.priceSource != "")
        && ObservedRightly(raw, f, now) && ExpiresRightly(raw, input.findings, f, now, ttl)
  {
    var raws, adapter, t := input.findings, AdapterFor(existing, input), TtlFor(input, ttl);
    var row := StoreRow(existing, name, input, now, ttl).value;
    var c := CanonicalAll(raws, name, adapter, now, t).value;
    StoredRowShape(existing, name, input, now, ttl);
    StoredRowAdapter(existing, name, input, now, ttl);
    var k :| 0 <= k < |raws| && raws[k] == raw;
    CanonicalAt(raws, name, adapter, now, t, k);
    MergedElements(existing, c, c[k]);
    assert c[k] in c;
    CanonicalTimes(raw, name, adapter, now, t);
    ShortestIsLeast(raws);
    hide StoreRow, CanonicalAll, Canonical, Merged, RowOk, AdapterFor, ShortestTtl, Ttl;
    assert ExpiresRightly(raw, raws, c[k], now, ttl);
  }

  lemma StoredRowAdapter(existing: Option<Row>, name: string, input: InputRow, now: real, ttl: Option<int>)
    requires StoreRow(existing, name, input, now, ttl).Ok?
    ensures StoreRow(existing, name, input, now, ttl).value.adapter == AdapterFor(existing, input)
  {
    hide RowOk, CanonicalAll, Dedupe, Without, EarliestExpiry, EarliestObserved;
  }

  lemma CanonicalTimes(raw: RawFinding, target: string, adapter: string, now: real, ttl: int)
    requires Canonical(raw, target, adapter, now, ttl).Ok?
    ensures var f := Canonical(raw, target, adapter, now, ttl).value;
      && f.target == target && f.adapter == adapter && f.dimension == raw.rest.dimension && f.severity == raw.rest.severity
      && f.reason == raw.rest.reason && f.stock == raw.rest.stock && f.price == raw.rest.price && (f.price.Some? ==> f.priceSource != "")
      && ObservedRightly(raw, f, now)
      && (raw.expires.Absent? ==> f.expires == Some(now + ttl as real))
      && (raw.expires.Null? ==> f.expires == None) && (raw.expires.Given? ==> f.expires == Some(raw.expires.value))
  {
    hide FindingOk;
  }

  /** A row stored with nothing found lives five minutes, unless the call gives a lifetime. */
  lemma EmptyRowLifetime(name: string, input: InputRow, now: real)
    requires StoreRow(None, name, input, now, None).Ok? && input.findings == []
    ensures var row := StoreRow(None, name, input, now, None).value; row.findings == [] && row.observed == now && row.expires == now + 300.0
  {
    hide RowOk;
  }
}
