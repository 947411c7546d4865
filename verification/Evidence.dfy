/** The provider evidence store: contracts, per-dimension store and load (gpucall/panopticon.py).

    Times are seconds on one real clock. A row's sorted list of unique dimensions is modelled by the
    set it lists. Two findings count as duplicates when all modelled fields agree, as their canonical
    JSON dumps would.
  */
module Evidence {
  import opened Wrappers

  datatype Dimension =
    | Price | Contract | Credential | Cost | Storage | Endpoint | Stock | Capacity | Health
    | Worker | Queue | Model | Models | LiveTupleCatalog | Panopticon

  datatype Severity = Error | Info

  datatype StockState = Available | Unavailable | UnknownStock

  datatype Status = NotChecked | Unknown | LiveRevalidated | Blocked

  function Ttl(d: Dimension): nat {
    match d case Price => 3600 case Contract => 86400 case _ => 300
  }

  datatype Finding = Finding(target: string, adapter: string, dimension: Dimension, severity: Severity,
                             reason: string, field: string, liveReason: string,
                             price: Option<real>, priceSource: string, source: string,
                             stock: Option<StockState>,
                             observed: Option<real>, expires: Option<real>)

  datatype Row = Row(target: string, adapter: string, status: Status, checked: bool,
                     dimensions: set<Dimension>, findings: seq<Finding>,
                     observed: real, expires: real, ttl: int, catalogValidator: Option<bool>)

  /** Truncation toward zero. */
  function Trunc(x: real): int { if x >= 0.0 then x.Floor else -((-x).Floor) }

  /** Nothing but white space: spaces, tabs and line ends, the separators 28 to 31, and the two Latin-1 spaces. */
  predicate Blank(s: string) {
    forall c | c in s :: 9 <= c as int <= 13 || 28 <= c as int <= 32 || c as int == 133 || c as int == 160
  }

  predicate FindingOk(f: Finding) {
    && !Blank(f.target) && !Blank(f.adapter)
    && (f.price.Some? ==> f.price.value >= 0.0)
    && (f.observed.Some? && f.expires.Some? ==> f.observed.value <= f.expires.value)
    && (f.severity == Error ==> f.reason != "" || f.field != "" || f.liveReason != "")
    && (f.dimension == Price && f.severity == Info ==> f.price.Some? && (f.priceSource != "" || f.source != ""))
    && (f.dimension == Stock && f.severity == Info ==> f.stock.Some?)
  }

  predicate Blocker(f: Finding) {
    f.severity == Error || f.stock == Some(Unavailable)
  }

  predicate HasBlocker(findings: seq<Finding>) {
    exists f :: f in findings && Blocker(f)
  }

  function Dimensions(findings: seq<Finding>): set<Dimension> {
    set f | f in findings :: f.dimension
  }

  /** The row contract. */
  predicate RowOk(r: Row) {
    && !Blank(r.target) && !Blank(r.adapter)
    && r.observed <= r.expires
    && r.ttl == Trunc(r.expires - r.observed)
    && r.dimensions == Dimensions(r.findings)
    && (forall f | f in r.findings :: FindingOk(f) && f.target == r.target && f.adapter == r.adapter)
    && (r.status in {LiveRevalidated, Blocked} ==> r.findings != [])
    && (HasBlocker(r.findings) ==> r.status == Blocked)
    && (r.status == LiveRevalidated ==> r.checked)
  }

  // ---------------------------------------------------------------- duplicates

  /** Keep the first of equal findings, in order. */
  function Dedupe(findings: seq<Finding>): seq<Finding> {
    if findings == [] then []
    else
      var kept, last := Dedupe(findings[..|findings| - 1]), findings[|findings| - 1];
      if last in kept then kept else kept + [last]
  }

  predicate Distinct(findings: seq<Finding>) {
    forall j, k | 0 <= j < k < |findings| :: findings[j] != findings[k]
  }

  lemma {:induction false} DedupeKeepsElements(findings: seq<Finding>, f: Finding)
    ensures f in Dedupe(findings) <==> f in findings
  {
    if findings != [] {
      var n := |findings| - 1;
      DedupeKeepsElements(findings[..n], f);
      DedupeKeepsElements(findings[..n], findings[n]);
      assert findings == findings[..n] + [findings[n]];
    }
  }

  lemma {:induction false} DedupeDistinct(findings: seq<Finding>)
    ensures Distinct(Dedupe(findings))
  {
    if findings != [] {
      DedupeDistinct(findings[..|findings| - 1]);
    }
  }

  lemma {:induction false} DedupeOfDistinct(findings: seq<Finding>)
    requires Distinct(findings)
    ensures Dedupe(findings) == findings
  {
    if findings != [] {
      var n := |findings| - 1;
      DedupeOfDistinct(findings[..n]);
      assert findings == findings[..n] + [findings[n]];
    }
  }

  /** The source's loop. */
  method DedupeFindings(findings: seq<Finding>) returns (result: seq<Finding>)
    ensures result == Dedupe(findings)
    ensures Distinct(result) && forall f :: f in result <==> f in findings
  {
    result := [];
    var seen: set<Finding> := {};
    var k := 0;
    while k < |findings|
      invariant 0 <= k <= |findings|
      invariant result == Dedupe(findings[..k])
      invariant forall f :: f in seen <==> f in result
    {
      assert findings[..k + 1][..k] == findings[..k];
      if findings[k] !in seen {
        seen := seen + {findings[k]};
        result := result + [findings[k]];
      }
      k := k + 1;
    }
    assert findings[..k] == findings;
    DedupeDistinct(findings);
    forall f ensures f in result <==> f in findings { DedupeKeepsElements(findings, f); }
  }

  function Of(findings: seq<Finding>, d: Dimension): seq<Finding> {
    if findings == [] then []
    else Of(findings[..|findings| - 1], d) + if findings[|findings| - 1].dimension == d then [findings[|findings| - 1]] else []
  }

  lemma {:induction false} OfElements(findings: seq<Finding>, d: Dimension, f: Finding)
    ensures f in Of(findings, d) <==> f in findings && f.dimension == d
  {
    if findings != [] {
      var n := |findings| - 1;
      OfElements(findings[..n], d, f);
      assert findings == findings[..n] + [findings[n]];
    }
  }

  lemma {:induction false} OfConcat(left: seq<Finding>, right: seq<Finding>, d: Dimension)
    ensures Of(left + right, d) == Of(left, d) + Of(right, d)
  {
    if right == [] {
      assert left + right == left;
    } else {
      OfConcat(left, right[..|right| - 1], d);
      assert (left + right)[..|left + right| - 1] == left + right[..|right| - 1];
    }
  }

  /** Deduplicating and selecting a dimension commute. */
  lemma {:induction false} OfDedupe(findings: seq<Finding>, d: Dimension)
    ensures Of(Dedupe(findings), d) == Dedupe(Of(findings, d))
  {
    if findings != [] {
      var n := |findings| - 1;
      var kept, last := Dedupe(findings[..n]), findings[n];
      OfDedupe(findings[..n], d);
      OfElements(kept, d, last);
      OfConcat(kept, [last], d);
      assert [last][..0] == [];
      if last.dimension == d {
        assert (Of(findings[..n], d) + [last])[..|Of(findings[..n], d)|] == Of(findings[..n], d);
      } else {
        assert Of(findings, d) == Of(findings[..n], d);
      }
    }
  }

  // ---------------------------------------------------------------- earliest times

  function EarliestExpiry(findings: seq<Finding>): Option<real> {
    if findings == [] then None else Earlier(findings[0].expires, EarliestExpiry(findings[1..]))
  }

  function EarliestObserved(findings: seq<Finding>): Option<real> {
    if findings == [] then None else Earlier(findings[0].observed, EarliestObserved(findings[1..]))
  }

  function Earlier(x: Option<real>, y: Option<real>): Option<real> {
    if x.None? then y else if y.None? then x else if x.value <= y.value then x else y
  }

  lemma {:induction false} EarliestExpiryIsLeast(findings: seq<Finding>)
    ensures forall f | f in findings && f.expires.Some? :: EarliestExpiry(findings).Some? && EarliestExpiry(findings).value <= f.expires.value
    ensures EarliestExpiry(findings).Some? ==> exists f :: f in findings && f.expires == EarliestExpiry(findings)
  {
    if findings != [] {
      EarliestExpiryIsLeast(findings[1..]);
      assert findings[0] in findings && forall f | f in findings[1..] :: f in findings;
    }
  }

  lemma {:induction false} EarliestObservedIsLeast(findings: seq<Finding>)
    ensures forall f | f in findings && f.observed.Some? :: EarliestObserved(findings).Some? && EarliestObserved(findings).value <= f.observed.value
  {
    if findings != [] {
      EarliestObservedIsLeast(findings[1..]);
    }
  }

  // ---------------------------------------------------------------- storing

  /** A field of raw input: missing, explicitly null, or given. */
  datatype Field<T> = Absent | Null | Given(value: T)

  function Default<T>(field: Field<T>, value: T): Option<T> {
    match field case Absent => Some(value) case Null => None case Given(v) => Some(v)
  }

  /** A raw finding is a finding whose identity and times may be missing. */
  datatype RawFinding = RawFinding(target: Field<string>, adapter: Field<string>,
                                   observed: Field<real>, expires: Field<real>, rest: Finding)

  datatype InputRow = InputRow(target: string, adapter: string, status: Option<Status>, checked: bool,
                               findings: seq<RawFinding>, catalogValidator: Option<bool>)

  datatype StoreError = Invalid

  function Canonical(raw: RawFinding, target: string, adapter: string, now: real, ttl: int): Result<Finding, StoreError> {
    if Default(raw.target, target) != Some(target) || Default(raw.adapter, adapter) != Some(adapter) then Err(Invalid)
    else
      var source := if raw.rest.price.Some? && raw.rest.priceSource == ""
                    then if raw.rest.source != "" then raw.rest.source else "provider-panopticon"
                    else raw.rest.priceSource;
      var f := raw.rest.(target := target, adapter := adapter, priceSource := source,
                         observed := Default(raw.observed, now), expires := Default(raw.expires, now + ttl as real));
      if FindingOk(f) then Ok(f) else Err(Invalid)
  }

  function CanonicalAll(raws: seq<RawFinding>, target: string, adapter: string, now: real, ttl: int): Result<seq<Finding>, StoreError> {
    if raws == [] then Ok([])
    else match Canonical(raws[0], target, adapter, now, ttl)
      case Err(e) => Err(e)
      case Ok(f) =>
        match CanonicalAll(raws[1..], target, adapter, now, ttl)
        case Err(e) => Err(e)
        case Ok(rest) => Ok([f] + rest)
  }

  function ShortestTtl(raws: seq<RawFinding>): nat {
    if raws == [] then 300
    else if |raws| == 1 then Ttl(raws[0].rest.dimension)
    else if Ttl(raws[0].rest.dimension) < ShortestTtl(raws[1..]) then Ttl(raws[0].rest.dimension) else ShortestTtl(raws[1..])
  }

  function FirstAdapter(raws: seq<RawFinding>): string {
    if raws == [] then ""
    else if raws[0].adapter.Given? && raws[0].adapter.value != "" then raws[0].adapter.value
    else FirstAdapter(raws[1..])
  }

  function AdapterFor(existing: Option<Row>, input: InputRow): string {
    if input.adapter != "" then input.adapter
    else if FirstAdapter(input.findings) != "" then FirstAdapter(input.findings)
    else if existing.Some? then existing.value.adapter else ""
  }

  function TtlFor(input: InputRow, ttl: Option<int>): int {
    if ttl.Some? then ttl.value else ShortestTtl(input.findings)
  }

  function Without(findings: seq<Finding>, dims: set<Dimension>): seq<Finding> {
    if findings == [] then []
    else Without(findings[..|findings| - 1], dims) + if findings[|findings| - 1].dimension in dims then [] else [findings[|findings| - 1]]
  }

  function StatusFrom(findings: seq<Finding>): Status {
    if HasBlocker(findings) then Blocked else if findings != [] then LiveRevalidated else Unknown
  }

  function StoredStatus(status: Option<Status>, findings: seq<Finding>): Status {
    if StatusFrom(findings) == Blocked then Blocked
    else if findings != [] then LiveRevalidated
    else if status.Some? then status.value
    else StatusFrom(findings)
  }

  function Merged(existing: Option<Row>, enriched: seq<Finding>): seq<Finding> {
    Dedupe(Without(if existing.Some? then existing.value.findings else [], Dimensions(enriched)) + enriched)
  }

  function BuildRow(existing: Option<Row>, target: string, adapter: string, input: InputRow, enriched: seq<Finding>, now: real, ttl: int): Row {
    var findings := Merged(existing, enriched);
    var expires := if EarliestExpiry(findings).Some? then EarliestExpiry(findings).value else now + ttl as real;
    var observed := if EarliestObserved(findings).Some? then EarliestObserved(findings).value else now;
    Row(target, adapter, StoredStatus(input.status, findings), input.checked, Dimensions(findings), findings,
        observed, expires, Trunc(expires - observed),
        if input.catalogValidator.Some? then input.catalogValidator else if existing.Some? then existing.value.catalogValidator else None)
  }

  /** The row one entry of a store call produces. */
  function StoreRow(existing: Option<Row>, name: string, input: InputRow, now: real, ttl: Option<int>): Result<Row, StoreError> {
    if input.target != "" && input.target != name then Err(Invalid)
    else
      var adapter := AdapterFor(existing, input);
      if adapter == "" then Err(Invalid)
      else match CanonicalAll(input.findings, name, adapter, now, TtlFor(input, ttl))
        case Err(e) => Err(e)
        case Ok(enriched) =>
          var row := BuildRow(existing, name, adapter, input, enriched, now, TtlFor(input, ttl));
          if row.ttl < 0 || !RowOk(row) then Err(Invalid) else Ok(row)
  }

  type Payload = map<string, Row>

  function Lookup(payload: Payload, name: string): Option<Row> {
    if name in payload then Some(payload[name]) else None
  }

  /** A whole store call: its entries in order, all or nothing. */
  function StoreAll(payload: Payload, evidence: seq<(string, InputRow)>, now: real, ttl: Option<int>): Result<Payload, StoreError>
    decreases |evidence|
  {
    if evidence == [] then Ok(payload)
    else match StoreRow(Lookup(payload, evidence[0].0), evidence[0].0, evidence[0].1, now, ttl)
      case Err(e) => Err(e)
      case Ok(row) => StoreAll(payload[evidence[0].0 := row], evidence[1..], now, ttl)
  }

  datatype Call = Call(evidence: seq<(string, InputRow)>, now: real, ttl: Option<int>)

  function Applied(payload: Payload, call: Call): Payload {
    match StoreAll(payload, call.evidence, call.now, call.ttl)
    case Ok(next) => next
    case Err(_) => payload
  }

  /** The file after some store calls; a call that raises leaves the file alone. */
  function Stored(calls: seq<Call>): Payload {
    if calls == [] then map[] else Applied(Stored(calls[..|calls| - 1]), calls[|calls| - 1])
  }

  class EvidenceFile {
    var payload: Payload

    constructor ()
      ensures payload == map[]
    {
      payload := map[];
    }

    /** Rows are built on a copy; the file is replaced only after the last one. */
    method Store(evidence: seq<(string, InputRow)>, now: real, ttl: Option<int>) returns (ok: bool)
      modifies this
      ensures ok <==> StoreAll(old(payload), evidence, now, ttl).Ok?
      ensures payload == Applied(old(payload), Call(evidence, now, ttl))
    {
      var tuples, k := payload, 0;
      assert evidence[0..] == evidence;
      while k < |evidence|
        invariant 0 <= k <= |evidence| && payload == old(payload)
        invariant StoreAll(tuples, evidence[k..], now, ttl) == StoreAll(old(payload), evidence, now, ttl)
      {
        assert evidence[k..][1..] == evidence[k + 1..];
        var row := StoreRow(Lookup(tuples, evidence[k].0), evidence[k].0, evidence[k].1, now, ttl);
        if row.Err? {
          return false;
        }
        tuples := tuples[evidence[k].0 := row.value];
        k := k + 1;
      }
      payload := tuples;
      ok := true;
    }
  }

  // ---------------------------------------------------------------- loading

  datatype Loaded = Loaded(row: Row, status: Status, findings: seq<Finding>, stale: bool)

  function ExpiryFinding(name: string, row: Row, reason: string): Finding {
    Finding(name, row.adapter, if row.dimensions == {Price} then Price else Panopticon, Error, reason, "",
            "panopticon_evidence_expired", None, "", "provider-panopticon", None, None, None)
  }

  function LoadRow(name: string, row: Row, now: real, expiredStatus: Status, reason: string): Loaded {
    if row.expires <= now then Loaded(row, expiredStatus, [ExpiryFinding(name, row, reason)] + row.findings, true)
    else Loaded(row, row.status, row.findings, false)
  }
}
