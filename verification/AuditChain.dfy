/** The hash-chained audit trail over rotated files (AuditTrail in gpucall/audit.py).

    A hash is a free constructor over what it digests, so hashing is injective. The body of an
    event stands for its identifier, type, time and redacted payload. Rotated files are named by
    a time stamp, and the directory lists them in stamp order before the active file.
  */
module AuditChain {
  import opened Wrappers

  type Body = string

  datatype Hash = Sha(body: Body, previous: Option<Hash>)

  datatype Event = Event(body: Body, previous: Option<Hash>, hash: Hash)

  type File = seq<Event>

  datatype Disk = Disk(rotated: map<nat, File>, active: Option<File>)

  function Chained(body: Body, previous: Option<Hash>): Event {
    Event(body, previous, Sha(body, previous))
  }

  function LastHash(events: seq<Event>): Option<Hash> {
    if events == [] then None else Some(events[|events| - 1].hash)
  }

  /** What `verify` checks of an event sequence that starts after `previous`. */
  predicate ChainOk(events: seq<Event>, previous: Option<Hash>) {
    events != [] ==>
      && events[0].previous == previous
      && events[0].hash == Sha(events[0].body, events[0].previous)
      && ChainOk(events[1..], Some(events[0].hash))
  }

  // ---------------------------------------------------------------- the directory listing

  function Least(stamps: set<nat>): (least: nat)
    requires stamps != {}
    ensures least in stamps && forall s | s in stamps :: least <= s
  {
    SomeLeast(stamps);
    var least :| least in stamps && forall s | s in stamps :: least <= s;
    least
  }

  lemma SomeLeast(stamps: set<nat>)
    requires stamps != {}
    ensures exists least :: least in stamps && forall s | s in stamps :: least <= s
  {
    var least := LeastExists(stamps);
  }

  lemma {:induction false} LeastExists(stamps: set<nat>) returns (least: nat)
    requires stamps != {}
    ensures least in stamps && forall s | s in stamps :: least <= s
    decreases stamps
  {
    var any :| any in stamps;
    var rest := stamps - {any};
    assert forall s | s in stamps :: s == any || s in rest;
    least := any;
    if rest != {} {
      var other := LeastExists(rest);
      least := if any < other then any else other;
    }
  }

  /** The files of some stamps, in ascending stamp order. */
  function Listed(rotated: map<nat, File>, stamps: set<nat>): seq<File>
    requires stamps <= rotated.Keys
    decreases stamps
  {
    if stamps == {} then []
    else var s := Least(stamps); [rotated[s]] + Listed(rotated, stamps - {s})
  }

  function ChainPaths(disk: Disk): seq<File> {
    Listed(disk.rotated, disk.rotated.Keys) + if disk.active.Some? then [disk.active.value] else []
  }

  function Flat(files: seq<File>): seq<Event> {
    if files == [] then [] else files[0] + Flat(files[1..])
  }

  /** The whole history, oldest event first. */
  function Whole(disk: Disk): seq<Event> {
    Flat(ChainPaths(disk))
  }

  lemma {:induction false} FlatConcat(left: seq<File>, right: seq<File>)
    ensures Flat(left + right) == Flat(left) + Flat(right)
  {
    if left == [] {
      assert left + right == right;
    } else {
      FlatConcat(left[1..], right);
      assert (left + right)[1..] == left[1..] + right;
    }
  }

  lemma WholeParts(disk: Disk)
    ensures Whole(disk) == Flat(Listed(disk.rotated, disk.rotated.Keys)) + if disk.active.Some? then disk.active.value else []
  {
    FlatConcat(Listed(disk.rotated, disk.rotated.Keys), if disk.active.Some? then [disk.active.value] else []);
    if disk.active.Some? {
      assert Flat([disk.active.value]) == disk.active.value + Flat([]);
    }
  }

  function Below(stamps: set<nat>, stamp: nat): set<nat> { set s | s in stamps && s < stamp }

  function Above(stamps: set<nat>, stamp: nat): set<nat> { set s | s in stamps && s > stamp }

  /** A listing splits at any stamp. */
  lemma {:induction false} ListedSplit(rotated: map<nat, File>, stamps: set<nat>, stamp: nat)
    requires stamps <= rotated.Keys
    ensures Listed(rotated, stamps)
         == Listed(rotated, Below(stamps, stamp)) + (if stamp in stamps then [rotated[stamp]] else []) + Listed(rotated, Above(stamps, stamp))
    decreases stamps
  {
    if stamps != {} {
      var s := Least(stamps);
      ListedSplit(rotated, stamps - {s}, stamp);
      if s < stamp {
        assert Below(stamps - {s}, stamp) == Below(stamps, stamp) - {s};
        assert Above(stamps - {s}, stamp) == Above(stamps, stamp);
        var below := Least(Below(stamps, stamp));
        assert s in Below(stamps, stamp) && below in stamps;
        assert below == s;
      } else {
        assert Below(stamps, stamp) == {} && Below(stamps - {s}, stamp) == {};
        if s == stamp {
          assert Above(stamps, stamp) == stamps - {s} && Above(stamps - {s}, stamp) == stamps - {s};
        } else {
          assert Above(stamps, stamp) == stamps && Above(stamps - {s}, stamp) == stamps - {s};
        }
      }
    }
  }

  lemma {:induction false} ListedSame(rotated: map<nat, File>, others: map<nat, File>, stamps: set<nat>)
    requires stamps <= rotated.Keys && stamps <= others.Keys
    requires forall s | s in stamps :: rotated[s] == others[s]
    ensures Listed(rotated, stamps) == Listed(others, stamps)
    decreases stamps
  {
    if stamps != {} {
      ListedSame(rotated, others, stamps - {Least(stamps)});
    }
  }

  // ---------------------------------------------------------------- chain facts

  function Depth(h: Option<Hash>): nat {
    if h.None? then 0 else 1 + Depth(h.value.previous)
  }

  lemma {:induction false} ChainSplit(left: seq<Event>, right: seq<Event>, previous: Option<Hash>)
    ensures ChainOk(left + right, previous)
       <==> ChainOk(left, previous) && ChainOk(right, if left == [] then previous else LastHash(left))
    decreases |left|
  {
    if left == [] {
      assert left + right == right;
    } else {
      assert (left + right)[1..] == left[1..] + right;
      ChainSplit(left[1..], right, Some(left[0].hash));
    }
  }

  /** In a verified trail the last hash is as deep as the trail is long. */
  lemma {:induction false} DepthIsLength(events: seq<Event>)
    requires ChainOk(events, None)
    ensures Depth(LastHash(events)) == |events|
    decreases |events|
  {
    if events != [] {
      var n := |events| - 1;
      assert events[..n] + [events[n]] == events;
      ChainSplit(events[..n], [events[n]], None);
      DepthIsLength(events[..n]);
    }
  }

  /** Tamper evidence: two event sequences that both verify and end in the same hash are equal. */
  lemma {:induction false} SameLastHashSameChain(left: seq<Event>, right: seq<Event>)
    requires ChainOk(left, None) && ChainOk(right, None) && LastHash(left) == LastHash(right)
    ensures left == right
    decreases |left|
  {
    DepthIsLength(left);
    DepthIsLength(right);
    hide Depth, ChainOk;
    if left != [] {
      var n := |left| - 1;
      LastLink(left);
      LastLink(right);
      SameLastHashSameChain(left[..n], right[..n]);
    }
  }

  lemma LastLink(events: seq<Event>)
    requires ChainOk(events, None) && events != []
    ensures var n := |events| - 1;
      && ChainOk(events[..n], None)
      && events == events[..n] + [Chained(events[n].hash.body, LastHash(events[..n]))]
  {
    var n := |events| - 1;
    assert events[..n] + [events[n]] == events;
    ChainSplit(events[..n], [events[n]], None);
  }

  /** The same for two directories, however each is split into rotated and active files. */
  lemma TamperEvidence(left: Disk, right: Disk)
    requires ChainOk(Whole(left), None) && ChainOk(Whole(right), None)
    requires LastHash(Whole(left)) == LastHash(Whole(right))
    ensures Whole(left) == Whole(right)
  {
    SameLastHashSameChain(Whole(left), Whole(right));
  }

  /** The anchor hash is needed: dropping any number of final events still verifies, and the last hash then differs. */
  lemma TruncationVerifies(events: seq<Event>, n: nat)
    requires ChainOk(events, None) && n < |events|
    ensures ChainOk(events[..n], None) && LastHash(events[..n]) != LastHash(events)
  {
    assert events[..n] + events[n..] == events;
    ChainSplit(events[..n], events[n..], None);
    DepthIsLength(events);
    DepthIsLength(events[..n]);
  }

  // ---------------------------------------------------------------- operations

  function Appended(disk: Disk, body: Body): Disk {
    var event := Chained(body, LastHash(Whole(disk)));
    disk.(active := Some((if disk.active.Some? then disk.active.value else []) + [event]))
  }

  /** `os.replace`: the active file takes the stamped name, over whatever had it. */
  function Rotated(disk: Disk, stamp: nat): Disk
    requires disk.active.Some?
  {
    Disk(disk.rotated[stamp := disk.active.value], None)
  }

  lemma AppendedWhole(disk: Disk, body: Body)
    ensures Whole(Appended(disk, body)) == Whole(disk) + [Chained(body, LastHash(Whole(disk)))]
    ensures ChainOk(Whole(disk), None) ==> ChainOk(Whole(Appended(disk, body)), None)
  {
    WholeParts(disk);
    WholeParts(Appended(disk, body));
    var event := Chained(body, LastHash(Whole(disk)));
    ChainSplit(Whole(disk), [event], None);
  }

  function FileAt(rotated: map<nat, File>, stamp: nat): File {
    if stamp in rotated then rotated[stamp] else []
  }

  function Older(rotated: map<nat, File>, stamp: nat): seq<Event> {
    Flat(Listed(rotated, Below(rotated.Keys, stamp)))
  }

  function Newer(rotated: map<nat, File>, stamp: nat): seq<Event> {
    Flat(Listed(rotated, Above(rotated.Keys, stamp)))
  }

  lemma FlatSplit(rotated: map<nat, File>, stamp: nat)
    ensures Flat(Listed(rotated, rotated.Keys)) == Older(rotated, stamp) + FileAt(rotated, stamp) + Newer(rotated, stamp)
  {
    hide Listed;
    ListedSplit(rotated, rotated.Keys, stamp);
    var below, above := Listed(rotated, Below(rotated.Keys, stamp)), Listed(rotated, Above(rotated.Keys, stamp));
    var here: seq<File> := if stamp in rotated then [rotated[stamp]] else [];
    FlatConcat(below + here, above);
    FlatConcat(below, here);
    FlatAtMostOne(here);
  }

  lemma FlatAtMostOne(files: seq<File>)
    requires |files| <= 1
    ensures Flat(files) == if files == [] then [] else files[0]
  {
    if files != [] {
      assert files[1..] == [];
      assert files[0] + [] == files[0];
    }
  }

  lemma OthersUnmoved(rotated: map<nat, File>, stamp: nat, file: File)
    ensures Older(rotated[stamp := file], stamp) == Older(rotated, stamp)
    ensures Newer(rotated[stamp := file], stamp) == Newer(rotated, stamp)
  {
    var after := rotated[stamp := file];
    assert Below(after.Keys, stamp) == Below(rotated.Keys, stamp) && Above(after.Keys, stamp) == Above(rotated.Keys, stamp);
    ListedSame(rotated, after, Below(rotated.Keys, stamp));
    ListedSame(rotated, after, Above(rotated.Keys, stamp));
    hide Listed, Flat;
  }

  /** The parts a rotation at `stamp` rearranges. */
  lemma RotatedParts(disk: Disk, stamp: nat)
    requires disk.active.Some?
    ensures Whole(disk) == Older(disk.rotated, stamp) + FileAt(disk.rotated, stamp) + Newer(disk.rotated, stamp) + disk.active.value
    ensures Whole(Rotated(disk, stamp)) == Older(disk.rotated, stamp) + disk.active.value + Newer(disk.rotated, stamp)
  {
    hide Listed, Flat, Older, Newer, Whole;
    WholeParts(disk);
    WholeParts(Rotated(disk, stamp));
    FlatSplit(disk.rotated, stamp);
    FlatSplit(Rotated(disk, stamp).rotated, stamp);
    OthersUnmoved(disk.rotated, stamp, disk.active.value);
  }

  lemma {:induction false} FlatNonEmpty(rotated: map<nat, File>, stamps: set<nat>)
    requires stamps <= rotated.Keys && stamps != {} && forall s | s in stamps :: rotated[s] != []
    ensures Flat(Listed(rotated, stamps)) != []
  {
    assert rotated[Least(stamps)] != [];
  }

  /** Exactly when a rotation is sound: on a verified trail, the rotated trail still verifies if and only if
      the new stamp is later than every stamp already used. (An equal stamp overwrites a rotated file; an
      earlier one is listed out of order.) When it is, nothing of the history changes. */
  lemma RotationSoundIffLatest(disk: Disk, stamp: nat)
    requires disk.active.Some? && disk.active.value != [] && ChainOk(Whole(disk), None)
    requires forall s | s in disk.rotated :: disk.rotated[s] != []
    ensures ChainOk(Whole(Rotated(disk, stamp)), None) <==> forall s | s in disk.rotated :: s < stamp
    ensures (forall s | s in disk.rotated :: s < stamp) ==> Whole(Rotated(disk, stamp)) == Whole(disk)
  {
    RotatedParts(disk, stamp);
    var older, here, newer, active := Older(disk.rotated, stamp), FileAt(disk.rotated, stamp), Newer(disk.rotated, stamp), disk.active.value;
    if forall s | s in disk.rotated :: s < stamp {
      assert Above(disk.rotated.Keys, stamp) == {};
      assert older + here + newer == older && older + active + newer == older + active;
    } else {
      var s :| s in disk.rotated && s >= stamp;
      if s > stamp {
        assert s in Above(disk.rotated.Keys, stamp);
        FlatNonEmpty(disk.rotated, Above(disk.rotated.Keys, stamp));
      }
      Misplaced(older, here, newer, active);
    }
  }

  /** A file moved in front of events it was chained to, or put in their place, breaks the chain. */
  lemma Misplaced(older: seq<Event>, here: seq<Event>, newer: seq<Event>, active: seq<Event>)
    requires ChainOk(older + here + newer + active, None) && active != [] && here + newer != []
    ensures !ChainOk(older + active + newer, None)
  {
    ChainSplit(older + here + newer, active, None);
    ChainSplit(older + here, newer, None);
    ChainSplit(older, here, None);
    DepthIsLength(older);
    DepthIsLength(older + here + newer);
    ChainSplit(older + active, newer, None);
    ChainSplit(older, active, None);
  }

  // ---------------------------------------------------------------- runs of any number of trail objects

  datatype Op = Append(body: Body) | Rotate(stamp: nat)

  /** A rotation happens only when there is an active file with something in it. */
  function Apply(disk: Disk, op: Op): Disk {
    match op
    case Append(body) => Appended(disk, body)
    case Rotate(stamp) => if disk.active.Some? && disk.active.value != [] then Rotated(disk, stamp) else disk
  }

  /** A rotation moves an active file that holds something, whole, and leaves an empty or missing one
      alone. */
  lemma RotationMoves(disk: Disk, stamp: nat)
    ensures var after := Apply(disk, Rotate(stamp));
      if disk.active.None? || disk.active.value == [] then after == disk
      else
        && after.active.None? && after.rotated.Keys == disk.rotated.Keys + {stamp} && after.rotated[stamp] == disk.active.value
        && forall s | s in disk.rotated && s != stamp :: after.rotated[s] == disk.rotated[s]
  {}

  function Run(disk: Disk, ops: seq<Op>): Disk
    decreases |ops|
  {
    if ops == [] then disk else Run(Apply(disk, ops[0]), ops[1..])
  }

  /** Every rotation's stamp is later than all stamps used before it. */
  predicate StampsIncrease(latest: int, ops: seq<Op>)
    decreases |ops|
  {
    ops != [] ==>
      if ops[0].Rotate? then latest < ops[0].stamp && StampsIncrease(ops[0].stamp, ops[1..])
      else StampsIncrease(latest, ops[1..])
  }

  function Bodies(ops: seq<Op>): seq<Body> {
    if ops == [] then [] else (if ops[0].Append? then [ops[0].body] else []) + Bodies(ops[1..])
  }

  /** The trail that appending these bodies to `events` in order makes, with no files in sight. */
  function Extended(events: seq<Event>, bodies: seq<Body>): seq<Event>
    decreases |bodies|
  {
    if bodies == [] then events else Extended(events + [Chained(bodies[0], LastHash(events))], bodies[1..])
  }

  ghost predicate Good(disk: Disk, latest: int) {
    && ChainOk(Whole(disk), None)
    && (forall s | s in disk.rotated :: s <= latest && disk.rotated[s] != [])
  }

  /** Any interleaving of appends and rotations, with increasing stamps, keeps the files equal to the append
      history and keeps the trail verified. */
  lemma {:induction false} RunKeepsHistory(disk: Disk, latest: int, ops: seq<Op>)
    requires Good(disk, latest) && StampsIncrease(latest, ops)
    ensures Whole(Run(disk, ops)) == Extended(Whole(disk), Bodies(ops))
    ensures ChainOk(Whole(Run(disk, ops)), None)
    decreases |ops|
  {
    if ops != [] {
      var next := Apply(disk, ops[0]);
      match ops[0]
      case Append(body) =>
        AppendedWhole(disk, body);
        RunKeepsHistory(next, latest, ops[1..]);
        assert Bodies(ops)[1..] == Bodies(ops[1..]);
      case Rotate(stamp) =>
        if disk.active.Some? && disk.active.value != [] {
          RotationSoundIffLatest(disk, stamp);
        }
        RunKeepsHistory(next, stamp, ops[1..]);
        assert Bodies(ops) == Bodies(ops[1..]);
    }
  }

  // ---------------------------------------------------------------- the trail objects

  /** The directory that every trail object on the same path shares. */
  class AuditDirectory {
    var disk: Disk

    constructor ()
      ensures disk == Disk(map[], None)
    {
      disk := Disk(map[], None);
    }
  }

  class AuditTrail {
    const dir: AuditDirectory
    const size: File -> nat                // file size in bytes
    var lastHashCache: Option<Hash>

    ghost predicate Valid() reads this {
      size([]) == 0
    }

    constructor (dir: AuditDirectory, size: File -> nat)
      requires size([]) == 0
      ensures Valid() && this.dir == dir && this.size == size
    {
      this.dir, this.size := dir, size;
      lastHashCache := None;
      new;
      lastHashCache := ReadLastHash();
    }

    /** Backwards over the files, skipping empty ones. */
    method ReadLastHash() returns (last: Option<Hash>)
      ensures last == LastHash(Whole(dir.disk))
    {
      var paths := ChainPaths(dir.disk);
      var k := |paths|;
      while k > 0
        invariant 0 <= k <= |paths|
        invariant Flat(paths[k..]) == []
      {
        k := k - 1;
        assert paths[k..][1..] == paths[k + 1..];
        if paths[k] != [] {
          assert paths == paths[..k] + paths[k..];
          FlatConcat(paths[..k], paths[k..]);
          return Some(paths[k][|paths[k]| - 1].hash);
        }
      }
      assert paths[0..] == paths;
      last := None;
    }

    method Append(body: Body) returns (event: Event)
      modifies this, dir
      ensures dir.disk == Apply(old(dir.disk), Op.Append(body))
      ensures Whole(dir.disk) == old(Whole(dir.disk)) + [event]
      ensures event == Chained(body, old(LastHash(Whole(dir.disk))))
    {
      var previous := ReadLastHash();
      event := Event(body, previous, Sha(body, previous));
      AppendedWhole(dir.disk, body);
      dir.disk := dir.disk.(active := Some((if dir.disk.active.Some? then dir.disk.active.value else []) + [event]));
      lastHashCache := Some(event.hash);
    }

    method Verify() returns (ok: bool)
      ensures ok <==> ChainOk(Whole(dir.disk), None)
    {
      var paths := ChainPaths(dir.disk);
      var previous: Option<Hash> := None;
      var k := 0;
      while k < |paths|
        invariant 0 <= k <= |paths|
        invariant ChainOk(Whole(dir.disk), None) <==> ChainOk(Flat(paths[k..]), previous)
      {
        var file, line := paths[k], 0;
        assert paths[k..][1..] == paths[k + 1..];
        assert file[0..] == file;
        while line < |file|
          invariant 0 <= line <= |file|
          invariant ChainOk(Whole(dir.disk), None) <==> ChainOk(file[line..] + Flat(paths[k + 1..]), previous)
        {
          var event := file[line];
          assert (file[line..] + Flat(paths[k + 1..]))[1..] == file[line + 1..] + Flat(paths[k + 1..]);
          if event.previous != previous {
            return false;
          }
          if event.hash != Sha(event.body, event.previous) {
            return false;
          }
          previous := Some(event.hash);
          line := line + 1;
        }
        assert file[line..] + Flat(paths[k + 1..]) == Flat(paths[k + 1..]);
        k := k + 1;
      }
      ok := true;
    }

    method RotateIfNeeded(maxBytes: int, stamp: nat) returns (rotated: bool)
      requires Valid()
      modifies this, dir
      ensures rotated <==> maxBytes > 0 && old(dir.disk.active).Some? && size(old(dir.disk.active).value) >= maxBytes
      ensures rotated ==> old(dir.disk.active).value != []
      ensures dir.disk == if rotated then Apply(old(dir.disk), Rotate(stamp)) else old(dir.disk)
    {
      if maxBytes <= 0 || dir.disk.active.None? || size(dir.disk.active.value) < maxBytes {
        return false;
      }
      var file := dir.disk.active.value;
      assert file != [];
      var lastHash := LastHash(file);
      dir.disk := Disk(dir.disk.rotated[stamp := file], None);
      lastHashCache := lastHash;
      rotated := true;
    }
  }
}
