/** The sliding-window rate limiter (`basic_rate_limit` in gpucall/app.py, `prune_rate_limit` in
    gpucall/app_helpers.py). Times are readings of one clock that never goes back.
  */
module RateLimit {
  import Sets

  const WINDOW := 60.0

  /** The stamps still inside the window that ends now. */
  function Recent(stamps: seq<real>, now: real): seq<real> {
    if stamps == [] then []
    else Recent(stamps[..|stamps| - 1], now) + if now - stamps[|stamps| - 1] < WINDOW then [stamps[|stamps| - 1]] else []
  }

  predicate Until(stamps: seq<real>, now: real) { forall s | s in stamps :: s <= now }

  lemma {:induction false} RecentOfRecent(stamps: seq<real>, earlier: real, now: real)
    requires earlier <= now
    ensures Recent(Recent(stamps, earlier), now) == Recent(stamps, now)
  {
    if stamps != [] {
      var n := |stamps| - 1;
      RecentOfRecent(stamps[..n], earlier, now);
      var kept := Recent(stamps[..n], earlier);
      if earlier - stamps[n] < WINDOW {
        assert (kept + [stamps[n]])[..|kept|] == kept;
      } else {
        assert Recent(stamps, earlier) == kept;
      }
    }
  }

  lemma {:induction false} RecentElements(stamps: seq<real>, now: real, s: real)
    ensures s in Recent(stamps, now) <==> s in stamps && now - s < WINDOW
  {
    if stamps != [] {
      var n := |stamps| - 1;
      RecentElements(stamps[..n], now, s);
      assert stamps == stamps[..n] + [stamps[n]];
    }
  }

  lemma RecentPush(stamps: seq<real>, now: real)
    ensures Recent(stamps + [now], now) == Recent(stamps, now) + [now]
  {
    assert (stamps + [now])[..|stamps|] == stamps;
  }

  // ---------------------------------------------------------------- the bound, over histories

  /** Admissions of one identity, oldest first, each with the limit it was admitted under. */
  datatype Admission = Admission(at: real, rpm: nat)

  function Times(history: seq<Admission>): seq<real> {
    if history == [] then [] else Times(history[..|history| - 1]) + [history[|history| - 1].at]
  }

  /** How the limiter admits: each admission found fewer than its limit in the window before it. */
  predicate Limited(history: seq<Admission>) {
    history != [] ==>
      var before, last := history[..|history| - 1], history[|history| - 1];
      Limited(before) && Until(Times(before), last.at) && |Recent(Times(before), last.at)| < last.rpm
  }

  function CountIn(history: seq<Admission>, from: real): nat {
    if history == [] then 0
    else CountIn(history[..|history| - 1], from) + if from <= history[|history| - 1].at < from + WINDOW then 1 else 0
  }

  lemma {:induction false} CountWithinRecent(history: seq<Admission>, from: real, now: real)
    requires now < from + WINDOW && Until(Times(history), now)
    ensures CountIn(history, from) <= |Recent(Times(history), now)|
  {
    if history != [] {
      var n := |history| - 1;
      var t := Times(history[..n]);
      assert (t + [history[n].at])[..|t|] == t;
      assert history[n].at in Times(history) && forall s | s in t :: s in Times(history);
      CountWithinRecent(history[..n], from, now);
    }
  }

  /** No half-open window of sixty seconds, wherever it starts, contains more admissions of an identity than
      the largest limit any of its admissions was made under. */
  lemma {:induction false} WindowBound(history: seq<Admission>, from: real, rpm: nat)
    requires Limited(history) && forall a | a in history :: a.rpm <= rpm
    ensures CountIn(history, from) <= rpm
  {
    if history != [] {
      var n := |history| - 1;
      assert history == history[..n] + [history[n]];
      if from <= history[n].at < from + WINDOW {
        CountWithinRecent(history[..n], from, history[n].at);
      } else {
        WindowBound(history[..n], from, rpm);
      }
    }
  }

  // ---------------------------------------------------------------- the limiter

  /** The newest stamp of a window. */
  function Latest(stamps: seq<real>): real {
    if stamps == [] then 0.0
    else if |stamps| == 1 || stamps[0] > Latest(stamps[1..]) then stamps[0] else Latest(stamps[1..])
  }

  predicate Stale(stamps: seq<real>, now: real) { forall s | s in stamps :: now - s >= WINDOW }

  lemma {:induction false} LatestIs(stamps: seq<real>)
    ensures stamps == [] ==> Latest(stamps) == 0.0
    ensures stamps != [] ==> Latest(stamps) in stamps && Until(stamps, Latest(stamps))
  {
    if |stamps| > 1 {
      LatestIs(stamps[1..]);
      assert stamps == [stamps[0]] + stamps[1..];
    }
  }

  /** A window is stale exactly if no decision can use it any more: each of its stamps is sixty seconds old. */
  lemma StaleIff(stamps: seq<real>, now: real)
    ensures Stale(stamps, now) <==> Recent(stamps, now) == []
    ensures Stale(stamps, now) <==> forall s | s in stamps :: s + 60.0 <= now
  {
    if Stale(stamps, now) {
      StaleIsForgettable(stamps, now);
    } else {
      var s :| s in stamps && now - s < WINDOW;
      RecentElements(stamps, now, s);
    }
  }

  lemma StaleIsForgettable(stamps: seq<real>, now: real)
    requires Stale(stamps, now)
    ensures Recent(stamps, now) == []
  {
    if Recent(stamps, now) != [] {
      RecentElements(stamps, now, Recent(stamps, now)[0]);
    }
  }

  // ---------------------------------------------------------------- what the limiter remembers

  datatype Memory = Memory(windows: map<string, seq<real>>, history: map<string, seq<Admission>>, evicted: set<string>, clock: real)

  function WindowOf(m: Memory, identity: string): seq<real> { if identity in m.windows then m.windows[identity] else [] }

  function Admitted(m: Memory, identity: string): seq<Admission> { if identity in m.history then m.history[identity] else [] }

  /** Nothing was forgotten that a decision now or later could still use. */
  predicate Faithful(m: Memory, identity: string) {
    && Until(Times(Admitted(m, identity)), m.clock)
    && (identity !in m.evicted ==>
          && Recent(WindowOf(m, identity), m.clock) == Recent(Times(Admitted(m, identity)), m.clock)
          && Limited(Admitted(m, identity)))
  }

  ghost predicate AllFaithful(m: Memory) { forall id: string :: Faithful(m, id) }

  lemma TimePasses(m: Memory, now: real)
    requires AllFaithful(m) && m.clock <= now
    ensures AllFaithful(m.(clock := now))
  {
    var m' := m.(clock := now);
    forall id: string ensures Faithful(m', id) {
      assert Faithful(m, id);
      RecentOfRecent(WindowOf(m, id), m.clock, now);
      RecentOfRecent(Times(Admitted(m, id)), m.clock, now);
    }
  }

  lemma OneMoreHere(window: seq<real>, before: seq<Admission>, now: real, rpm: nat)
    requires Until(Times(before), now)
    ensures var after := before + [Admission(now, rpm)];
      && Until(Times(after), now)
      && (Recent(window, now) == Recent(Times(before), now) && Limited(before) && |Recent(window, now)| < rpm ==>
            Recent(Recent(window, now) + [now], now) == Recent(Times(after), now) && Limited(after))
  {
    var after := before + [Admission(now, rpm)];
    assert after[..|before|] == before;
    assert Times(after) == Times(before) + [now];
    RecentOfRecent(window, now, now);
    RecentPush(Recent(window, now), now);
    RecentPush(Times(before), now);
    hide Recent, Times;
  }

  lemma OneMore(m: Memory, identity: string, rpm: nat, window: seq<real>)
    requires AllFaithful(m) && window == Recent(WindowOf(m, identity), m.clock) && |window| < rpm
    ensures AllFaithful(m.(windows := m.windows[identity := window + [m.clock]],
                           history := m.history[identity := Admitted(m, identity) + [Admission(m.clock, rpm)]]))
  {
    var m' := m.(windows := m.windows[identity := window + [m.clock]],
                 history := m.history[identity := Admitted(m, identity) + [Admission(m.clock, rpm)]]);
    assert Faithful(m, identity);
    OneMoreHere(WindowOf(m, identity), Admitted(m, identity), m.clock, rpm);
    hide Recent, Times, Limited, Until;
    forall id: string ensures Faithful(m', id) {
      assert Faithful(m, id);
    }
  }

  /** Dropping windows whose stamps are all stale. */
  lemma StaleDropped(m: Memory, stale: set<string>)
    requires AllFaithful(m) && forall id | id in stale :: id in m.windows && Stale(m.windows[id], m.clock)
    ensures AllFaithful(m.(windows := m.windows - stale))
  {
    forall id: string ensures Faithful(m.(windows := m.windows - stale), id) {
      assert Faithful(m, id);
      if id in stale {
        StaleIsForgettable(m.windows[id], m.clock);
      }
    }
  }

  lemma OneEvicted(m: Memory, identity: string)
    requires AllFaithful(m)
    ensures AllFaithful(m.(windows := m.windows - {identity}, evicted := m.evicted + {identity}))
  {
    forall id: string ensures Faithful(m.(windows := m.windows - {identity}, evicted := m.evicted + {identity}), id) {
      assert Faithful(m, id);
    }
  }

  predicate NoLaterThan(windows: map<string, seq<real>>, quiet: string)
    requires quiet in windows
  {
    forall id | id in windows :: Latest(windows[quiet]) <= Latest(windows[id])
  }

  /** `gone` has been evicted from `before`, and was quiet at least as long as all that stayed. */
  predicate QuietestGone(before: Memory, after: Memory, gone: set<string>) {
    && after == before.(windows := before.windows - gone, evicted := before.evicted + gone) && gone <= before.windows.Keys
    && forall id, kept | id in gone && kept in after.windows :: Latest(before.windows[id]) <= Latest(before.windows[kept])
  }

  lemma NobodyGone(before: Memory)
    ensures QuietestGone(before, before, {})
  {
    assert before.windows - {} == before.windows;
  }

  lemma OneMoreGone(before: Memory, now: Memory, gone: set<string>, quiet: string)
    requires QuietestGone(before, now, gone) && quiet in now.windows && NoLaterThan(now.windows, quiet)
    ensures QuietestGone(before, now.(windows := now.windows - {quiet}, evicted := now.evicted + {quiet}), gone + {quiet})
  {
    hide Latest;
    assert now.windows - {quiet} == before.windows - (gone + {quiet});
  }

  function WithoutStale(windows: map<string, seq<real>>, now: real): map<string, seq<real>> {
    windows - set id | id in windows && Stale(windows[id], now)
  }

  /** Admissions at times t with from <= t < to. */
  function Between(history: seq<Admission>, from: real, to: real): nat {
    if history == [] then 0
    else Between(history[..|history| - 1], from, to) + if from <= history[|history| - 1].at < to then 1 else 0
  }

  lemma {:induction false} CountIsBetween(history: seq<Admission>, from: real)
    ensures CountIn(history, from) == Between(history, from, from + 60.0)
  {
    if history != [] {
      CountIsBetween(history[..|history| - 1], from);
    }
  }

  /** Admissions less than a minute before `now`. */
  function LastMinute(history: seq<Admission>, now: real): nat {
    if history == [] then 0
    else LastMinute(history[..|history| - 1], now) + if now < history[|history| - 1].at + 60.0 then 1 else 0
  }

  lemma {:induction false} RecentIsLastMinute(history: seq<Admission>, now: real)
    ensures |Recent(Times(history), now)| == LastMinute(history, now)
  {
    if history != [] {
      var t := Times(history[..|history| - 1]);
      assert (t + [history[|history| - 1].at])[..|t|] == t;
      RecentIsLastMinute(history[..|history| - 1], now);
    }
  }

  /** For an identity never evicted, the window has as many stamps as there were admissions in the last minute. */
  lemma WindowDecides(m: Memory, identity: string, now: real)
    requires AllFaithful(m) && m.clock <= now
    ensures identity !in m.evicted ==> |Recent(WindowOf(m, identity), now)| == LastMinute(Admitted(m, identity), now)
  {
    TimePasses(m, now);
    assert Faithful(m.(clock := now), identity);
    RecentIsLastMinute(Admitted(m, identity), now);
    hide Recent, LastMinute, Times;
  }

  /** An identity that was never evicted has no more admissions in any sixty-second window than the largest limit
      it was admitted under. */
  lemma NeverMoreThanRpm(m: Memory, identity: string, from: real, rpm: nat)
    requires AllFaithful(m) && identity !in m.evicted && forall a | a in Admitted(m, identity) :: a.rpm <= rpm
    ensures Between(Admitted(m, identity), from, from + 60.0) <= rpm
  {
    CountIsBetween(Admitted(m, identity), from);
    assert Faithful(m, identity);
    WindowBound(Admitted(m, identity), from, rpm);
  }

  class RateLimiter {
    const identityMax: nat
    var windows: map<string, seq<real>>
    var pruneNext: real
    ghost var clock: real
    ghost var history: map<string, seq<Admission>>
    ghost var evicted: set<string>

    ghost function View(): Memory reads this { Memory(windows, history, evicted, clock) }

    ghost predicate Valid() reads this { AllFaithful(View()) }

    constructor (identityMax: nat, now: real)
      ensures Valid() && View() == Memory(map[], map[], {}, now) && this.identityMax == identityMax
    {
      this.identityMax := identityMax;
      windows, pruneNext := map[], 0.0;
      clock, history, evicted := now, map[], {};
    }

    /** One request. For an identity never evicted the decision is the one an unbounded memory of all its
        admissions would give. */
    method Admit(identity: string, rpm: nat, now: real) returns (ok: bool)
      requires Valid() && clock <= now && |windows| <= identityMax
      modifies this
      ensures Valid() && clock == now && old(evicted) <= evicted && |windows| <= identityMax
      ensures identity !in old(evicted) ==> (ok <==> LastMinute(Admitted(old(View()), identity), now) < rpm)
      ensures history == if ok then old(history)[identity := Admitted(old(View()), identity) + [Admission(now, rpm)]] else old(history)
      ensures evicted != old(evicted) ==> ok && |old(windows)| == identityMax
      ensures ok && old(pruneNext) <= now ==> pruneNext == now + 10.0
      ensures pruneNext != old(pruneNext) ==>
        && ok && pruneNext == now + 10.0 && (old(pruneNext) <= now || |old(windows)| == identityMax)
        && (forall id | id in windows :: Recent(windows[id], now) != [])
    {
      hide AllFaithful, Recent, LastMinute, QuietestGone, WithoutStale;
      var window := Recent(if identity in windows then windows[identity] else [], now);
      TimePasses(View(), now);
      WindowDecides(View(), identity, now);
      clock := now;
      if |window| >= rpm {
        return false;
      }
      Record(identity, rpm, now, window);
      if |windows| > identityMax || now >= pruneNext {
        ghost var gone := Prune(now);
        forall id | id in windows ensures Recent(windows[id], now) != [] {
          StaleIff(windows[id], now);
        }
        pruneNext := now + 10.0;
      }
      ok := true;
    }

    method Record(identity: string, rpm: nat, now: real, window: seq<real>)
      requires Valid() && clock == now && window == Recent(WindowOf(View(), identity), clock) && |window| < rpm
      modifies this`windows, this`history
      ensures Valid() && |windows| <= |old(windows)| + 1
      ensures history == old(history)[identity := Admitted(old(View()), identity) + [Admission(clock, rpm)]]
    {
      OneMore(View(), identity, rpm, window);
      hide AllFaithful, Recent;
      history := history[identity := Admitted(View(), identity) + [Admission(clock, rpm)]];
      windows := windows[identity := window + [now]];
      assert windows.Keys == old(windows).Keys + {identity};
    }

    /** Stale identities go first, and no later decision can tell; only if there are still too many are the
        identities that have been quiet longest evicted. */
    method Prune(now: real) returns (ghost gone: set<string>)
      requires Valid() && clock == now
      modifies this`windows, this`evicted
      ensures Valid() && |windows| <= identityMax
      ensures evicted == old(evicted) + gone
      ensures QuietestGone(old(View()).(windows := WithoutStale(old(windows), now)), View(), gone)
      ensures gone != {} ==> |old(windows)| > identityMax
      ensures forall id | id in windows :: !Stale(windows[id], now)
    {
      hide AllFaithful;
      var stale := set id | id in windows && Stale(windows[id], now);
      StaleDropped(View(), stale);
      Sets.SubsetCard((windows - stale).Keys, windows.Keys);
      windows := windows - stale;
      gone := EvictQuietest();
    }

    method EvictQuietest() returns (ghost gone: set<string>)
      requires Valid()
      modifies this`windows, this`evicted
      ensures Valid() && |windows| <= identityMax
      ensures QuietestGone(old(View()), View(), gone)
      ensures gone != {} ==> |old(windows)| > identityMax
    {
      gone := {};
      NobodyGone(View());
      hide AllFaithful, QuietestGone, NoLaterThan;
      while |windows| > identityMax
        invariant Valid() && QuietestGone(old(View()), View(), gone)
        invariant if gone == {} then |windows| <= |old(windows)| else |old(windows)| > identityMax
        decreases |windows|
      {
        ghost var now := View();
        var quiet := EvictOne();
        OneMoreGone(old(View()), now, gone, quiet);
        gone := gone + {quiet};
      }
    }

    method EvictOne() returns (quiet: string)
      requires Valid() && |windows| > 0
      modifies this`windows, this`evicted
      ensures Valid() && quiet in old(windows) && NoLaterThan(old(windows), quiet)
      ensures View() == old(View()).(windows := old(windows) - {quiet}, evicted := old(evicted) + {quiet})
      ensures |windows| == |old(windows)| - 1
    {
      quiet := Quietest();
      hide AllFaithful, NoLaterThan;
      OneEvicted(View(), quiet);
      assert windows.Keys == (windows - {quiet}).Keys + {quiet};
      windows := windows - {quiet};
      evicted := evicted + {quiet};
    }

    method Quietest() returns (quiet: string)
      requires windows != map[]
      ensures quiet in windows && NoLaterThan(windows, quiet)
    {
      quiet :| quiet in windows;
      var rest := windows.Keys - {quiet};
      while rest != {}
        invariant quiet in windows && rest <= windows.Keys
        invariant forall id | id in windows && id !in rest :: Latest(windows[quiet]) <= Latest(windows[id])
      {
        var id :| id in rest;
        if Latest(windows[id]) < Latest(windows[quiet]) {
          quiet := id;
        }
        rest := rest - {id};
      }
    }
  }
}
