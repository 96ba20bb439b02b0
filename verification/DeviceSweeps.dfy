/**
 Sweeps: when a device goes offline, and that only the last of several sweeps in
 a row matters.
 */
module DeviceSweeps {
  import opened Options
  import opened Types
  import opened Identities
  import opened DeviceTable
  import opened DeviceTableFacts
  import opened DeviceSessions
  import opened DeviceNaming

  // A sweep takes a device offline exactly when it was not and has been silent
  // for its offline timeout, which is never shorter than its idle timeout; it
  // makes an online device idle exactly in between.
  lemma SweptState(env: Env, e: Entry, now: int)
    ensures var idle := env.config.IdleFor(e.classification.deviceType);
            var offline := env.config.OfflineFor(e.classification.deviceType);
            var silence := if now < e.lastSeenAt then 0 else now - e.lastSeenAt;
            var after := Swept(env, e, now);
            && idle <= offline
            && (after.state == Offline <==> e.state == Offline || silence >= offline)
            && (after.state == Idle <==> e.state != Offline && silence < offline && (e.state == Idle || silence >= idle))
            && (after.state == Offline && e.state != Offline ==> after.currentAp == None)
            && (after.state == e.state ==> after == e)
  {}

  lemma SweptTwice(env: Env, e: Entry, first: int, last: int)
    requires first <= last
    ensures Swept(env, Swept(env, e, first), last) == Swept(env, e, last)
    ensures GoesOffline(env, e, last) <==> GoesOffline(env, e, first) || GoesOffline(env, Swept(env, e, first), last)
    ensures !(GoesOffline(env, e, first) && GoesOffline(env, Swept(env, e, first), last))
  {}

  // ---------- a whole sweep ----------

  function Checks(order: seq<Mac>, now: int): seq<Op> {
    seq(|order|, i requires 0 <= i < |order| => Check(order[i], now))
  }

  // What a sweep makes of a table, whatever order it visits it in.
  function SweptTable(env: Env, devices: map<Mac, Entry>, now: int): map<Mac, Entry> {
    map m | m in devices :: Swept(env, devices[m], now)
  }

  // Of each kind of effect a sweep has, how many it has for one device.
  function Departures(env: Env, b: Book, m: Mac, now: int): nat {
    if m in b.devices && GoesOffline(env, b.devices[m], now) then 1 else 0
  }

  function Closings(effects: seq<Effect>, m: Mac): nat {
    if effects == [] then 0
    else Closings(effects[..|effects| - 1], m)
         + (if effects[|effects| - 1].PresenceClosed? && effects[|effects| - 1].subject == m then 1 else 0)
  }

  lemma {:induction false} ClosingsAppend(first: seq<Effect>, next: seq<Effect>, m: Mac)
    ensures Closings(first + next, m) == Closings(first, m) + Closings(next, m)
  {
    if next == [] {
      assert first + next == first;
    } else {
      var all := first + next;
      assert all[..|all| - 1] == first + next[..|next| - 1];
      ClosingsAppend(first, next[..|next| - 1], m);
    }
  }

  lemma SweepEffectCounts(env: Env, e: Entry, now: int, learning: bool, m: Mac)
    ensures var effects := SweepEffects(env, e, now, learning);
            var expected := if e.mac == m && GoesOffline(env, e, now) then 1 else 0;
            Closings(effects, m) == expected && Count(effects, WentOffline, m) == expected
  {
    hide BestOf, IsBlank, Swept;
    var effects := SweepEffects(env, e, now, learning);
    if effects != [] {
      var stay := if e.currentAp.Some? then [LocationClosed(e.mac, now)] else [];
      var left := [EventFor(Swept(env, e, now), WentOffline, e.lastIp, e.lastInterface, now, learning)];
      var closed := [PresenceClosed(e.mac, now)];
      assert effects == closed + stay + left;
      SweptMac(env, e, now);
      SingleCounts(closed[0], m);
      SingleCounts(left[0], m);
      if stay != [] { SingleCounts(stay[0], m); }
      ClosingsAppend(closed, stay, m);
      ClosingsAppend(closed + stay, left, m);
      CountAppend(closed, stay, WentOffline, m);
      CountAppend(closed + stay, left, WentOffline, m);
    }
  }

  lemma SingleCounts(e: Effect, m: Mac)
    ensures Closings([e], m) == if e.PresenceClosed? && e.subject == m then 1 else 0
    ensures Count([e], WentOffline, m) == if e.Announces(WentOffline, m) then 1 else 0
  {
    assert [e][..0] == [];
  }

  // Partway through, the devices visited are swept and the others are not.
  lemma {:induction false} PartlySwept(env: Env, b: Book, order: seq<Mac>, now: int, m: Mac)
    requires NoDup(order)
    ensures var o := PerformAll(env, b, Checks(order, now));
            && o.book == b.(devices := o.book.devices)
            && o.book.devices.Keys == b.devices.Keys
            && (m in b.devices ==>
                  o.book.devices[m] == if m in order then Swept(env, b.devices[m], now) else b.devices[m])
            && o.flushed == [] && o.rescorings == []
  {
    hide Swept, SweepEffects;
    if order != [] {
      var most, last := order[..|order| - 1], order[|order| - 1];
      assert order == most + [last] && last !in most;
      PartlySwept(env, b, most, now, m);
      var ops := Checks(order, now);
      assert ops[..|ops| - 1] == Checks(most, now);
      CheckIs(env, PerformAll(env, b, Checks(most, now)).book, last, now);
    }
  }

  lemma {:induction false} PartlyCounted(env: Env, b: Book, order: seq<Mac>, now: int, m: Mac)
    requires NoDup(order) && Sound(b)
    ensures var o, left := PerformAll(env, b, Checks(order, now)), if m in order then Departures(env, b, m, now) else 0;
            Closings(o.effects, m) == left && Count(o.effects, WentOffline, m) == left
  {
    hide Swept, SweepEffects, GoesOffline, Perform;
    if order != [] {
      var most, last := order[..|order| - 1], order[|order| - 1];
      assert order == most + [last] && last !in most;
      PartlyCounted(env, b, most, now, m);
      PartlySwept(env, b, most, now, last);
      var ops := Checks(order, now);
      assert ops[..|ops| - 1] == Checks(most, now);
      var before := PerformAll(env, b, Checks(most, now));
      PerformAllSound(env, b, Checks(most, now));
      var final := PerformCheck(env, before.book, last, now);
      CheckIs(env, before.book, last, now);
      if last in before.book.devices {
        SweepEffectCounts(env, before.book.devices[last], now, before.book.learning, m);
      }
      ClosingsAppend(before.effects, final.effects, m);
      CountAppend(before.effects, final.effects, WentOffline, m);
    }
  }

  lemma CheckIs(env: Env, b: Book, mac: Mac, now: int)
    ensures Perform(env, b, Check(mac, now)) == PerformCheck(env, b, mac, now)
  {}

  lemma SweepIs(env: Env, b: Book, order: seq<Mac>, now: int)
    requires Enumerates(order, b.devices) && Sound(b)
    ensures var o := Apply(env, b, Sweep(now, order));
            && o.book == b.(devices := SweptTable(env, b.devices, now))
            && o.flushed == [] && o.rescorings == []
            && forall m :: Closings(o.effects, m) == Count(o.effects, WentOffline, m) == Departures(env, b, m, now)
  {
    hide Swept, SweepEffects, GoesOffline, Perform;
    var o := Apply(env, b, Sweep(now, order));
    forall m: Mac
      ensures m in b.devices ==> m in o.book.devices && o.book.devices[m] == Swept(env, b.devices[m], now)
      ensures Closings(o.effects, m) == Count(o.effects, WentOffline, m) == Departures(env, b, m, now)
    {
      PartlySwept(env, b, order, now, m);
      PartlyCounted(env, b, order, now, m);
    }
    PartlySwept(env, b, order, now, 0);
    assert o.book.devices == SweptTable(env, b.devices, now);
  }

  // ---------- several sweeps in a row ----------

  ghost predicate AllSweeps(steps: seq<Step>) {
    && (forall s :: s in steps ==> s.Sweep?)
    && (forall i, j :: 0 <= i < j < |steps| && steps[i].Sweep? && steps[j].Sweep? ==> steps[i].now <= steps[j].now)
  }

  // The calls made one after another from some table.
  function Steps(env: Env, b: Book, steps: seq<Step>): Outcome {
    if steps == [] then Silent(b)
    else
      var before := Steps(env, b, steps[..|steps| - 1]);
      before.Then(Apply(env, before.book, steps[|steps| - 1]))
  }

  ghost predicate FeasibleFrom(env: Env, b: Book, steps: seq<Step>) {
    steps == []
    || (FeasibleFrom(env, b, steps[..|steps| - 1])
        && Feasible(Steps(env, b, steps[..|steps| - 1]).book, steps[|steps| - 1]))
  }

  lemma SweptTableTwice(env: Env, b: Book, first: int, last: int, m: Mac)
    requires first <= last
    ensures var mid := b.(devices := SweptTable(env, b.devices, first));
            && SweptTable(env, mid.devices, last) == SweptTable(env, b.devices, last)
            && Departures(env, b, m, first) + Departures(env, mid, m, last) == Departures(env, b, m, last)
  {
    hide Swept, GoesOffline;
    var mid := SweptTable(env, b.devices, first);
    forall n | n in b.devices
      ensures SweptTable(env, mid, last)[n] == SweptTable(env, b.devices, last)[n]
    {
      SweptTwice(env, b.devices[n], first, last);
    }
    assert SweptTable(env, mid, last).Keys == SweptTable(env, b.devices, last).Keys;
    if m in b.devices {
      SweptTwice(env, b.devices[m], first, last);
    }
  }

  lemma {:induction false} SweepsConfluent(env: Env, b: Book, steps: seq<Step>)
    requires steps != [] && AllSweeps(steps) && FeasibleFrom(env, b, steps) && Sound(b)
    ensures var o := Steps(env, b, steps);
            var now := steps[|steps| - 1].now;
            && o.book == b.(devices := SweptTable(env, b.devices, now))
            && Sound(o.book)
            && o.flushed == [] && o.rescorings == []
            && forall m :: Closings(o.effects, m) == Count(o.effects, WentOffline, m) == Departures(env, b, m, now)
  {
    hide Swept, GoesOffline, Apply, Departures;
    var most, last := steps[..|steps| - 1], steps[|steps| - 1];
    assert last in steps;
    var before := Steps(env, b, most);
    if most != [] {
      forall s | s in most
        ensures s.Sweep?
      {
        assert s in steps;
      }
      SweepsConfluent(env, b, most);
    }
    SweepIs(env, before.book, last.order, last.now);
    ApplySound(env, before.book, last);
    var o := Steps(env, b, steps);
    var final := Apply(env, before.book, last);
    forall m: Mac
      ensures o.book.devices == SweptTable(env, b.devices, last.now)
      ensures Closings(o.effects, m) == Count(o.effects, WentOffline, m) == Departures(env, b, m, last.now)
    {
      if most != [] {
        SweptTableTwice(env, b, most[|most| - 1].now, last.now, m);
      }
      ClosingsAppend(before.effects, final.effects, m);
      CountAppend(before.effects, final.effects, WentOffline, m);
    }
    assert o.book.devices == SweptTable(env, b.devices, last.now) by {
      if most != [] {
        SweptTableTwice(env, b, most[|most| - 1].now, last.now, 0);
      }
    }
  }

  lemma ApplySound(env: Env, b: Book, step: Step)
    requires Sound(b)
    ensures Sound(Apply(env, b, step).book)
  {
    hide Plan, PerformAll;
    PerformAllSound(env, b, Plan(env, b, step));
  }

  // Any sweeps in a row, in time order, come to what the last of them alone
  // comes to: the same table, and for each device the same number of closed
  // sessions and offline events, at most one.
  lemma OnlyTheLastSweepMatters(env: Env, b: Book, steps: seq<Step>, order: seq<Mac>)
    requires steps != [] && AllSweeps(steps) && FeasibleFrom(env, b, steps) && Sound(b)
    requires Enumerates(order, b.devices)
    ensures var o := Steps(env, b, steps);
            var alone := Apply(env, b, Sweep(steps[|steps| - 1].now, order));
            && o.book == alone.book
            && forall m :: && Closings(o.effects, m) == Closings(alone.effects, m) <= 1
                           && Count(o.effects, WentOffline, m) == Count(alone.effects, WentOffline, m) <= 1
  {
    hide Swept, GoesOffline, Apply, SweptTable, Closings, Count, Steps;
    SweepsConfluent(env, b, steps);
    SweepIs(env, b, order, steps[|steps| - 1].now);
  }
}
