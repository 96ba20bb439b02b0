/**
 The write-back cache: what has been flushed is what the table holds for every
 clean device, and no observation is counted twice or lost.
 */
module DeviceWriteback {
  import opened Options
  import opened Types
  import opened Identities
  import opened DeviceTable
  import opened DeviceTableFacts
  import opened DeviceSessions
  import opened Persistence

  // The latest snapshot of each device.
  function Overlay(flushed: seq<DeviceSnapshot>): map<Mac, DeviceSnapshot> {
    if flushed == [] then map[]
    else
      var last := flushed[|flushed| - 1];
      Overlay(flushed[..|flushed| - 1])[last.mac := last]
  }

  // The columns the daemon owns: all but the user's name for the device, and
  // leaving aside the counter, which a flush empties.
  function DaemonOwned(s: DeviceSnapshot): DeviceSnapshot {
    s.(displayName := None, observationsSinceFlush := 0)
  }

  ghost predicate CleanIsFlushed(b: Book, flushed: seq<DeviceSnapshot>) {
    forall m :: m in b.devices && !b.devices[m].dirty ==>
      && m in Overlay(flushed)
      && DaemonOwned(Overlay(flushed)[m]) == DaemonOwned(b.devices[m].Snapshot())
  }

  // An operation that changes what would be written marks the device.
  lemma ChangeMarks(env: Env, b: Book, op: Op, m: Mac)
    requires Sound(b) && !op.Write?
    ensures var o := Perform(env, b, op);
            && o.flushed == []
            && (m in o.book.devices && !o.book.devices[m].dirty ==>
                  && m in b.devices && !b.devices[m].dirty
                  && DaemonOwned(o.book.devices[m].Snapshot()) == DaemonOwned(b.devices[m].Snapshot()))
  {
    hide Resolve, Consider, Merged, Changes, HearingEffects, NameEffects, DiscoveryEffects, SweepEffects, BestOf,
         IsRecordable, IsLinkLocal, IsBlank, NonBlank, EventFor;
  }

  lemma OverlayAppend(flushed: seq<DeviceSnapshot>, last: DeviceSnapshot)
    ensures Overlay(flushed + [last]) == Overlay(flushed)[last.mac := last]
  {
    assert (flushed + [last])[..|flushed|] == flushed;
  }

  lemma PerformFlushes(env: Env, b: Book, op: Op, flushed: seq<DeviceSnapshot>)
    requires Sound(b) && CleanIsFlushed(b, flushed)
    ensures var o := Perform(env, b, op);
            CleanIsFlushed(o.book, flushed + o.flushed)
  {
    hide PerformHear, PerformLearn, PerformDiscover, PerformCheck, PerformPlace, BestOf;
    var o := Perform(env, b, op);
    if op.Write? {
      if o.flushed != [] { OverlayAppend(flushed, o.flushed[0]); } else { assert flushed + [] == flushed; }
    } else {
      forall m: Mac
        ensures m in o.book.devices && !o.book.devices[m].dirty ==>
                  && m in b.devices && !b.devices[m].dirty
                  && DaemonOwned(o.book.devices[m].Snapshot()) == DaemonOwned(b.devices[m].Snapshot())
        ensures o.flushed == []
      {
        ChangeMarks(env, b, op, m);
      }
      ChangeMarks(env, b, op, 0);
      assert flushed + [] == flushed;
    }
  }

  lemma {:induction false} PerformAllFlushes(env: Env, b: Book, ops: seq<Op>, flushed: seq<DeviceSnapshot>)
    requires Sound(b) && CleanIsFlushed(b, flushed)
    ensures var o := PerformAll(env, b, ops);
            CleanIsFlushed(o.book, flushed + o.flushed)
  {
    hide Perform, CleanIsFlushed;
    if ops == [] {
      assert flushed + [] == flushed;
    } else {
      var most := ops[..|ops| - 1];
      PerformAllFlushes(env, b, most, flushed);
      PerformAllSound(env, b, most);
      var before := PerformAll(env, b, most);
      var last := Perform(env, before.book, ops[|ops| - 1]);
      PerformFlushes(env, before.book, ops[|ops| - 1], flushed + before.flushed);
      assert (flushed + before.flushed) + last.flushed == flushed + (before.flushed + last.flushed);
    }
  }

  // At every point of every run, laying all flushed snapshots over one another
  // gives the current row of every clean device.
  lemma {:induction false} CleanRowsAreCurrent(env: Env, learning: bool, steps: seq<Step>)
    ensures var o := Run(env, learning, steps);
            CleanIsFlushed(o.book, o.flushed)
  {
    hide Plan, PerformAll;
    if steps != [] {
      var most := steps[..|steps| - 1];
      CleanRowsAreCurrent(env, learning, most);
      RunSound(env, learning, most);
      var before := Run(env, learning, most);
      PerformAllFlushes(env, before.book, Plan(env, before.book, steps[|steps| - 1]), before.flushed);
    }
  }

  // ---------- a take leaves nothing dirty ----------

  function Writes(order: seq<Mac>): seq<Op> {
    seq(|order|, i requires 0 <= i < |order| => Write(order[i]))
  }

  lemma {:induction false} WritesClean(env: Env, b: Book, order: seq<Mac>, m: Mac)
    ensures var o := PerformAll(env, b, Writes(order));
            && o.book.devices.Keys == b.devices.Keys
            && (m in b.devices && (m in order || !b.devices[m].dirty) ==> !o.book.devices[m].dirty)
  {
    hide PerformHear, PerformLearn, PerformDiscover, PerformCheck, PerformPlace, BestOf;
    if order != [] {
      var most, last := order[..|order| - 1], order[|order| - 1];
      assert order == most + [last];
      WritesClean(env, b, most, m);
      var ops := Writes(order);
      assert ops[..|ops| - 1] == Writes(most);
    }
  }

  // Right after a take the overlay is the whole table.
  lemma TakeFlushesEverything(env: Env, learning: bool, steps: seq<Step>, order: seq<Mac>)
    requires Enumerates(order, Run(env, learning, steps).book.devices)
    ensures var o := Run(env, learning, steps + [TakeDirty(order)]);
            forall m :: m in o.book.devices ==>
              && m in Overlay(o.flushed)
              && DaemonOwned(Overlay(o.flushed)[m]) == DaemonOwned(o.book.devices[m].Snapshot())
  {
    hide PerformAll, Perform, BestOf;
    var all := steps + [TakeDirty(order)];
    assert all[..|all| - 1] == steps;
    CleanRowsAreCurrent(env, learning, all);
    var b := Run(env, learning, steps).book;
    var o := Run(env, learning, all);
    forall m | m in o.book.devices
      ensures !o.book.devices[m].dirty
    {
      WritesClean(env, b, order, m);
    }
  }

  // ---------- counting observations ----------

  function Flushed(flushed: seq<DeviceSnapshot>, m: Mac): nat {
    if flushed == [] then 0
    else
      Flushed(flushed[..|flushed| - 1], m)
      + (if flushed[|flushed| - 1].mac == m then flushed[|flushed| - 1].observationsSinceFlush else 0)
  }

  function Awaiting(b: Book, m: Mac): nat {
    if m in b.devices then b.devices[m].observationsSinceFlush else 0
  }

  // Frames accepted from a device.
  function Accepted(steps: seq<Step>, m: Mac): nat {
    if steps == [] then 0
    else
      var step := steps[|steps| - 1];
      Accepted(steps[..|steps| - 1], m) + (if step.Observe? && IsDevice(m) && step.obs.mac == m then 1 else 0)
  }

  lemma {:induction false} FlushedAppend(first: seq<DeviceSnapshot>, next: seq<DeviceSnapshot>, m: Mac)
    ensures Flushed(first + next, m) == Flushed(first, m) + Flushed(next, m)
  {
    if next == [] {
      assert first + next == first;
    } else {
      var all := first + next;
      assert all[..|all| - 1] == first + next[..|next| - 1];
      FlushedAppend(first, next[..|next| - 1], m);
    }
  }

  // Being heard from is counted once and changes nothing of the birth; being told
  // of changes neither.
  lemma HeardCounts(env: Env, e: Entry, obs: Observation, mine: seq<Signal>, at: int)
    ensures var after := Reclassified(env, Rescored(Heard(e, obs, mine), at), at);
            && after.observationsSinceFlush == e.observationsSinceFlush + 1
            && after.firstSeenAt == e.firstSeenAt && after.baseline == e.baseline
  {
    hide Resolve, Consider, Merged, IsRecordable, IsLinkLocal, NonBlank, BestOf;
  }

  lemma TaughtCounts(env: Env, e: Entry, signals: seq<Signal>, at: int)
    ensures var informed := e.(signals := signals, dirty := true);
            forall after :: after in {Reclassified(env, Rescored(informed, at), at), Reclassified(env, informed, at)} ==>
              && after.observationsSinceFlush == e.observationsSinceFlush
              && after.firstSeenAt == e.firstSeenAt && after.baseline == e.baseline
  {
    hide Resolve, Consider, BestOf;
  }

  lemma PerformCounts(env: Env, b: Book, op: Op, m: Mac)
    requires Sound(b)
    ensures var o := Perform(env, b, op);
            Flushed(o.flushed, m) + Awaiting(o.book, m)
            == Awaiting(b, m) + (if op.Hear? && op.obs.mac == m && m in b.devices then 1 else 0)
  {
    hide Heard, Rescored, Reclassified, Resolve, Merged, Changes, HearingEffects, NameEffects, DiscoveryEffects, SweepEffects,
         BestOf, IsBlank, EventFor, GoesOffline;
    var o := Perform(env, b, op);
    match op {
      case Hear(obs, mine, _, _) =>
        if obs.mac in b.devices { HeardCounts(env, b.devices[obs.mac], obs, mine, obs.observedAt); }
      case Learn(mac, signal, at) =>
        if mac in b.devices { TaughtCounts(env, b.devices[mac], Merged(b.devices[mac].signals, [signal]), at); }
      case Write(_) =>
        if o.flushed != [] { assert o.flushed[..0] == []; }
      case _ =>
    }
  }

  lemma {:induction false} QuietCounts(env: Env, b: Book, ops: seq<Op>, m: Mac)
    requires Sound(b) && forall op :: op in ops ==> !op.Hear?
    ensures var o := PerformAll(env, b, ops);
            Flushed(o.flushed, m) + Awaiting(o.book, m) == Awaiting(b, m)
  {
    hide Perform, Awaiting;
    if ops != [] {
      var most := ops[..|ops| - 1];
      QuietCounts(env, b, most, m);
      PerformAllSound(env, b, most);
      var before := PerformAll(env, b, most);
      PerformCounts(env, before.book, ops[|ops| - 1], m);
      FlushedAppend(before.flushed, Perform(env, before.book, ops[|ops| - 1]).flushed, m);
    }
  }

  lemma StepCounts(env: Env, b: Book, step: Step, m: Mac)
    requires Sound(b)
    ensures var o := Apply(env, b, step);
            Flushed(o.flushed, m) + Awaiting(o.book, m)
            == Awaiting(b, m) + (if step.Observe? && IsDevice(m) && step.obs.mac == m then 1 else 0)
  {
    hide Perform, Attribute, IsGroup, Arrival, Awaiting, IsRecordable, PerformAll;
    if step.Observe? && IsDevice(step.obs.mac) {
      var obs := step.obs;
      var arrival := PerformAll(env, b, Arrival(b, obs));
      var att := Attribute(arrival.book, obs);
      var hear := Hear(obs, att.mine, att.unattributed, obs.mac !in b.devices);
      var heard := Perform(env, arrival.book, hear);
      ThreeParts(env, b, obs);
      ArrivalKnows(env, b, obs);
      ArrivalQuiet(b, obs);
      QuietCounts(env, b, Arrival(b, obs), m);
      PerformAllSound(env, b, Arrival(b, obs));
      PerformCounts(env, arrival.book, hear, m);
      PerformSound(env, arrival.book, hear);
      var learned := PerformAll(env, heard.book, Learns(att.others, obs.observedAt));
      QuietCounts(env, heard.book, Learns(att.others, obs.observedAt), m);
      FlushedAppend(arrival.flushed, heard.flushed, m);
      FlushedAppend(arrival.flushed + heard.flushed, learned.flushed, m);
    } else {
      QuietCounts(env, b, Plan(env, b, step), m);
    }
  }

  lemma ArrivalQuiet(b: Book, obs: Observation)
    ensures forall op :: op in Arrival(b, obs) ==> !op.Hear?
  {}

  // Per device, the counters flushed plus the one waiting are the frames
  // accepted.
  lemma {:induction false} ObservationsConserved(env: Env, learning: bool, steps: seq<Step>, m: Mac)
    ensures var o := Run(env, learning, steps);
            Flushed(o.flushed, m) + Awaiting(o.book, m) == Accepted(steps, m)
  {
    hide Apply, Awaiting, IsDevice;
    if steps == [] {
      assert Awaiting(EmptyBook(learning), m) == 0 by { NobodyAwaits(learning, m); }
    } else {
      var most := steps[..|steps| - 1];
      ObservationsConserved(env, learning, most, m);
      RunSound(env, learning, most);
      var before := Run(env, learning, most);
      StepCounts(env, before.book, steps[|steps| - 1], m);
      FlushedAppend(before.flushed, Apply(env, before.book, steps[|steps| - 1]).flushed, m);
    }
  }

  lemma NobodyAwaits(learning: bool, m: Mac)
    ensures Awaiting(EmptyBook(learning), m) == 0
  {}

  // ---------- the rows in the database ----------

  // The row shows what was flushed: the update would change nothing.
  predicate Shows(row: DeviceRow, x: DeviceSnapshot) {
    row == UpdatedRow(row, x)
  }

  // Every device with an id has its row, showing the latest flush there was.
  ghost predicate RowsAre(s: Store, latest: map<Mac, DeviceSnapshot>) {
    && (forall m :: m in s.ids ==> s.ids[m] in s.db.rows && s.db.rows[s.ids[m]].mac == m)
    && (forall m :: m in s.ids && m in latest && s.ids[m] in s.db.rows ==> Shows(s.db.rows[s.ids[m]], latest[m]))
    && (forall m :: m in latest ==> m in s.ids)
  }

  lemma EffectKeepsRows(s: Store, e: Effect, latest: map<Mac, DeviceSnapshot>)
    requires Tidy(s) && RowsAre(s, latest)
    requires e.Discovered? ==> e.snapshot.mac !in s.ids
    ensures RowsAre(ApplyEffect(s, e), latest)
  {
    hide OpenSessions, OpenStays, CloseSessions, CloseStays, Shows;
  }

  lemma DiscoveryIsNew(s: Store, e: Effect, t: Track)
    requires Mirrors(s, e.Device(), t) && Watch(t, e, e.Device()).Track?
    ensures e.Discovered? ==> e.snapshot.mac !in s.ids
  {}

  lemma {:induction false} EffectsKeepRows(s: Store, effects: seq<Effect>, latest: map<Mac, DeviceSnapshot>, tracks: Mac -> Track)
    requires Tidy(s) && RowsAre(s, latest)
    requires forall m: Mac :: Mirrors(s, m, tracks(m))
    requires forall m: Mac :: WatchAll(tracks(m), effects, m).Track?
    ensures RowsAre(ApplyEffects(s, effects), latest)
  {
    hide ApplyEffect, Tidy, RowsAre, Watch, Mirrors;
    StreamMirrored(s, effects, tracks);
    if effects != [] {
      var first, e := effects[..|effects| - 1], effects[|effects| - 1];
      forall m: Mac
        ensures WatchAll(tracks(m), first, m).Track?
      {
        BrokenStays(WatchAll(tracks(m), first, m), e, m);
      }
      StreamMirrored(s, first, tracks);
      EffectsKeepRows(s, first, latest, tracks);
      var d := e.Device();
      assert WatchAll(tracks(d), effects, d).Track?;
      DiscoveryIsNew(ApplyEffects(s, first), e, WatchAll(tracks(d), first, d));
      EffectKeepsRows(ApplyEffects(s, first), e, latest);
    }
  }

  lemma {:induction false} FlushWritesRows(s: Store, before: seq<DeviceSnapshot>, snapshots: seq<DeviceSnapshot>)
    requires Tidy(s) && RowsAre(s, Overlay(before))
    requires forall x :: x in snapshots ==> x.mac in s.ids
    ensures RowsAre(Flush(s, snapshots), Overlay(before + snapshots)) && Flush(s, snapshots).ids == s.ids
    ensures Tidy(Flush(s, snapshots))
  {
    hide RowsAre, Tidy, FlushOne, Overlay;
    if snapshots == [] {
      assert before + snapshots == before;
    } else {
      var most, last := snapshots[..|snapshots| - 1], snapshots[|snapshots| - 1];
      assert snapshots == most + [last];
      FlushWritesRows(s, before, most);
      OverlayAppend(before + most, last);
      assert before + snapshots == (before + most) + [last];
      assert last in snapshots;
      FlushOneWrites(Flush(s, most), Overlay(before + most), last);
      FlushOneTidy(Flush(s, most), last);
    }
  }

  lemma FlushOneWrites(s: Store, latest: map<Mac, DeviceSnapshot>, x: DeviceSnapshot)
    requires Tidy(s) && RowsAre(s, latest) && x.mac in s.ids
    ensures RowsAre(FlushOne(s, x), latest[x.mac := x]) && FlushOne(s, x).ids == s.ids
  {
    hide OpenSessions, OpenStays, BumpSessions;
  }

  lemma FlushOneTidy(s: Store, snapshot: DeviceSnapshot)
    requires Tidy(s)
    ensures Tidy(FlushOne(s, snapshot))
  {
    if snapshot.mac in s.ids {
      forall id: nat
        ensures OpenSessions(FlushOne(s, snapshot).db.presence, id) == OpenSessions(s.db.presence, id)
      {
        SessionsBumped(s.db.presence, s.ids[snapshot.mac], snapshot.observationsSinceFlush, id);
      }
    }
  }

  lemma {:induction false} FlushedAreKnown(env: Env, b: Book, ops: seq<Op>)
    requires Sound(b)
    ensures var o := PerformAll(env, b, ops);
            forall x :: x in o.flushed ==> x.mac in o.book.devices
  {
    hide Perform;
    if ops != [] {
      var most, op := ops[..|ops| - 1], ops[|ops| - 1];
      FlushedAreKnown(env, b, most);
      PerformAllSound(env, b, most);
      var before := PerformAll(env, b, most).book;
      FlushedIsKnown(env, before, op);
      forall m: Mac
        ensures m in before.devices ==> m in Perform(env, before, op).book.devices
      {
        Undisturbed(env, before, op, m);
      }
    }
  }

  lemma FlushedIsKnown(env: Env, b: Book, op: Op)
    requires Sound(b)
    ensures forall x :: x in Perform(env, b, op).flushed ==> x.mac in b.devices
  {
    hide PerformLearn, PerformHear, NewEntry, DiscoveryEffects, SweepEffects, Swept, BestOf, EventFor;
    if op.Learn? || op.Hear? { ChangeMarks(env, b, op, 0); }
  }

  // The database row of every device shows the latest snapshot flushed for it.
  lemma {:induction false} RowsAreLatestFlush(env: Env, learning: bool, steps: seq<Step>)
    ensures RowsAre(StoreAfter(env, learning, steps), Overlay(Run(env, learning, steps).flushed))
  {
    hide Apply, Plan, Run, ApplyEffect, FlushOne, Watch, RowsAre, Tidy, Mirrors, TrackOf;
    if steps == [] {
      RunNothing(env, learning);
      NoRows();
    } else {
      var last := |steps| - 1;
      var most := steps[..last];
      RowsAreLatestFlush(env, learning, most);
      TablesMirrorRun(env, learning, most);
      TablesMirrorRun(env, learning, steps);
      RunSound(env, learning, most);
      RunLast(env, learning, steps);
      var s := StoreAfter(env, learning, most);
      var before := Run(env, learning, most);
      var o := Apply(env, before.book, steps[last]);
      var tracks := (m: Mac) => TrackOf(before.book, m);
      forall m: Mac
        ensures WatchAll(tracks(m), o.effects, m).Track?
        ensures Mirrors(s, m, tracks(m))
      {
        ApplyWatched(env, before.book, steps[last], m);
        TrackIsWhole(o.book, m);
        assert Mirrors(s, m, TrackOf(before.book, m));
      }
      EffectsKeepRows(s, o.effects, Overlay(before.flushed), tracks);
      StreamMirrored(s, o.effects, tracks);
      var t := ApplyEffects(s, o.effects);
      forall x | x in o.flushed
        ensures x.mac in t.ids
      {
        ApplyFlushedKnown(env, before.book, steps[last], x);
        ApplyWatched(env, before.book, steps[last], x.mac);
        assert Mirrors(t, x.mac, WatchAll(tracks(x.mac), o.effects, x.mac));
        KnownHasId(t, o.book, x.mac);
      }
      FlushWritesRows(t, before.flushed, o.flushed);
    }
  }

  lemma NoRows()
    ensures RowsAre(EMPTY_STORE, Overlay([]))
  {}

  lemma TrackIsWhole(b: Book, m: Mac)
    ensures TrackOf(b, m).Track?
  {}

  lemma KnownHasId(s: Store, b: Book, m: Mac)
    requires Mirrors(s, m, TrackOf(b, m)) && m in b.devices
    ensures m in s.ids
  {}

  lemma ApplyFlushedKnown(env: Env, b: Book, step: Step, x: DeviceSnapshot)
    requires Sound(b) && x in Apply(env, b, step).flushed
    ensures x.mac in Apply(env, b, step).book.devices
  {
    hide Plan, PerformAll;
    FlushedAreKnown(env, b, Plan(env, b, step));
  }

  // ---------- the columns creation fixes ----------

  datatype Birth = Birth(firstSeenAt: int, baseline: bool)

  function BirthOf(e: Entry): Birth {
    Birth(e.firstSeenAt, e.baseline)
  }

  // Creation tells the birth, and nothing changes it.
  ghost predicate Births(b: Book, o: Outcome, m: Mac) {
    && (m in b.devices ==> m in o.book.devices && BirthOf(o.book.devices[m]) == BirthOf(b.devices[m]))
    && (forall e :: e in o.effects && e.Discovered? && e.snapshot.mac == m ==>
          && m !in b.devices && m in o.book.devices
          && BirthOf(o.book.devices[m]) == Birth(e.snapshot.firstSeenAt, e.snapshot.baseline))
  }

  lemma PerformBirths(env: Env, b: Book, op: Op, m: Mac)
    requires Sound(b)
    ensures Births(b, Perform(env, b, op), m)
  {
    hide Heard, Rescored, Reclassified, Resolve, Merged, Changes, HearingEffects, DiscoveryEffects, SweepEffects, NameEffects,
         BestOf, IsBlank, GoesOffline, Ipv4Of;
    match op {
      case Discover(obs) => DiscoveryCreatesOne(NewEntry(env, obs, b.learning), obs, b.learning);
      case Hear(obs, mine, _, first) =>
        if obs.mac in b.devices {
          HearingCreatesNobody(b.devices[obs.mac], obs, mine, b.learning, first);
          HeardCounts(env, b.devices[obs.mac], obs, mine, obs.observedAt);
        }
      case Learn(mac, signal, at) =>
        LearningCreatesNobody(env, b, mac, signal, at);
        if mac in b.devices { TaughtCounts(env, b.devices[mac], Merged(b.devices[mac].signals, [signal]), at); }
      case Check(mac, now) => if mac in b.devices { SweepingCreatesNobody(env, b.devices[mac], now, b.learning); }
      case _ =>
    }
  }

  lemma DiscoveryCreatesOne(d: Entry, obs: Observation, learning: bool)
    ensures forall e :: e in DiscoveryEffects(d, obs, learning) && e.Discovered? ==> e.snapshot == d.Snapshot()
  {
    hide BestOf, IsBlank, Ipv4Of;
  }

  lemma LearningCreatesNobody(env: Env, b: Book, mac: Mac, signal: Signal, at: int)
    ensures forall e :: e in PerformLearn(env, b, mac, signal, at).effects ==> !e.Discovered?
  {
    hide BestOf, IsBlank, Resolve, Consider, Merged, Changes;
  }

  lemma SweepingCreatesNobody(env: Env, d: Entry, now: int, learning: bool)
    ensures forall e :: e in SweepEffects(env, d, now, learning) ==> !e.Discovered?
  {
    hide BestOf, IsBlank;
  }

  lemma HearingCreatesNobody(d: Entry, obs: Observation, mine: seq<Signal>, learning: bool, first: bool)
    ensures forall e :: e in HearingEffects(d, obs, mine, learning, first) ==> !e.Discovered?
  {
    hide BestOf, IsBlank, IsRecordable, IsLinkLocal, NonBlank, Ipv4Of, Resolve, Consider, Merged;
  }

  lemma {:induction false} PerformAllBirths(env: Env, b: Book, ops: seq<Op>, m: Mac)
    requires Sound(b)
    ensures Births(b, PerformAll(env, b, ops), m)
  {
    hide Perform;
    if ops != [] {
      var most := ops[..|ops| - 1];
      PerformAllBirths(env, b, most, m);
      PerformAllSound(env, b, most);
      PerformBirths(env, PerformAll(env, b, most).book, ops[|ops| - 1], m);
    }
  }

  // The device's row, if it has an id, tells this birth.
  ghost predicate BornIn(s: Store, m: Mac, t: Birth) {
    m in s.ids ==> s.ids[m] in s.db.rows && s.db.rows[s.ids[m]].firstSeenAt == t.firstSeenAt
                   && s.db.rows[s.ids[m]].baseline == t.baseline
  }

  lemma EffectBirth(s: Store, e: Effect, m: Mac, t: Birth)
    requires Tidy(s) && BornIn(s, m, t)
    requires e.Discovered? && e.snapshot.mac == m ==> Birth(e.snapshot.firstSeenAt, e.snapshot.baseline) == t
    ensures BornIn(ApplyEffect(s, e), m, t)
  {
    hide OpenSessions, OpenStays, CloseSessions, CloseStays;
  }

  lemma {:induction false} StreamBirths(s: Store, effects: seq<Effect>, tracks: Mac -> Track, m: Mac, t: Birth)
    requires Tidy(s) && BornIn(s, m, t) && forall n: Mac :: Mirrors(s, n, tracks(n))
    requires forall n: Mac :: WatchAll(tracks(n), effects, n).Track?
    requires forall e :: e in effects && e.Discovered? && e.snapshot.mac == m ==>
               Birth(e.snapshot.firstSeenAt, e.snapshot.baseline) == t
    ensures BornIn(ApplyEffects(s, effects), m, t)
  {
    hide ApplyEffect, Tidy, BornIn, Watch, Mirrors;
    if effects != [] {
      var first, e := effects[..|effects| - 1], effects[|effects| - 1];
      assert effects == first + [e];
      forall n: Mac
        ensures WatchAll(tracks(n), first, n).Track?
      {
        BrokenStays(WatchAll(tracks(n), first, n), e, n);
      }
      StreamMirrored(s, first, tracks);
      StreamBirths(s, first, tracks, m, t);
      EffectBirth(ApplyEffects(s, first), e, m, t);
    }
  }

  lemma {:induction false} FlushBirths(s: Store, snapshots: seq<DeviceSnapshot>, m: Mac, t: Birth)
    requires BornIn(s, m, t)
    ensures BornIn(Flush(s, snapshots), m, t)
  {
    hide BumpSessions;
    if snapshots != [] {
      FlushBirths(s, snapshots[..|snapshots| - 1], m, t);
    }
  }

  // On every run a device's row tells when it was first seen and whether that
  // was while learning, as the table does.
  lemma {:induction false} RowsTellBirths(env: Env, learning: bool, steps: seq<Step>, m: Mac)
    requires m in Run(env, learning, steps).book.devices
    ensures BornIn(StoreAfter(env, learning, steps), m, BirthOf(Run(env, learning, steps).book.devices[m]))
  {
    hide Apply, Plan, Run, Tidy, Mirrors, Watch, TrackOf;
    RunNothing(env, learning);
    var last := |steps| - 1;
    if steps != [] {
      var most := steps[..last];
      RunLast(env, learning, steps);
      RunSound(env, learning, most);
      TablesMirrorRun(env, learning, most);
      var s, b := StoreAfter(env, learning, most), Run(env, learning, most).book;
      var o := Apply(env, b, steps[last]);
      var t := BirthOf(o.book.devices[m]);
      ApplyBirths(env, b, steps[last], m);
      var tracks := (n: Mac) => TrackOf(b, n);
      forall n: Mac
        ensures WatchAll(tracks(n), o.effects, n).Track?
        ensures Mirrors(s, n, tracks(n))
      {
        ApplyWatched(env, b, steps[last], n);
        TrackIsWhole(o.book, n);
        assert Mirrors(s, n, TrackOf(b, n));
      }
      if m in b.devices {
        RowsTellBirths(env, learning, most, m);
      } else {
        UnknownUnborn(s, b, m, t);
      }
      StreamBirths(s, o.effects, tracks, m, t);
      FlushBirths(ApplyEffects(s, o.effects), o.flushed, m, t);
    }
  }

  lemma ApplyBirths(env: Env, b: Book, step: Step, m: Mac)
    requires Sound(b)
    ensures Births(b, Apply(env, b, step), m)
  {
    hide Plan, PerformAll;
    PerformAllBirths(env, b, Plan(env, b, step), m);
  }

  lemma UnknownUnborn(s: Store, b: Book, m: Mac, t: Birth)
    requires Mirrors(s, m, TrackOf(b, m)) && m !in b.devices
    ensures BornIn(s, m, t)
  {}

  // A device's columns, each told from its entry.
  function ColumnsOf(e: Entry): DeviceRow {
    DeviceRow(
      e.mac, e.firstSeenAt, e.baseline, e.state, e.lastIp, e.lastIpv6, e.lastInterface, e.lastSeenAt,
      Some(e.identity.displayName), Some(e.identity.source), Some(e.identity.confidence),
      e.Best(ReverseDns), e.Best(MdnsName), e.Best(Vendor),
      e.classification.deviceType,
      if e.classification.deviceType.Some? then Some(e.classification.confidence) else None,
      e.classification.osFamily,
      e.currentAp, e.currentLocation)
  }

  // Put together: at every point of every run, the row in the database of every
  // device with nothing left to write is that device's current columns.
  lemma CleanDevicesArePersisted(env: Env, learning: bool, steps: seq<Step>, m: Mac)
    requires m in Run(env, learning, steps).book.devices && !Run(env, learning, steps).book.devices[m].dirty
    ensures var s := StoreAfter(env, learning, steps);
            && m in s.ids && s.ids[m] in s.db.rows
            && s.db.rows[s.ids[m]] == ColumnsOf(Run(env, learning, steps).book.devices[m])
  {
    hide Run, StoreAfter, Mirrors, Tidy, BestOf;
    CleanRowsAreCurrent(env, learning, steps);
    RowsAreLatestFlush(env, learning, steps);
    RowsTellBirths(env, learning, steps, m);
    RunSound(env, learning, steps);
  }
}
