/**
 The row of a device nothing has been flushed for yet: what its first frame put
 there, whatever it has done since.
 */
module DeviceRows {
  import opened Options
  import opened Types
  import opened Identities
  import opened DeviceTable
  import opened DeviceTableFacts
  import opened DeviceSessions
  import opened Persistence
  import opened DeviceEffects
  import Record = DeviceRecord
  import History = DeviceHistory
  import Writeback = DeviceWriteback

  ghost predicate RowIs(s: Store, m: Mac, row: DeviceRow) {
    m in s.ids && s.ids[m] in s.db.rows && s.db.rows[s.ids[m]] == row
  }

  // The columns a first frame fills: who, since when and whether while learning,
  // here, on what interface, and the vendor, if it is known by name.
  function FirstRow(env: Env, obs: Observation, learning: bool): DeviceRow {
    DeviceRow(obs.mac, obs.observedAt, learning, Online, None, None, Some(obs.interface), obs.observedAt,
              None, None, None, None, None, VendorShown(env, obs.mac), None, None, None, None, None)
  }

  ghost predicate NoneOf(effects: seq<Effect>, k: Kind, m: Mac) {
    forall e :: e in effects ==> !Is(e, k, m)
  }

  lemma {:induction false} OnlyEmpty(effects: seq<Effect>, k: Kind, m: Mac)
    requires Only(effects, k, m) == []
    ensures NoneOf(effects, k, m)
  {
    hide Is;
    if effects != [] {
      var first, last := effects[..|effects| - 1], effects[|effects| - 1];
      assert |Only(effects, k, m)| == |Only(first, k, m)| + if Is(last, k, m) then 1 else 0;
      hide Only;
      OnlyEmpty(first, k, m);
      forall e | e in effects
        ensures !Is(e, k, m)
      {
        if e != last { assert e in first; }
      }
    }
  }

  lemma EffectKeepsRow(s: Store, e: Effect, m: Mac, row: DeviceRow)
    requires Tidy(s) && !Is(e, Creating, m)
    ensures RowIs(s, m, row) ==> RowIs(ApplyEffect(s, e), m, row)
    ensures m !in s.ids ==> m !in ApplyEffect(s, e).ids
  {
    hide OpenSessions, OpenStays, CloseSessions, CloseStays, InsertedRow;
  }

  lemma {:induction false} StreamKeepsRow(s: Store, effects: seq<Effect>, tracks: Mac -> Track, m: Mac, row: DeviceRow)
    requires Tidy(s) && forall n: Mac :: Mirrors(s, n, tracks(n))
    requires forall n: Mac :: WatchAll(tracks(n), effects, n).Track?
    requires NoneOf(effects, Creating, m)
    ensures RowIs(s, m, row) ==> RowIs(ApplyEffects(s, effects), m, row)
    ensures m !in s.ids ==> m !in ApplyEffects(s, effects).ids
  {
    hide ApplyEffect, Tidy, RowIs, Watch, Mirrors, Is;
    if effects != [] {
      var first, e := effects[..|effects| - 1], effects[|effects| - 1];
      assert effects == first + [e];
      forall n: Mac
        ensures WatchAll(tracks(n), first, n).Track?
      {
        BrokenStays(WatchAll(tracks(n), first, n), e, n);
      }
      StreamMirrored(s, first, tracks);
      StreamKeepsRow(s, first, tracks, m, row);
      EffectKeepsRow(ApplyEffects(s, first), e, m, row);
    }
  }

  lemma CreationMakesRow(s: Store, x: DeviceSnapshot)
    requires Tidy(s) && x.mac !in s.ids
    ensures RowIs(ApplyEffect(s, Discovered(x)), x.mac, InsertedRow(x))
  {
    hide OpenSessions, OpenStays;
  }

  lemma {:induction false} StreamMakesRow(s: Store, effects: seq<Effect>, tracks: Mac -> Track, x: DeviceSnapshot)
    requires Tidy(s) && forall n: Mac :: Mirrors(s, n, tracks(n))
    requires forall n: Mac :: WatchAll(tracks(n), effects, n).Track?
    requires x.mac !in s.ids && Only(effects, Creating, x.mac) == [Discovered(x)]
    ensures RowIs(ApplyEffects(s, effects), x.mac, InsertedRow(x))
  {
    hide ApplyEffect, Tidy, RowIs, Watch, Mirrors, Is, InsertedRow;
    var first, e := effects[..|effects| - 1], effects[|effects| - 1];
    forall n: Mac
      ensures WatchAll(tracks(n), first, n).Track?
    {
      BrokenStays(WatchAll(tracks(n), first, n), e, n);
    }
    StreamMirrored(s, first, tracks);
    var mid := ApplyEffects(s, first);
    if Is(e, Creating, x.mac) {
      var created := Only(effects, Creating, x.mac);
      assert created == Only(first, Creating, x.mac) + [e] && created[|created| - 1] == e;
      assert e == Discovered(x) && Only(first, Creating, x.mac) == [];
      OnlyEmpty(first, Creating, x.mac);
      StreamKeepsRow(s, first, tracks, x.mac, InsertedRow(x));
      CreationMakesRow(mid, x);
    } else {
      StreamMakesRow(s, first, tracks, x);
      EffectKeepsRow(mid, e, x.mac, InsertedRow(x));
    }
  }

  lemma {:induction false} FlushKeepsRow(s: Store, snapshots: seq<DeviceSnapshot>, m: Mac, row: DeviceRow)
    requires Tidy(s) && RowIs(s, m, row) && forall x :: x in snapshots ==> x.mac != m
    ensures RowIs(Flush(s, snapshots), m, row) && Flush(s, snapshots).ids == s.ids
  {
    hide UpdatedRow, BumpSessions, OpenSessions, OpenStays;
    if snapshots != [] {
      var most, x := snapshots[..|snapshots| - 1], snapshots[|snapshots| - 1];
      assert x in snapshots;
      FlushKeepsRow(s, most, m, row);
    }
  }

  // Nothing flushed later is nothing flushed before.
  lemma {:induction false} OverlaidStays(first: seq<DeviceSnapshot>, next: seq<DeviceSnapshot>, m: Mac)
    requires m !in Writeback.Overlay(first + next)
    ensures m !in Writeback.Overlay(first)
    ensures forall x :: x in next ==> x.mac != m
  {
    if next == [] {
      assert first + next == first;
    } else {
      var most, x := next[..|next| - 1], next[|next| - 1];
      assert next == most + [x];
      assert first + next == (first + most) + [x];
      Writeback.OverlayAppend(first + most, x);
      OverlaidStays(first, most, m);
    }
  }

  lemma CreatedOnce(env: Env, b: Book, step: Step, m: Mac)
    requires Sound(b)
    ensures Only(Apply(env, b, step).effects, Creating, m)
         == if History.Heard(step, m) && m !in b.devices then [Discovered(FirstSnapshot(env, step.obs, b.learning))] else []
  {
    hide Apply, Only, FirstSnapshot, IsDevice, GoesOffline;
    CallDoes(env, b, step, Creating, m);
  }

  // The store and the effects about to be applied to it fit.
  ghost predicate Fit(s: Store, effects: seq<Effect>, tracks: Mac -> Track) {
    && Tidy(s)
    && (forall n: Mac :: Mirrors(s, n, tracks(n)))
    && (forall n: Mac :: WatchAll(tracks(n), effects, n).Track?)
  }

  lemma CallFits(env: Env, learning: bool, most: seq<Step>, step: Step) returns (tracks: Mac -> Track)
    ensures var s, b := StoreAfter(env, learning, most), Run(env, learning, most).book;
            Fit(s, Apply(env, b, step).effects, tracks) && Tidy(ApplyEffects(s, Apply(env, b, step).effects))
    ensures forall m: Mac :: m in StoreAfter(env, learning, most).ids <==> m in Run(env, learning, most).book.devices
  {
    hide Apply, Run, Tidy, Mirrors, Watch, TrackOf, StoreAfter;
    var s, b := StoreAfter(env, learning, most), Run(env, learning, most).book;
    var effects := Apply(env, b, step).effects;
    RunSound(env, learning, most);
    TablesMirrorRun(env, learning, most);
    tracks := (n: Mac) => TrackOf(b, n);
    forall n: Mac
      ensures WatchAll(tracks(n), effects, n).Track?
      ensures Mirrors(s, n, tracks(n))
      ensures n in s.ids <==> n in b.devices
    {
      ApplyWatched(env, b, step, n);
      Writeback.TrackIsWhole(Apply(env, b, step).book, n);
      assert Mirrors(s, n, TrackOf(b, n));
      KnownAlike(s, b, n);
    }
    StreamMirrored(s, effects, tracks);
  }

  lemma KnownAlike(s: Store, b: Book, m: Mac)
    requires Mirrors(s, m, TrackOf(b, m))
    ensures m in s.ids <==> m in b.devices
  {}

  lemma KeepsRow(env: Env, b: Book, s: Store, step: Step, tracks: Mac -> Track, m: Mac, row: DeviceRow)
    requires Sound(b) && m in b.devices && Fit(s, Apply(env, b, step).effects, tracks) && RowIs(s, m, row)
    ensures RowIs(ApplyEffects(s, Apply(env, b, step).effects), m, row)
  {
    hide Apply, Tidy, Mirrors, RowIs, Only;
    CreatedOnce(env, b, step, m);
    OnlyEmpty(Apply(env, b, step).effects, Creating, m);
    StreamKeepsRow(s, Apply(env, b, step).effects, tracks, m, row);
  }

  lemma MakesRow(env: Env, b: Book, s: Store, step: Step, tracks: Mac -> Track, m: Mac)
    requires Sound(b) && m !in b.devices && m !in s.ids && Fit(s, Apply(env, b, step).effects, tracks)
    requires History.Heard(step, m)
    ensures RowIs(ApplyEffects(s, Apply(env, b, step).effects), m, FirstRow(env, step.obs, b.learning))
  {
    hide Apply, Tidy, Mirrors, RowIs, Only, FirstRow, FirstSnapshot, InsertedRow;
    CreatedOnce(env, b, step, m);
    FirstRowIs(env, step, b.learning, m);
    StreamMakesRow(s, Apply(env, b, step).effects, tracks, FirstSnapshot(env, step.obs, b.learning));
  }

  // Until something is flushed for it, a device's row is what its first frame put
  // there.
  lemma {:induction false} UnflushedRows(env: Env, learning: bool, steps: seq<Step>, k: int, m: Mac)
    requires Record.FirstFrame(steps, k, m) && m !in Writeback.Overlay(Run(env, learning, steps).flushed)
    ensures RowIs(StoreAfter(env, learning, steps), m, FirstRow(env, steps[k].obs, learning && EndLearning !in steps[..k]))
  {
    hide Apply, Run, Tidy, Fit, RowIs, FirstRow, Writeback.Overlay;
    var last := |steps| - 1;
    var most := steps[..last];
    var s, before := StoreAfter(env, learning, most), Run(env, learning, most);
    var o := Apply(env, before.book, steps[last]);
    RunLast(env, learning, steps);
    RunSound(env, learning, most);
    var tracks := CallFits(env, learning, most, steps[last]);
    OverlaidStays(before.flushed, o.flushed, m);
    HeardIsKnown(env, learning, most, m);
    var row := FirstRow(env, steps[k].obs, learning && EndLearning !in steps[..k]);
    assert forall i :: 0 <= i < last ==> most[i] == steps[i];
    if k < last {
      assert Record.FirstFrame(most, k, m) && most[..k] == steps[..k];
      UnflushedRows(env, learning, most, k, m);
      KeepsRow(env, before.book, s, steps[last], tracks, m, row);
    } else {
      Record.LearningIsHistory(env, learning, most);
      MakesRow(env, before.book, s, steps[last], tracks, m);
    }
    FlushKeepsRow(ApplyEffects(s, o.effects), o.flushed, m, row);
  }

  lemma HeardIsKnown(env: Env, learning: bool, steps: seq<Step>, m: Mac)
    ensures m in Run(env, learning, steps).book.devices <==> Record.HeardFrom(steps, m)
  {
    hide Run;
    Record.KnownIsHeard(env, learning, steps, m);
  }

  lemma FirstRowIs(env: Env, step: Step, learning: bool, m: Mac)
    requires History.Heard(step, m)
    ensures InsertedRow(FirstSnapshot(env, step.obs, learning)) == FirstRow(env, step.obs, learning)
    ensures FirstSnapshot(env, step.obs, learning).mac == m
  {
    hide Resolve, IsBlank;
  }
}
