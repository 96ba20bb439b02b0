/**
 Silence and places, told from the history of calls: when a device was last
 heard, when it leaves, and when it is on an access point.
 */
module DeviceHistory {
  import opened Options
  import opened Types
  import opened Identities
  import opened DeviceTable
  import opened DeviceTableFacts
  import opened DeviceSessions
  import opened DeviceNaming
  import opened DeviceSweeps
  import opened Persistence

  // ---------- one operation ----------

  // What an operation other than a sweep's check or a report of an access point
  // does to a device: it may be heard from, and come back, but does not leave.
  ghost predicate Kept(b: Book, c: Book, m: Mac) {
    && (m in b.devices ==>
          && m in c.devices
          && c.devices[m].currentAp == b.devices[m].currentAp
          && c.devices[m].currentLocation == b.devices[m].currentLocation
          && (b.devices[m].state != Offline ==> c.devices[m].state != Offline))
    && (m !in b.devices && m in c.devices ==>
          c.devices[m].currentAp == None && c.devices[m].currentLocation == None && c.devices[m].state != Offline)
  }

  // What a sweep's checks do: a device may leave, and gives up its access point
  // when it does.
  ghost predicate Checked(b: Book, c: Book, m: Mac) {
    && (m in b.devices <==> m in c.devices)
    && (m in b.devices ==>
          && c.devices[m].lastSeenAt == b.devices[m].lastSeenAt
          && c.devices[m].classification == b.devices[m].classification
          && (b.devices[m].state == Offline ==> c.devices[m] == b.devices[m])
          && c.devices[m].currentAp ==
               (if b.devices[m].state != Offline && c.devices[m].state == Offline then None else b.devices[m].currentAp)
          && c.devices[m].currentLocation ==
               if b.devices[m].state != Offline && c.devices[m].state == Offline && b.devices[m].currentAp.Some? then None
               else b.devices[m].currentLocation)
  }

  lemma PerformKept(env: Env, b: Book, op: Op, m: Mac)
    requires Sound(b) && !op.Check? && !op.Place?
    ensures Kept(b, Perform(env, b, op).book, m)
  {
    hide Resolve, Consider, Merged, Changes, HearingEffects, NameEffects, DiscoveryEffects, BestOf, IsRecordable,
         IsLinkLocal, IsBlank, NonBlank, EventFor;
  }

  lemma {:induction false} PerformAllKept(env: Env, b: Book, ops: seq<Op>, m: Mac)
    requires Sound(b) && forall op :: op in ops ==> !op.Check? && !op.Place?
    ensures Kept(b, PerformAll(env, b, ops).book, m)
  {
    hide Perform;
    if ops != [] {
      var most := ops[..|ops| - 1];
      PerformAllKept(env, b, most, m);
      PerformAllSound(env, b, most);
      PerformKept(env, PerformAll(env, b, most).book, ops[|ops| - 1], m);
    }
  }

  lemma CheckChecked(env: Env, b: Book, mac: Mac, now: int, m: Mac)
    ensures Checked(b, Perform(env, b, Check(mac, now)).book, m)
  {
    hide SweepEffects, GoesOffline;
  }

  lemma {:induction false} ChecksChecked(env: Env, b: Book, order: seq<Mac>, now: int, m: Mac)
    ensures Checked(b, PerformAll(env, b, Checks(order, now)).book, m)
  {
    hide Perform;
    if order != [] {
      var most := order[..|order| - 1];
      assert Checks(order, now)[..|order| - 1] == Checks(most, now);
      ChecksChecked(env, b, most, now, m);
      CheckChecked(env, PerformAll(env, b, Checks(most, now)).book, order[|order| - 1], now, m);
    }
  }

  // ---------- one call ----------

  // The device was there and not offline, and now is offline.
  ghost predicate Departs(b: Book, c: Book, m: Mac) {
    && m in b.devices && m in c.devices
    && b.devices[m].state != Offline
    && c.devices[m].state == Offline
  }

  predicate Reports(step: Step, m: Mac) {
    step.SetLocation? && step.mac == m
  }

  // An access point comes from a report and goes with a departure.
  ghost predicate Moved(b: Book, c: Book, step: Step, m: Mac) {
    && (m in b.devices ==>
          && m in c.devices
          && c.devices[m].currentAp == (if Reports(step, m) then Some(step.ap)
                                        else if Departs(b, c, m) then None
                                        else b.devices[m].currentAp)
          && c.devices[m].currentLocation == (if Reports(step, m) && b.devices[m].currentAp != Some(step.ap) then Some(step.location)
                                              else if Departs(b, c, m) && b.devices[m].currentAp.Some? then None
                                              else b.devices[m].currentLocation)
          && (Reports(step, m) ==> c.devices[m].state == b.devices[m].state))
    && (m !in b.devices && m in c.devices ==>
          c.devices[m].currentAp == None && c.devices[m].currentLocation == None && c.devices[m].state != Offline)
  }

  lemma StepMoves(env: Env, b: Book, step: Step, m: Mac)
    requires Sound(b)
    ensures Moved(b, Apply(env, b, step).book, step, m)
  {
    match step {
      case Sweep(now, order) =>
        hide Perform, PerformAll;
        assert Plan(env, b, step) == Checks(order, now);
        ChecksChecked(env, b, order, now, m);
      case SetLocation(mac, ap, location, at) =>
        hide EventFor, IsBlank, PerformAll;
        PerformOne(env, b, Place(mac, ap, location, at));
      case _ =>
        hide Perform, PerformAll, Attribute, IsGroup, IsRecordable;
        PerformAllKept(env, b, Plan(env, b, step), m);
    }
  }

  // ---------- access points over a run ----------

  ghost predicate PlacedAt(env: Env, learning: bool, steps: seq<Step>, k: int, m: Mac) {
    0 <= k < |steps| && Reports(steps[k], m) && m in Run(env, learning, steps[..k]).book.devices
  }

  ghost predicate DepartedAt(env: Env, learning: bool, steps: seq<Step>, k: int, m: Mac) {
    0 <= k < |steps| && Departs(Run(env, learning, steps[..k]).book, Run(env, learning, steps[..k + 1]).book, m)
  }

  lemma StepAt(env: Env, learning: bool, steps: seq<Step>, k: nat, m: Mac)
    requires k < |steps|
    ensures Moved(Run(env, learning, steps[..k]).book, Run(env, learning, steps[..k + 1]).book, steps[k], m)
  {
    hide Moved, Apply, Run;
    RunLast(env, learning, steps[..k + 1]);
    assert steps[..k + 1][..k] == steps[..k] && steps[..k + 1][k] == steps[k];
    RunSound(env, learning, steps[..k]);
    StepMoves(env, Run(env, learning, steps[..k]).book, steps[k], m);
  }

  // The report stands at call `n`: nothing since has moved the device or taken
  // it away.
  ghost predicate Standing(env: Env, learning: bool, steps: seq<Step>, n: nat, k: int, m: Mac) {
    && 0 <= k < n <= |steps|
    && PlacedAt(env, learning, steps, k, m)
    && forall j :: k < j < n ==> !PlacedAt(env, learning, steps, j, m) && !DepartedAt(env, learning, steps, j, m)
  }

  // The index of the standing report, if there is one, is what the access point
  // comes from.
  lemma {:induction false} StandingReport(env: Env, learning: bool, steps: seq<Step>, n: nat, m: Mac) returns (k: int)
    requires n <= |steps|
    ensures var b := Run(env, learning, steps[..n]).book;
            && (m !in b.devices ==> forall j :: 0 <= j < n ==> !PlacedAt(env, learning, steps, j, m))
            && (m in b.devices && b.devices[m].currentAp.Some? ==>
                  && Standing(env, learning, steps, n, k, m)
                  && b.devices[m].currentAp == Some(steps[k].ap))
            && (m in b.devices && b.devices[m].currentAp.None? ==>
                  forall j :: 0 <= j < n && PlacedAt(env, learning, steps, j, m) ==>
                    exists d :: j < d < n && DepartedAt(env, learning, steps, d, m))
  {
    hide Run;
    k := -1;
    if n == 0 {
      RunNothing(env, learning);
      assert steps[..0] == [];
    } else {
      k := StandingReport(env, learning, steps, n - 1, m);
      StepAt(env, learning, steps, n - 1, m);
      var b, c := Run(env, learning, steps[..n - 1]).book, Run(env, learning, steps[..n]).book;
      assert PlacedAt(env, learning, steps, n - 1, m) <==> Reports(steps[n - 1], m) && m in b.devices;
      assert DepartedAt(env, learning, steps, n - 1, m) <==> Departs(b, c, m);
      if PlacedAt(env, learning, steps, n - 1, m) {
        k := n - 1;
      }
    }
  }

  // A device is on an access point exactly when the last report about it, made
  // while it was known, named that access point and it has not left since.
  lemma AccessPointIsHistory(env: Env, learning: bool, steps: seq<Step>, m: Mac, ap: string)
    requires m in Run(env, learning, steps).book.devices
    ensures Run(env, learning, steps).book.devices[m].currentAp == Some(ap) <==>
            exists k :: Standing(env, learning, steps, |steps|, k, m) && steps[k].ap == ap
  {
    hide Run, DepartedAt;
    assert steps[..|steps|] == steps;
    var k := StandingReport(env, learning, steps, |steps|, m);
    if i :| Standing(env, learning, steps, |steps|, i, m) && steps[i].ap == ap {
      if Run(env, learning, steps).book.devices[m].currentAp.Some? {
        OneStands(env, learning, steps, |steps|, i, k, m);
      }
    }
  }

  // The report that brought the device to its access point: it was on another, or
  // on none.
  ghost predicate BroughtAt(env: Env, learning: bool, steps: seq<Step>, k: int, m: Mac) {
    && PlacedAt(env, learning, steps, k, m)
    && Run(env, learning, steps[..k]).book.devices[m].currentAp != Some(steps[k].ap)
  }

  ghost predicate LastBrought(env: Env, learning: bool, steps: seq<Step>, n: nat, k: int, m: Mac) {
    && 0 <= k < n <= |steps|
    && BroughtAt(env, learning, steps, k, m)
    && forall j :: k < j < n ==> !BroughtAt(env, learning, steps, j, m) && !DepartedAt(env, learning, steps, j, m)
  }

  // Access point and location are those of the last report that brought the
  // device anywhere, if it has not left since; a later report of the same access
  // point does not change the location.
  lemma {:induction false} PlaceIsWhereBrought(env: Env, learning: bool, steps: seq<Step>, n: nat, m: Mac) returns (k: int)
    requires n <= |steps| && m in Run(env, learning, steps[..n]).book.devices
    ensures var e := Run(env, learning, steps[..n]).book.devices[m];
            && (e.currentAp.Some? ==>
                  && LastBrought(env, learning, steps, n, k, m)
                  && e.currentAp == Some(steps[k].ap) && e.currentLocation == Some(steps[k].location))
            && (e.currentAp.None? ==> e.currentLocation.None?)
  {
    hide Run;
    k := -1;
    RunNothing(env, learning);
    assert steps[..0] == [];
    StepAt(env, learning, steps, n - 1, m);
    var b, c := Run(env, learning, steps[..n - 1]).book, Run(env, learning, steps[..n]).book;
    assert DepartedAt(env, learning, steps, n - 1, m) <==> Departs(b, c, m);
    if m in b.devices {
      k := PlaceIsWhereBrought(env, learning, steps, n - 1, m);
      if Reports(steps[n - 1], m) && b.devices[m].currentAp != Some(steps[n - 1].ap) {
        assert BroughtAt(env, learning, steps, n - 1, m);
        k := n - 1;
      }
    }
  }

  lemma OneStands(env: Env, learning: bool, steps: seq<Step>, n: nat, i: int, k: int, m: Mac)
    requires Standing(env, learning, steps, n, i, m) && Standing(env, learning, steps, n, k, m)
    ensures i == k
  {
    hide PlacedAt, DepartedAt;
  }

  // Offline means having left at some call, with nothing but comings and goings
  // before it: the last departure.
  lemma {:induction false} LastDeparture(env: Env, learning: bool, steps: seq<Step>, n: nat, m: Mac) returns (d: int)
    requires n <= |steps|
    requires m in Run(env, learning, steps[..n]).book.devices
    requires Run(env, learning, steps[..n]).book.devices[m].state == Offline
    ensures 0 <= d < n && DepartedAt(env, learning, steps, d, m)
    ensures forall j :: d < j < n ==> !DepartedAt(env, learning, steps, j, m)
  {
    hide Run;
    RunNothing(env, learning);
    assert steps[..0] == [];
    StepAt(env, learning, steps, n - 1, m);
    if DepartedAt(env, learning, steps, n - 1, m) {
      d := n - 1;
    } else {
      d := LastDeparture(env, learning, steps, n - 1, m);
    }
  }

  // Going offline gives up the access point, so an offline device is on one
  // exactly when it was reported on one after it last left.
  lemma OfflineOnAccessPoint(env: Env, learning: bool, steps: seq<Step>, m: Mac)
    requires m in Run(env, learning, steps).book.devices
    requires Run(env, learning, steps).book.devices[m].state == Offline
    ensures Run(env, learning, steps).book.devices[m].currentAp.Some? <==>
            exists d, k :: && 0 <= d < k < |steps|
                           && DepartedAt(env, learning, steps, d, m) && PlacedAt(env, learning, steps, k, m)
                           && forall j :: d < j < |steps| ==> !DepartedAt(env, learning, steps, j, m)
  {
    hide Run;
    assert steps[..|steps|] == steps;
    var k := StandingReport(env, learning, steps, |steps|, m);
    var d := LastDeparture(env, learning, steps, |steps|, m);
    if Run(env, learning, steps).book.devices[m].currentAp.Some? {
      StepAt(env, learning, steps, k, m);
      assert d < k;
    }
  }

  // ---------- when a device was last heard ----------

  predicate Heard(step: Step, m: Mac) {
    step.Observe? && IsDevice(m) && step.obs.mac == m
  }

  // The latest time on an accepted frame of a device, whatever their order.
  function LastHeard(steps: seq<Step>, m: Mac): Option<int> {
    if steps == [] then None
    else
      var before := LastHeard(steps[..|steps| - 1], m);
      var step := steps[|steps| - 1];
      if !Heard(step, m) then before
      else if before.Some? && before.value >= step.obs.observedAt then before
      else Some(step.obs.observedAt)
  }

  lemma {:induction false} LastHeardIsLatest(steps: seq<Step>, m: Mac)
    ensures var t := LastHeard(steps, m);
            && (t.Some? ==> exists k :: 0 <= k < |steps| && Heard(steps[k], m) && steps[k].obs.observedAt == t.value)
            && (forall k :: 0 <= k < |steps| && Heard(steps[k], m) ==> t.Some? && steps[k].obs.observedAt <= t.value)
  {
    if steps != [] {
      LastHeardIsLatest(steps[..|steps| - 1], m);
      assert Heard(steps[|steps| - 1], m) || !Heard(steps[|steps| - 1], m);
    }
  }

  // When the table says a device was last seen.
  function Seen(b: Book, m: Mac): Option<int> {
    if m in b.devices then Some(b.devices[m].lastSeenAt) else None
  }

  lemma PerformSeen(env: Env, b: Book, op: Op, m: Mac)
    requires Sound(b) && !op.Discover?
    ensures Seen(Perform(env, b, op).book, m)
         == if m in b.devices && op.Hear? && op.obs.mac == m && op.obs.observedAt > b.devices[m].lastSeenAt
            then Some(op.obs.observedAt) else Seen(b, m)
  {
    hide Resolve, Consider, Merged, Changes, HearingEffects, NameEffects, DiscoveryEffects, BestOf, IsRecordable,
         IsLinkLocal, IsBlank, NonBlank, EventFor, SweepEffects, GoesOffline;
  }

  lemma {:induction false} QuietSeen(env: Env, b: Book, ops: seq<Op>, m: Mac)
    requires Sound(b) && forall op :: op in ops ==> !op.Discover? && !op.Hear?
    ensures Seen(PerformAll(env, b, ops).book, m) == Seen(b, m)
  {
    hide Perform, Seen;
    if ops != [] {
      var most := ops[..|ops| - 1];
      QuietSeen(env, b, most, m);
      PerformAllSound(env, b, most);
      PerformSeen(env, PerformAll(env, b, most).book, ops[|ops| - 1], m);
    }
  }

  lemma StepSeen(env: Env, b: Book, step: Step, m: Mac)
    requires Sound(b)
    ensures Seen(Apply(env, b, step).book, m)
         == if !Heard(step, m) then Seen(b, m)
            else if m in b.devices && b.devices[m].lastSeenAt >= step.obs.observedAt then Seen(b, m)
            else Some(step.obs.observedAt)
  {
    hide Perform, PerformAll, Attribute, IsGroup, Arrival, NewEntry, Seen;
    if step.Observe? && IsDevice(step.obs.mac) {
      var obs := step.obs;
      ThreeParts(env, b, obs);
      ArrivalKnows(env, b, obs);
      PerformAllSound(env, b, Arrival(b, obs));
      var mid := PerformAll(env, b, Arrival(b, obs)).book;
      ArrivalSeen(env, b, obs, mid, m);
      var att := Attribute(mid, obs);
      var hear := Hear(obs, att.mine, att.unattributed, obs.mac !in b.devices);
      PerformSeen(env, mid, hear, m);
      PerformSound(env, mid, hear);
      QuietSeen(env, Perform(env, mid, hear).book, Learns(att.others, obs.observedAt), m);
      SeenOf(mid, m);
      SeenOf(b, m);
    } else {
      QuietSeen(env, b, Plan(env, b, step), m);
    }
  }

  lemma ArrivalSeen(env: Env, b: Book, obs: Observation, mid: Book, m: Mac)
    requires mid.devices == if obs.mac in b.devices then b.devices else b.devices[obs.mac := NewEntry(env, obs, b.learning)]
    ensures Seen(mid, m) == if m in b.devices || m != obs.mac then Seen(b, m) else Some(obs.observedAt)
  {
    hide Resolve;
  }

  lemma SeenOf(b: Book, m: Mac)
    ensures Seen(b, m) == if m in b.devices then Some(b.devices[m].lastSeenAt) else None
  {}

  // On every run the time kept for a device is the latest on any frame accepted
  // from it, and a device is known exactly if there was one.
  lemma {:induction false} SeenIsLastHeard(env: Env, learning: bool, steps: seq<Step>, m: Mac)
    ensures Seen(Run(env, learning, steps).book, m) == LastHeard(steps, m)
  {
    hide Apply, Run, Heard;
    if steps == [] {
      RunNothing(env, learning);
    } else {
      var most := steps[..|steps| - 1];
      SeenIsLastHeard(env, learning, most, m);
      RunLast(env, learning, steps);
      RunSound(env, learning, most);
      StepSeen(env, Run(env, learning, most).book, steps[|steps| - 1], m);
    }
  }

  // ---------- leaving ----------

  // How long a device has been silent, going by its frames.
  function SilenceOf(steps: seq<Step>, m: Mac, now: int): nat {
    var t := LastHeard(steps, m);
    if t.Some? && now > t.value then now - t.value else 0
  }

  // At a sweep, exactly the devices leave that are not offline and whose latest
  // frame is their offline timeout or more in the past.
  lemma LeavesExactlyWhen(env: Env, learning: bool, steps: seq<Step>, now: int, order: seq<Mac>, m: Mac)
    requires Enumerates(order, Run(env, learning, steps).book.devices)
    ensures var b := Run(env, learning, steps).book;
            && Count(Apply(env, b, Sweep(now, order)).effects, WentOffline, m) <= 1
            && (Count(Apply(env, b, Sweep(now, order)).effects, WentOffline, m) == 1 <==>
                  && m in b.devices && b.devices[m].state != Offline
                  && SilenceOf(steps, m, now) >= env.config.OfflineFor(b.devices[m].classification.deviceType))
  {
    hide Run, Apply, Count;
    RunSound(env, learning, steps);
    SeenIsLastHeard(env, learning, steps, m);
    SweepIs(env, Run(env, learning, steps).book, order, now);
  }

  lemma PerformDepartures(env: Env, b: Book, op: Op, e: Effect, m: Mac)
    requires Sound(b) && e in Perform(env, b, op).effects && e.Announces(WentOffline, m)
    ensures op.Check? && op.mac == m && e.event.at == op.now
    ensures m in b.devices && GoesOffline(env, b.devices[m], op.now)
  {
    hide Resolve, Consider, Merged, Changes, BestOf, IsRecordable, IsLinkLocal, IsBlank, NonBlank, GoesOffline, Ipv4Of, Silence;
    match op {
      case Hear(obs, mine, _, first) => HearingIsNoDeparture(b.devices[obs.mac], obs, mine, b.learning, first, e, m);
      case _ =>
    }
  }

  lemma HearingIsNoDeparture(d: Entry, obs: Observation, mine: seq<Signal>, learning: bool, first: bool, e: Effect, m: Mac)
    requires e in HearingEffects(d, obs, mine, learning, first)
    ensures !e.Announces(WentOffline, m)
  {
    hide RevivalEffects, AddressEffects, NameEffects, DeviceTable.Heard, Rescored, NonBlank;
    var at := obs.observedAt;
    var touched, heard := Touched(d, at), DeviceTable.Heard(d, obs, mine);
    if !e.Evidence? {
      PartsAreNoDeparture(touched, Revived(touched), heard, Rescored(heard, at), obs, learning, first, e, m);
    }
  }

  lemma PartsAreNoDeparture(d: Entry, f: Entry, before: Entry, after: Entry, obs: Observation, learning: bool, quiet: bool,
                            e: Effect, m: Mac)
    requires e in RevivalEffects(d, obs, learning) || e in AddressEffects(f, obs, learning)
             || e in NameEffects(before, after, Some(obs.interface), obs.observedAt, learning, quiet)
    ensures !e.Announces(WentOffline, m)
  {
    hide BestOf, IsBlank, IsRecordable, Ipv4Of, Trim, Addressed;
  }

  lemma {:induction false} StepDepartures(env: Env, b: Book, ops: seq<Op>, e: Effect, m: Mac) returns (k: nat)
    requires Sound(b) && e in PerformAll(env, b, ops).effects && e.Announces(WentOffline, m)
    ensures k < |ops| && ops[k].Check? && ops[k].mac == m && e.event.at == ops[k].now
    ensures var c := PerformAll(env, b, ops[..k]).book;
            m in c.devices && GoesOffline(env, c.devices[m], ops[k].now)
  {
    hide Perform, GoesOffline;
    var most, op := ops[..|ops| - 1], ops[|ops| - 1];
    var before := PerformAll(env, b, most);
    if e in before.effects {
      k := StepDepartures(env, b, most, e, m);
      assert ops[..k] == most[..k];
    } else {
      PerformAllSound(env, b, most);
      PerformDepartures(env, before.book, op, e, m);
      k := |ops| - 1;
    }
  }

  // The call that announced it: a sweep at that time, after a silence of at
  // least the offline timeout the device had then.
  ghost predicate LeftAt(env: Env, learning: bool, steps: seq<Step>, k: nat, e: Effect, m: Mac) {
    && k < |steps| && steps[k].Sweep? && e.Event? && e.event.at == steps[k].now
    && var b := Run(env, learning, steps[..k]).book;
       && m in b.devices
       && SilenceOf(steps[..k], m, e.event.at) >= env.config.OfflineFor(b.devices[m].classification.deviceType)
  }

  // No run ever announces a departure before that silence.
  lemma {:induction false} DeparturesAreSilent(env: Env, learning: bool, steps: seq<Step>, e: Effect, m: Mac) returns (k: nat)
    requires e in Run(env, learning, steps).effects && e.Announces(WentOffline, m)
    ensures LeftAt(env, learning, steps, k, e, m)
  {
    hide Plan, PerformAll;
    k := 0;
    if steps != [] {
      var most, step := steps[..|steps| - 1], steps[|steps| - 1];
      var before := Run(env, learning, most);
      if e in before.effects {
        k := DeparturesAreSilent(env, learning, most, e, m);
        assert steps[..k] == most[..k];
      } else {
        k := |most|;
        RunSound(env, learning, most);
        var i := StepDepartures(env, before.book, Plan(env, before.book, step), e, m);
        SweepDeparture(env, before.book, step, i, e, m);
        SeenIsLastHeard(env, learning, most, m);
        assert steps[..k] == most;
      }
    }
  }

  lemma SweepDeparture(env: Env, b: Book, step: Step, i: nat, e: Effect, m: Mac)
    requires Sound(b) && e.Announces(WentOffline, m)
    requires var ops := Plan(env, b, step);
             && i < |ops| && ops[i].Check? && ops[i].mac == m && e.event.at == ops[i].now
             && var c := PerformAll(env, b, ops[..i]).book;
                m in c.devices && GoesOffline(env, c.devices[m], ops[i].now)
    ensures step.Sweep? && step.now == e.event.at
    ensures m in b.devices && GoesOffline(env, b.devices[m], step.now)
  {
    hide PerformAll, Attribute, IsGroup;
    var ops := Plan(env, b, step);
    if step.Sweep? {
      assert ops[..i] == Checks(step.order[..i], step.now);
      ChecksChecked(env, b, step.order[..i], step.now, m);
    }
  }

  // ---------- offline, and on an access point ----------

  // One frame, a silence, and a controller that still reports the device: it ends
  // offline with a stay open.
  lemma PlacedWhileOffline(env: Env, learning: bool, obs: Observation, now: int, ap: string, location: string, at: int)
    requires IsDevice(obs.mac) && now > obs.observedAt
    requires forall t :: now - obs.observedAt >= env.config.OfflineFor(t)
    ensures var steps := [Observe(obs), Sweep(now, [obs.mac]), SetLocation(obs.mac, ap, location, at)];
            var b, s := Run(env, learning, steps).book, StoreAfter(env, learning, steps);
            && obs.mac in b.devices && obs.mac in s.ids
            && b.devices[obs.mac].state == Offline && b.devices[obs.mac].currentAp == Some(ap)
            && OpenSessions(s.db.presence, s.ids[obs.mac]) == 0 && OpenStays(s.db.stays, s.ids[obs.mac]) == 1
  {
    hide Run, StoreAfter, OpenSessions, OpenStays, Apply, IsGroup;
    var m := obs.mac;
    var first, two, all := [Observe(obs)], [Observe(obs), Sweep(now, [m])],
        [Observe(obs), Sweep(now, [m]), SetLocation(m, ap, location, at)];
    assert all[..3] == all && all[..2] == two && all[..1] == first;
    RunSound(env, learning, first);
    SeenIsLastHeard(env, learning, first, m);
    assert first[..0] == [];
    var b := Run(env, learning, first).book;
    RunLast(env, learning, two);
    assert two[..1] == first;
    OneSweep(env, b, m, now);
    StepAt(env, learning, all, 2, m);
    OpenRowsExactly(env, learning, all, m);
  }

  lemma OneSweep(env: Env, b: Book, m: Mac, now: int)
    requires Sound(b) && m in b.devices
    requires b.devices[m].state == Offline || GoesOffline(env, b.devices[m], now)
    ensures var c := Apply(env, b, Sweep(now, [m])).book;
            m in c.devices && c.devices[m].state == Offline
  {
    hide SweepEffects;
    var ops := Plan(env, b, Sweep(now, [m]));
    assert ops == [Check(m, now)];
    PerformOne(env, b, Check(m, now));
  }
}
