/**
 Evidence is written through: what the database stores about a device is what
 the device table holds, so a restart starts from the same evidence.
 */
module DeviceEvidence {
  import opened Options
  import opened Types
  import opened Identities
  import opened DeviceTable
  import opened DeviceTableFacts
  import opened DeviceSessions
  import opened Persistence
  import Attribution = DeviceAttribution

  ghost predicate Held(b: Book, m: Mac, s: Signal) {
    m in b.devices && s in b.devices[m].signals
  }

  // No hardware address has a blank vendor.
  ghost predicate VendorsNamed(env: Env) {
    forall m: Mac :: env.vendorOf(m).Some? ==> !IsBlank(env.vendorOf(m).value)
  }

  // The evidence an outcome records is exactly what the table gains.
  ghost predicate Accounts(b: Book, o: Outcome, m: Mac, s: Signal) {
    Held(o.book, m, s) <==> Held(b, m, s) || Attribution.Records(o.effects, m, s)
  }

  lemma NoEvidence(effects: seq<Effect>, m: Mac, s: Signal)
    requires forall e :: e in effects ==> !e.Evidence?
    ensures !Attribution.Records(effects, m, s)
  {}

  // A new device has at most its vendor for evidence, recorded unless blank.
  lemma VendorIsBest(env: Env, mac: Mac)
    ensures var signals, vendor := VendorSignals(env, mac), env.vendorOf(mac);
            BestOf(signals, Vendor) == if vendor.Some? && !IsBlank(vendor.value) then vendor else None
  {
    hide IsBlank;
    var signals := VendorSignals(env, mac);
    if signals != [] {
      assert signals[1..] == [] && BestOf(signals[1..], Vendor) == None;
    }
  }

  lemma DiscoverAccounts(env: Env, b: Book, obs: Observation, m: Mac, s: Signal)
    requires !IsBlank(s.value) || VendorsNamed(env)
    ensures Accounts(b, PerformDiscover(env, b, obs), m, s)
  {
    hide IsBlank, Resolve, Ipv4Of;
    if obs.mac in b.devices {
      NoEvidence([], m, s);
    } else {
      var e := NewEntry(env, obs, b.learning);
      var effects := DiscoveryEffects(e, obs, b.learning);
      VendorIsBest(env, obs.mac);
      if m == obs.mac && s in e.signals {
        assert effects[1] == Evidence(m, s, obs.observedAt);
        assert effects[1] in effects;
      }
    }
  }

  lemma HearAccounts(env: Env, b: Book, obs: Observation, mine: seq<Signal>, unattributed: nat, first: bool, m: Mac, s: Signal)
    requires Sound(b)
    ensures Accounts(b, PerformHear(env, b, obs, mine, unattributed, first), m, s)
  {
    hide IsBlank, Resolve, Consider, Merged, HearingEffects, NonBlank, IsRecordable, Attribution.Records, Changes;
    if obs.mac in b.devices {
      var e := b.devices[obs.mac];
      HeardSignals(env, e, obs, mine);
      hide Heard, Rescored, Reclassified;
      Attribution.HearingRecords(e, obs, mine, b.learning, first, m, s);
      MergedKeepsEvidence(e.signals, NonBlank(obs.signals) + mine);
      assert s in NonBlank(obs.signals) + mine <==> s in NonBlank(obs.signals) || s in mine;
    } else {
      NoEvidence([], m, s);
    }
  }

  lemma HeardSignals(env: Env, e: Entry, obs: Observation, mine: seq<Signal>)
    ensures Reclassified(env, Rescored(Heard(e, obs, mine), obs.observedAt), obs.observedAt).signals
         == Merged(e.signals, NonBlank(obs.signals) + mine)
  {
    hide IsBlank, Resolve, Consider, Merged, NonBlank, IsRecordable, IsLinkLocal;
  }

  lemma LearnAccounts(env: Env, b: Book, mac: Mac, signal: Signal, at: int, m: Mac, s: Signal)
    requires Sound(b)
    ensures Accounts(b, PerformLearn(env, b, mac, signal, at), m, s)
  {
    hide IsBlank, Resolve, Consider, Merged, Changes, EventFor;
    if !IsBlank(signal.value) && mac in b.devices {
      Attribution.LearnRecords(env, b, mac, signal, at, m, s);
      MergedKeepsEvidence(b.devices[mac].signals, [signal]);
      hide Attribution.Records, NameEffects;
    } else {
      NoEvidence([], m, s);
    }
  }

  lemma PerformAccounts(env: Env, b: Book, op: Op, m: Mac, s: Signal)
    requires Sound(b) && (!IsBlank(s.value) || VendorsNamed(env))
    ensures Accounts(b, Perform(env, b, op), m, s)
  {
    hide PerformDiscover, PerformHear, PerformLearn, PerformCheck, IsBlank, BestOf, Attribution.Records;
    NoEvidence([], m, s);
    match op {
      case Discover(obs) => DiscoverAccounts(env, b, obs, m, s);
      case Hear(obs, mine, unattributed, first) => HearAccounts(env, b, obs, mine, unattributed, first, m, s);
      case Learn(mac, signal, at) => LearnAccounts(env, b, mac, signal, at, m, s);
      case Check(mac, now) => CheckAccounts(env, b, mac, now, m, s);
      case Place(mac, ap, location, at) => NoEvidence(PerformPlace(b, mac, ap, location, at).effects, m, s);
      case _ =>
    }
  }

  lemma CheckAccounts(env: Env, b: Book, mac: Mac, now: int, m: Mac, s: Signal)
    ensures Accounts(b, PerformCheck(env, b, mac, now), m, s)
  {
    hide IsBlank, BestOf, Attribution.Records;
    NoEvidence(PerformCheck(env, b, mac, now).effects, m, s);
  }

  lemma {:induction false} PerformAllAccounts(env: Env, b: Book, ops: seq<Op>, m: Mac, s: Signal)
    requires Sound(b) && (!IsBlank(s.value) || VendorsNamed(env))
    ensures Accounts(b, PerformAll(env, b, ops), m, s)
  {
    hide Perform, IsBlank, Attribution.Records;
    if ops == [] {
      NothingRecorded(m, s);
    } else {
      var most, op := ops[..|ops| - 1], ops[|ops| - 1];
      PerformAllAccounts(env, b, most, m, s);
      PerformAllSound(env, b, most);
      var before := PerformAll(env, b, most);
      PerformAccounts(env, before.book, op, m, s);
      Attribution.RecordsAppend(before.effects, Perform(env, before.book, op).effects, m, s);
    }
  }

  lemma NothingRecorded(m: Mac, s: Signal)
    ensures !Attribution.Records([], m, s)
  {}

  // ---------- in the database ----------

  ghost predicate Stored(store: Store, m: Mac, s: Signal) {
    m in store.ids && (store.ids[m], s) in store.db.signals
  }

  // No evidence is stored under an id not yet handed out.
  ghost predicate Filed(store: Store) {
    forall k :: k in store.db.signals ==> k.0 < store.db.nextId
  }

  lemma EffectStores(store: Store, e: Effect, m: Mac, s: Signal)
    requires Tidy(store) && Filed(store)
    requires e.Evidence? ==> e.subject in store.ids
    ensures Filed(ApplyEffect(store, e))
    ensures Stored(ApplyEffect(store, e), m, s) <==> Stored(store, m, s) || (e.Evidence? && e.subject == m && e.signal == s)
  {
    hide OpenSessions, OpenStays, CloseSessions, CloseStays, OpenPresence, IsOpenSession;
    match e {
      case PresenceOpened(mac, interface, ip, at) =>
        if mac in store.ids { OpeningKeepsSignals(store.db, store.ids[mac], interface, ip, at); }
      case _ =>
    }
  }

  lemma OpeningKeepsSignals(db: Db, id: nat, interface: string, ip: Option<Ipv4>, at: int)
    ensures var after := OpenPresence(db, id, interface, ip, at);
            after.signals == db.signals && after.nextId == db.nextId
  {}

  // A stream that never breaks protocol stores exactly the evidence it records.
  lemma {:induction false} StreamStores(store: Store, effects: seq<Effect>, tracks: Mac -> Track, m: Mac, s: Signal)
    requires Tidy(store) && Filed(store) && forall n: Mac :: Mirrors(store, n, tracks(n))
    requires forall n: Mac :: WatchAll(tracks(n), effects, n).Track?
    ensures Filed(ApplyEffects(store, effects))
    ensures Stored(ApplyEffects(store, effects), m, s) <==> Stored(store, m, s) || Attribution.Records(effects, m, s)
  {
    hide Tidy, Filed, Stored, ApplyEffect, Mirrors, Watch, Attribution.Records;
    if effects == [] {
      NothingRecorded(m, s);
    } else {
      var first, e := effects[..|effects| - 1], effects[|effects| - 1];
      assert effects == first + [e];
      forall n: Mac
        ensures WatchAll(tracks(n), first, n).Track?
      {
        BrokenStays(WatchAll(tracks(n), first, n), e, n);
      }
      StreamStores(store, first, tracks, m, s);
      StreamMirrored(store, first, tracks);
      var mid, d := ApplyEffects(store, first), e.Device();
      assert WatchAll(tracks(d), effects, d).Track?;
      EvidenceIsKnown(mid, e, WatchAll(tracks(d), first, d));
      EffectStores(mid, e, m, s);
      Attribution.RecordsAppend(first, [e], m, s);
      OneRecord(e, m, s);
    }
  }

  lemma EvidenceIsKnown(store: Store, e: Effect, t: Track)
    requires Mirrors(store, e.Device(), t) && Watch(t, e, e.Device()).Track?
    ensures e.Evidence? ==> e.subject in store.ids
  {}

  lemma OneRecord(e: Effect, m: Mac, s: Signal)
    ensures Attribution.Records([e], m, s) <==> e.Evidence? && e.subject == m && e.signal == s
  {}

  lemma {:induction false} FlushStores(store: Store, snapshots: seq<DeviceSnapshot>)
    ensures var after := Flush(store, snapshots);
            after.ids == store.ids && after.db.signals == store.db.signals && after.db.nextId == store.db.nextId
  {
    hide BumpSessions;
    if snapshots != [] {
      FlushStores(store, snapshots[..|snapshots| - 1]);
    }
  }

  // The database gains at each step what the step records.
  lemma {:induction false} RunStores(env: Env, learning: bool, steps: seq<Step>, m: Mac, s: Signal)
    ensures Filed(StoreAfter(env, learning, steps))
    ensures Stored(StoreAfter(env, learning, steps), m, s)
       <==> Attribution.Records(Run(env, learning, steps).effects, m, s)
  {
    hide Plan, Run, Watch, Mirrors, Tidy, PerformAll, TrackOf, Attribution.Records, Apply;
    if steps == [] {
      RunNothing(env, learning);
      NothingRecorded(m, s);
    } else {
      var last := |steps| - 1;
      var most := steps[..last];
      RunStores(env, learning, most, m, s);
      TablesMirrorRun(env, learning, most);
      RunSound(env, learning, most);
      RunLast(env, learning, steps);
      var store, b := StoreAfter(env, learning, most), Run(env, learning, most).book;
      var o := Apply(env, b, steps[last]);
      var tracks := (n: Mac) => TrackOf(b, n);
      forall n: Mac
        ensures Mirrors(store, n, tracks(n))
        ensures WatchAll(tracks(n), o.effects, n).Track?
      {
        assert Mirrors(store, n, TrackOf(b, n));
        ApplyWatched(env, b, steps[last], n);
        WholeTrack(o.book, n);
      }
      StreamStores(store, o.effects, tracks, m, s);
      FlushStores(ApplyEffects(store, o.effects), o.flushed);
      Attribution.RecordsAppend(Run(env, learning, most).effects, o.effects, m, s);
    }
  }

  // So does the table, blank vendors aside.
  lemma {:induction false} RunHolds(env: Env, learning: bool, steps: seq<Step>, m: Mac, s: Signal)
    requires !IsBlank(s.value) || VendorsNamed(env)
    ensures Held(Run(env, learning, steps).book, m, s) <==> Attribution.Records(Run(env, learning, steps).effects, m, s)
  {
    hide IsBlank, Plan, PerformAll, Attribution.Records, Apply, VendorsNamed;
    if steps == [] {
      NothingRecorded(m, s);
    } else {
      var most := steps[..|steps| - 1];
      RunHolds(env, learning, most, m, s);
      RunSound(env, learning, most);
      var before := Run(env, learning, most);
      ApplyAccounts(env, before.book, steps[|steps| - 1], m, s);
      Attribution.RecordsAppend(before.effects, Apply(env, before.book, steps[|steps| - 1]).effects, m, s);
    }
  }

  // ---------- nothing blank is recorded ----------

  // The evidence an operation is handed on the sender's behalf has no blank.
  predicate HandsOn(op: Op, s: Signal) {
    op.Hear? && s in op.mine
  }

  lemma PerformRecordsNoBlank(env: Env, b: Book, op: Op, m: Mac, s: Signal)
    requires Sound(b) && IsBlank(s.value) && !HandsOn(op, s)
    ensures !Attribution.Records(Perform(env, b, op).effects, m, s)
  {
    hide PerformDiscover, PerformHear, PerformLearn, PerformCheck, IsBlank, BestOf, Attribution.Records;
    NoEvidence([], m, s);
    match op {
      case Discover(obs) => DiscoverRecordsNoBlank(env, b, obs, m, s);
      case Hear(obs, mine, unattributed, first) => HearRecordsNoBlank(env, b, obs, mine, unattributed, first, m, s);
      case Learn(mac, signal, at) => LearnRecordsNoBlank(env, b, mac, signal, at, m, s);
      case Check(mac, now) => NoEvidence(PerformCheck(env, b, mac, now).effects, m, s) by {
        CheckIsQuiet(env, b, mac, now);
      }
      case Place(mac, ap, location, at) => NoEvidence(PerformPlace(b, mac, ap, location, at).effects, m, s);
      case _ =>
    }
  }

  lemma CheckIsQuiet(env: Env, b: Book, mac: Mac, now: int)
    ensures forall e :: e in PerformCheck(env, b, mac, now).effects ==> !e.Evidence?
  {
    hide IsBlank, BestOf;
  }

  lemma DiscoverRecordsNoBlank(env: Env, b: Book, obs: Observation, m: Mac, s: Signal)
    requires IsBlank(s.value)
    ensures !Attribution.Records(PerformDiscover(env, b, obs).effects, m, s)
  {
    hide IsBlank, Resolve, Ipv4Of, BestOf;
    VendorIsBest(env, obs.mac);
  }

  lemma {:induction false} NonBlankHasNone(signals: seq<Signal>, s: Signal)
    requires IsBlank(s.value)
    ensures s !in NonBlank(signals)
  {
    hide IsBlank;
    if signals != [] {
      NonBlankHasNone(signals[..|signals| - 1], s);
    }
  }

  lemma HearRecordsNoBlank(env: Env, b: Book, obs: Observation, mine: seq<Signal>, unattributed: nat, first: bool, m: Mac, s: Signal)
    requires IsBlank(s.value) && s !in mine
    ensures !Attribution.Records(PerformHear(env, b, obs, mine, unattributed, first).effects, m, s)
  {
    hide IsBlank, HearingEffects, NonBlank, Attribution.Records, Heard, Rescored, Reclassified, Changes, Candidate;
    if obs.mac in b.devices {
      Attribution.HearingRecords(b.devices[obs.mac], obs, mine, b.learning, first, m, s);
      NonBlankHasNone(obs.signals, s);
    } else {
      NoEvidence([], m, s);
    }
  }

  lemma LearnRecordsNoBlank(env: Env, b: Book, mac: Mac, signal: Signal, at: int, m: Mac, s: Signal)
    requires IsBlank(s.value)
    ensures !Attribution.Records(PerformLearn(env, b, mac, signal, at).effects, m, s)
  {
    hide IsBlank, Attribution.Records, Rescored, Reclassified, Changes, Candidate, NameEffects, Merged;
    if !IsBlank(signal.value) && mac in b.devices {
      Attribution.LearnRecords(env, b, mac, signal, at, m, s);
    } else {
      NoEvidence([], m, s);
    }
  }

  lemma {:induction false} AllRecordNoBlank(env: Env, b: Book, ops: seq<Op>, m: Mac, s: Signal)
    requires Sound(b) && IsBlank(s.value) && forall op :: op in ops ==> !HandsOn(op, s)
    ensures !Attribution.Records(PerformAll(env, b, ops).effects, m, s)
  {
    hide Perform, IsBlank, Attribution.Records, HandsOn;
    if ops == [] {
      NothingRecorded(m, s);
    } else {
      var most, op := ops[..|ops| - 1], ops[|ops| - 1];
      AllRecordNoBlank(env, b, most, m, s);
      PerformAllSound(env, b, most);
      var before := PerformAll(env, b, most);
      PerformRecordsNoBlank(env, before.book, op, m, s);
      Attribution.RecordsAppend(before.effects, Perform(env, before.book, op).effects, m, s);
    }
  }

  lemma PlanHandsOnNoBlank(env: Env, b: Book, step: Step, s: Signal)
    requires IsBlank(s.value)
    ensures forall op :: op in Plan(env, b, step) ==> !HandsOn(op, s)
  {
    hide IsBlank, Attribute, PerformAll, IsGroup;
    if step.Observe? && IsDevice(step.obs.mac) {
      var mid := PerformAll(env, b, Arrival(b, step.obs)).book;
      Attribution.SortedForObserve(mid, step.obs, 0, s);
    }
  }

  lemma {:induction false} RunRecordsNoBlank(env: Env, learning: bool, steps: seq<Step>, m: Mac, s: Signal)
    requires IsBlank(s.value)
    ensures !Attribution.Records(Run(env, learning, steps).effects, m, s)
  {
    hide IsBlank, Plan, PerformAll, Attribution.Records, HandsOn;
    if steps == [] {
      NothingRecorded(m, s);
    } else {
      var most, step := steps[..|steps| - 1], steps[|steps| - 1];
      RunRecordsNoBlank(env, learning, most, m, s);
      RunSound(env, learning, most);
      var before := Run(env, learning, most);
      PlanHandsOnNoBlank(env, before.book, step, s);
      AllRecordNoBlank(env, before.book, Plan(env, before.book, step), m, s);
      Attribution.RecordsAppend(before.effects, Apply(env, before.book, step).effects, m, s);
    }
  }

  lemma WholeTrack(b: Book, m: Mac)
    ensures TrackOf(b, m).Track?
  {}

  lemma ApplyAccounts(env: Env, b: Book, step: Step, m: Mac, s: Signal)
    requires Sound(b) && (!IsBlank(s.value) || VendorsNamed(env))
    ensures Accounts(b, Apply(env, b, step), m, s)
  {
    hide IsBlank, Plan, PerformAll, Accounts;
    PerformAllAccounts(env, b, Plan(env, b, step), m, s);
  }

  // After any run, the evidence table has a signal under a device's id exactly
  // when the device holds it and it is not blank.
  lemma StoredEvidenceIsHeld(env: Env, learning: bool, steps: seq<Step>, m: Mac, s: Signal)
    requires m in Run(env, learning, steps).book.devices
    ensures var store := StoreAfter(env, learning, steps);
            && m in store.ids
            && ((store.ids[m], s) in store.db.signals <==>
                  s in Run(env, learning, steps).book.devices[m].signals && !IsBlank(s.value))
  {
    hide IsBlank, Run, StoreAfter, Tidy, Attribution.Records;
    RunStores(env, learning, steps, m, s);
    TablesMirrorRun(env, learning, steps);
    assert Mirrors(StoreAfter(env, learning, steps), m, TrackOf(Run(env, learning, steps).book, m));
    if IsBlank(s.value) {
      RunRecordsNoBlank(env, learning, steps, m, s);
    } else {
      RunHolds(env, learning, steps, m, s);
    }
  }

  // With a vendor table that has no blank entry the two are simply the same.
  lemma StoredIsHeld(env: Env, learning: bool, steps: seq<Step>, m: Mac, s: Signal)
    requires m in Run(env, learning, steps).book.devices && VendorsNamed(env)
    ensures var store := StoreAfter(env, learning, steps);
            && m in store.ids
            && ((store.ids[m], s) in store.db.signals <==> s in Run(env, learning, steps).book.devices[m].signals)
  {
    hide IsBlank, Run, StoreAfter, Tidy, Attribution.Records, VendorsNamed;
    RunStores(env, learning, steps, m, s);
    RunHolds(env, learning, steps, m, s);
    TablesMirrorRun(env, learning, steps);
    assert Mirrors(StoreAfter(env, learning, steps), m, TrackOf(Run(env, learning, steps).book, m));
  }

  lemma PerformKeeps(env: Env, b: Book, op: Op, m: Mac, s: Signal)
    requires Sound(b) && Held(b, m, s)
    ensures Held(Perform(env, b, op).book, m, s)
  {
    hide IsBlank, Resolve, Consider, Merged, HearingEffects, NonBlank, IsRecordable, IsLinkLocal, Changes, NameEffects,
         BestOf, EventFor, DiscoveryEffects;
    Undisturbed(env, b, op, m);
    match op {
      case Hear(obs, mine, _, _) =>
        if obs.mac == m {
          HeardSignals(env, b.devices[m], obs, mine);
          MergedKeepsEvidence(b.devices[m].signals, NonBlank(obs.signals) + mine);
        }
      case Learn(mac, signal, _) =>
        if mac == m { MergedKeepsEvidence(b.devices[m].signals, [signal]); }
      case _ =>
    }
  }

  lemma {:induction false} PerformAllKeeps(env: Env, b: Book, ops: seq<Op>, m: Mac, s: Signal)
    requires Sound(b) && Held(b, m, s)
    ensures Held(PerformAll(env, b, ops).book, m, s)
  {
    hide Perform, Held;
    if ops != [] {
      var most := ops[..|ops| - 1];
      PerformAllKeeps(env, b, most, m, s);
      PerformAllSound(env, b, most);
      PerformKeeps(env, PerformAll(env, b, most).book, ops[|ops| - 1], m, s);
    }
  }

  // And only then: a device with a blank vendor holds, from its first frame on,
  // evidence that is not stored.
  lemma BlankVendorIsNotStored(env: Env, learning: bool, obs: Observation, vendor: string)
    requires IsDevice(obs.mac) && env.vendorOf(obs.mac) == Some(vendor) && IsBlank(vendor)
    ensures var o, store := Run(env, learning, [Observe(obs)]), StoreAfter(env, learning, [Observe(obs)]);
            && obs.mac in o.book.devices && obs.mac in store.ids
            && Signal(Vendor, vendor) in o.book.devices[obs.mac].signals
            && (store.ids[obs.mac], Signal(Vendor, vendor)) !in store.db.signals
  {
    hide IsBlank, IsGroup, StoreAfter, Perform, PerformAll, Attribute, Arrival, Apply;
    var steps, b, s := [Observe(obs)], EmptyBook(learning), Signal(Vendor, vendor);
    RunLast(env, learning, steps);
    assert steps[..0] == [];
    RunNothing(env, learning);
    ThreeParts(env, b, obs);
    ArrivalKnows(env, b, obs);
    var ops := Arrival(b, obs);
    var mid := PerformAll(env, b, ops).book;
    assert Held(mid, obs.mac, s);
    PerformAllSound(env, b, ops);
    var att := Attribute(mid, obs);
    var hear := Hear(obs, att.mine, att.unattributed, true);
    PerformKeeps(env, mid, hear, obs.mac, s);
    PerformSound(env, mid, hear);
    PerformAllKeeps(env, Perform(env, mid, hear).book, Learns(att.others, obs.observedAt), obs.mac, s);
    StoredEvidenceIsHeld(env, learning, steps, obs.mac, s);
  }
}
