/**
 What a call does, told from the table before it and the call: every session it
 opens or closes, every change of access point, every address and every event,
 with what each says and in what order.
 */
module DeviceEffects {
  import opened Options
  import opened Types
  import opened Identities
  import opened DeviceTable
  import opened DeviceTableFacts
  import opened DeviceSessions
  import opened DeviceIndex
  import opened DeviceSweeps
  import DeviceEvidence
  import History = DeviceHistory

  datatype Kind =
    | Creating | Recording | Showing | Opening | Closing | Placing | Leaving | Announcing(eventType: EventType)

  function KindOf(e: Effect): Kind {
    match e
    case Discovered(_) => Creating
    case Event(event) => Announcing(event.eventType)
    case Evidence(_, _, _) => Recording
    case Address(_, _, _, _) => Showing
    case PresenceOpened(_, _, _, _) => Opening
    case PresenceClosed(_, _) => Closing
    case LocationChanged(_, _, _, _) => Placing
    case LocationClosed(_, _) => Leaving
  }

  predicate Is(e: Effect, k: Kind, m: Mac) {
    e.Device() == m && KindOf(e) == k
  }

  // The effects of one kind on one device, in order.
  function Only(effects: seq<Effect>, k: Kind, m: Mac): seq<Effect> {
    if effects == [] then []
    else
      var e := effects[|effects| - 1];
      Only(effects[..|effects| - 1], k, m) + (if Is(e, k, m) then [e] else [])
  }

  lemma {:induction false} OnlyAppend(first: seq<Effect>, next: seq<Effect>, k: Kind, m: Mac)
    ensures Only(first + next, k, m) == Only(first, k, m) + Only(next, k, m)
  {
    hide Is;
    if next == [] {
      assert first + next == first;
    } else {
      var all := first + next;
      assert all[..|all| - 1] == first + next[..|next| - 1];
      OnlyAppend(first, next[..|next| - 1], k, m);
    }
  }

  lemma {:induction false} OnlyNone(effects: seq<Effect>, k: Kind, m: Mac)
    requires forall e :: e in effects ==> !Is(e, k, m)
    ensures Only(effects, k, m) == []
  {
    hide Is;
    if effects != [] {
      assert effects[|effects| - 1] in effects;
      OnlyNone(effects[..|effects| - 1], k, m);
    }
  }

  lemma OnlyOne(e: Effect, k: Kind, m: Mac)
    ensures Only([e], k, m) == if Is(e, k, m) then [e] else []
  {
    assert [e][..0] == [];
  }

  lemma OnlyTwo(a: Effect, b: Effect, k: Kind, m: Mac)
    ensures Only([a, b], k, m) == (if Is(a, k, m) then [a] else []) + (if Is(b, k, m) then [b] else [])
  {
    hide Is;
    assert [a, b] == [a] + [b];
    OnlyAppend([a], [b], k, m);
    OnlyOne(a, k, m);
    OnlyOne(b, k, m);
  }

  // ---------- what a call calls for ----------

  // The IPv4 address a frame shows its sender using.
  function ShownV4(obs: Observation): Option<Ipv4> {
    if obs.ip.Some? && obs.ip.value.V4? && IsHostV4(obs.ip.value.v4) then Some(obs.ip.value.v4) else None
  }

  predicate MovesTo(last: Option<Ipv4>, shown: Option<Ipv4>) {
    last.Some? && shown.Some? && shown.value != last.value
  }

  // What is said of a device the table already holds.
  function Saying(e: Entry, t: EventType, ip: Option<Ipv4>, interface: Option<string>, at: int, learning: bool): Effect {
    Event(DeviceEvent(t, e.mac, e.Display(), e.Best(Vendor), ip, interface, at, e.baseline, learning, e.notify))
  }

  // A usable address on a frame is recorded.
  function Shown(obs: Observation): seq<Effect> {
    if obs.ip.Some? && IsRecordable(obs.ip.value) then [Address(obs.mac, obs.ip.value, obs.interface, obs.observedAt)] else []
  }

  // A frame from a device that had gone opens a session and announces it as back;
  // one that shows another IPv4 address than the last announces the change.
  function OnHearing(e: Entry, obs: Observation, learning: bool, k: Kind): seq<Effect> {
    var back := e.state == Offline;
    match k
    case Opening => if back then [PresenceOpened(obs.mac, obs.interface, Ipv4Of(obs.ip), obs.observedAt)] else []
    case Showing => Shown(obs)
    case Announcing(t) =>
      if t == Returned && back
      then [Saying(e, Returned, Ipv4Of(obs.ip), Some(obs.interface), obs.observedAt, learning)]
      else if t == IpChanged && MovesTo(e.lastIp, ShownV4(obs))
      then [Saying(e, IpChanged, ShownV4(obs), Some(obs.interface), obs.observedAt, learning)]
      else []
    case _ => []
  }

  // The name a device is created with.
  function NameOf(env: Env, m: Mac): string {
    Resolve(m, VendorSignals(env, m), None).displayName
  }

  function VendorShown(env: Env, m: Mac): Option<string> {
    var vendor := env.vendorOf(m);
    if vendor.Some? && !IsBlank(vendor.value) then vendor else None
  }

  // What is known of a device at its first frame, before its evidence is read.
  function FirstSnapshot(env: Env, obs: Observation, learning: bool): DeviceSnapshot {
    DeviceSnapshot(obs.mac, Online, None, None, Some(obs.interface), obs.observedAt, obs.observedAt, learning,
                   Resolve(obs.mac, VendorSignals(env, obs.mac), None), None, None, None, VendorShown(env, obs.mac),
                   None, None, None, None, None, 0)
  }

  // A first frame creates the device, opens a session and announces it, as
  // baseline exactly if learning is on.
  function OnFirst(env: Env, obs: Observation, learning: bool, k: Kind): seq<Effect> {
    match k
    case Creating => [Discovered(FirstSnapshot(env, obs, learning))]
    case Opening => [PresenceOpened(obs.mac, obs.interface, Ipv4Of(obs.ip), obs.observedAt)]
    case Announcing(t) =>
      if t == NewDevice
      then [Event(DeviceEvent(NewDevice, obs.mac, NameOf(env, obs.mac), VendorShown(env, obs.mac),
                              Ipv4Of(obs.ip), Some(obs.interface), obs.observedAt, learning, learning, true))]
      else []
    case _ => []
  }

  // A report of another access point.
  function OnReport(e: Entry, ap: string, location: string, at: int, learning: bool, k: Kind): seq<Effect> {
    if e.currentAp == Some(ap) then []
    else
      match k
      case Placing => [LocationChanged(e.mac, ap, location, at)]
      case Announcing(t) =>
        if t == DeviceLocationChanged then [Saying(e, t, e.lastIp, e.lastInterface, at, learning)] else []
      case _ => []
  }

  // Leaving closes the session, and the stay if there is one.
  function OnLeaving(e: Entry, now: int, learning: bool, k: Kind): seq<Effect> {
    match k
    case Closing => [PresenceClosed(e.mac, now)]
    case Leaving => if e.currentAp.Some? then [LocationClosed(e.mac, now)] else []
    case Announcing(t) =>
      if t == WentOffline then [Saying(e, t, e.lastIp, e.lastInterface, now, learning)] else []
    case _ => []
  }

  // The effects of a kind a call should have on a device.
  function CalledFor(env: Env, b: Book, step: Step, k: Kind, m: Mac): seq<Effect> {
    match step
    case Observe(obs) =>
      if !IsDevice(m) || obs.mac != m then []
      else if m in b.devices then OnHearing(b.devices[m], obs, b.learning, k)
      else if k == Showing then Shown(obs)
      else OnFirst(env, obs, b.learning, k)
    case SetLocation(mac, ap, location, at) =>
      if mac == m && m in b.devices then OnReport(b.devices[m], ap, location, at, b.learning, k) else []
    case Sweep(now, order) =>
      if m in order && m in b.devices && GoesOffline(env, b.devices[m], now) then OnLeaving(b.devices[m], now, b.learning, k) else []
    case _ => []
  }

  // Evidence and new names have laws of their own.
  predicate Plain(k: Kind) {
    k != Recording && k != Announcing(NameUpdated)
  }

  // ---------- one operation ----------

  lemma HearingParts(e: Entry, obs: Observation, mine: seq<Signal>, learning: bool, first: bool, k: Kind, m: Mac)
    requires Plain(k)
    ensures Only(HearingEffects(e, obs, mine, learning, first), k, m)
         == Only(RevivalEffects(Touched(e, obs.observedAt), obs, learning), k, m)
            + Only(AddressEffects(Revived(Touched(e, obs.observedAt)), obs, learning), k, m)
  {
    hide RevivalEffects, AddressEffects, Heard, Rescored, NonBlank, Resolve, Only, EventFor;
    var at := obs.observedAt;
    var revival := RevivalEffects(Touched(e, at), obs, learning);
    var address := AddressEffects(Revived(Touched(e, at)), obs, learning);
    var evidence := EvidenceEffects(e.mac, NonBlank(obs.signals) + mine, at);
    var heard := Heard(e, obs, mine);
    var name := NameEffects(heard, Rescored(heard, at), Some(obs.interface), at, learning, first);
    OnlyAppend(revival, address, k, m);
    OnlyAppend(revival + address, evidence, k, m);
    OnlyAppend(revival + address + evidence, name, k, m);
    OnlyNone(evidence, k, m);
    NameOnly(heard, Rescored(heard, at), Some(obs.interface), at, learning, first, k, m);
  }

  lemma NameOnly(before: Entry, after: Entry, interface: Option<string>, at: int, learning: bool, quiet: bool, k: Kind, m: Mac)
    requires Plain(k)
    ensures Only(NameEffects(before, after, interface, at, learning, quiet), k, m) == []
  {
    hide IsBlank, BestOf;
    OnlyNone(NameEffects(before, after, interface, at, learning, quiet), k, m);
  }

  lemma RevivalDoes(e: Entry, obs: Observation, learning: bool, k: Kind, m: Mac)
    requires e.mac == obs.mac && Plain(k)
    ensures Only(RevivalEffects(e, obs, learning), k, m)
         == if e.mac == m && k != Showing && k != Announcing(IpChanged) then OnHearing(e, obs, learning, k) else []
  {
    hide IsBlank, BestOf, Ipv4Of, Trim, Only, Shown, MovesTo;
    var effects := RevivalEffects(e, obs, learning);
    if effects == [] {
      OnlyNone([], k, m);
    } else {
      OnlyTwo(effects[0], effects[1], k, m);
    }
  }

  lemma AddressDoes(e: Entry, obs: Observation, learning: bool, k: Kind, m: Mac)
    requires e.mac == obs.mac && e.state != Offline
    ensures Only(AddressEffects(e, obs, learning), k, m) == if e.mac == m then OnHearing(e, obs, learning, k) else []
  {
    hide IsBlank, BestOf, IsHostV4, IsLinkLocal, Trim, Only, IsMulticastV6;
    var effects := AddressEffects(e, obs, learning);
    if |effects| == 2 {
      assert effects == [effects[0], effects[1]];
      OnlyTwo(effects[0], effects[1], k, m);
    } else if |effects| == 1 {
      assert effects == [effects[0]];
      OnlyOne(effects[0], k, m);
    } else {
      OnlyNone(effects, k, m);
    }
  }

  lemma HearingDoes(e: Entry, obs: Observation, mine: seq<Signal>, learning: bool, first: bool, k: Kind, m: Mac)
    requires e.mac == obs.mac && Plain(k)
    ensures Only(HearingEffects(e, obs, mine, learning, first), k, m) == if e.mac == m then OnHearing(e, obs, learning, k) else []
  {
    hide HearingEffects, RevivalEffects, AddressEffects, BestOf, IsBlank, Trim, Ipv4Of, ShownV4, Only, Shown;
    var touched := Touched(e, obs.observedAt);
    HearingParts(e, obs, mine, learning, first, k, m);
    RevivalDoes(touched, obs, learning, k, m);
    AddressDoes(Revived(touched), obs, learning, k, m);
  }

  lemma DiscoveryDoes(env: Env, b: Book, obs: Observation, k: Kind, m: Mac)
    requires obs.mac !in b.devices && Plain(k)
    ensures Only(Perform(env, b, Discover(obs)).effects, k, m) == if obs.mac == m then OnFirst(env, obs, b.learning, k) else []
  {
    hide Resolve, Ipv4Of, IsBlank, Trim, Only, BestOf;
    var e := NewEntry(env, obs, b.learning);
    var effects := DiscoveryEffects(e, obs, b.learning);
    var created, most, opening, last := effects[0], effects[1..|effects| - 2], effects[|effects| - 2], effects[|effects| - 1];
    assert effects == [created] + most + [opening, last];
    OnlyAppend([created], most, k, m);
    OnlyAppend([created] + most, [opening, last], k, m);
    OnlyOne(created, k, m);
    OnlyTwo(opening, last, k, m);
    OnlyNone(most, k, m);
    NewIsFirst(env, obs, b.learning);
    assert last == EventFor(e, NewDevice, Ipv4Of(obs.ip), Some(obs.interface), obs.observedAt, b.learning);
    assert last.event.displayName == NameOf(env, obs.mac);
  }

  lemma NewIsFirst(env: Env, obs: Observation, learning: bool)
    ensures NewEntry(env, obs, learning).Snapshot() == FirstSnapshot(env, obs, learning)
  {
    hide Resolve, IsBlank;
    DeviceEvidence.VendorIsBest(env, obs.mac);
    VendorOnly(env, obs.mac, ReverseDns);
    VendorOnly(env, obs.mac, MdnsName);
    hide BestOf;
  }

  lemma VendorOnly(env: Env, m: Mac, kind: SignalKind)
    requires kind != Vendor
    ensures BestOf(VendorSignals(env, m), kind) == None
  {
    hide IsBlank;
    var signals := VendorSignals(env, m);
    if signals != [] { assert signals[1..] == []; }
  }

  lemma PlaceDoes(env: Env, b: Book, mac: Mac, ap: string, location: string, at: int, k: Kind, m: Mac)
    requires Sound(b)
    ensures Only(Perform(env, b, Place(mac, ap, location, at)).effects, k, m)
         == if mac == m && m in b.devices then OnReport(b.devices[m], ap, location, at, b.learning, k) else []
  {
    hide IsBlank, BestOf, Trim, Only;
    var effects := Perform(env, b, Place(mac, ap, location, at)).effects;
    if effects == [] {
      OnlyNone(effects, k, m);
    } else {
      OnlyTwo(effects[0], effects[1], k, m);
    }
  }

  lemma LeavingDoes(env: Env, e: Entry, now: int, learning: bool, k: Kind, m: Mac)
    requires GoesOffline(env, e, now)
    ensures Only(SweepEffects(env, e, now, learning), k, m) == if e.mac == m then OnLeaving(e, now, learning, k) else []
  {
    hide IsBlank, BestOf, Trim, Only, Is;
    GoingMeansHere(env, e, now);
    var closed, left := PresenceClosed(e.mac, now), EventFor(Swept(env, e, now), WentOffline, e.lastIp, e.lastInterface, now, learning);
    assert left == Saying(e, WentOffline, e.lastIp, e.lastInterface, now, learning);
    hide GoesOffline, Swept, EventFor, Saying;
    var stay := if e.currentAp.Some? then [LocationClosed(e.mac, now)] else [];
    assert SweepEffects(env, e, now, learning) == [closed] + stay + [left];
    hide SweepEffects;
    OnlyAppend([closed], stay, k, m);
    OnlyAppend([closed] + stay, [left], k, m);
    OnlyOne(closed, k, m);
    OnlyOne(left, k, m);
    if stay == [] { OnlyNone([], k, m); } else { OnlyOne(stay[0], k, m); }
    WhatTheyAre(e, now, learning, k, m);
  }

  lemma WhatTheyAre(e: Entry, now: int, learning: bool, k: Kind, m: Mac)
    ensures var closed, stay := PresenceClosed(e.mac, now), LocationClosed(e.mac, now);
            var left := Saying(e, WentOffline, e.lastIp, e.lastInterface, now, learning);
            && (Is(closed, k, m) <==> e.mac == m && k == Closing)
            && (Is(stay, k, m) <==> e.mac == m && k == Leaving)
            && (Is(left, k, m) <==> e.mac == m && k == Announcing(WentOffline))
  {
    hide IsBlank, BestOf, Trim;
  }

  lemma CheckDoes(env: Env, b: Book, mac: Mac, now: int, k: Kind, m: Mac)
    requires Sound(b)
    ensures Only(Perform(env, b, Check(mac, now)).effects, k, m)
         == if mac == m && m in b.devices && GoesOffline(env, b.devices[m], now)
            then OnLeaving(b.devices[m], now, b.learning, k) else []
  {
    hide Only, OnLeaving, Swept;
    if mac in b.devices && GoesOffline(env, b.devices[mac], now) {
      hide GoesOffline, SweepEffects;
      LeavingDoes(env, b.devices[mac], now, b.learning, k, m);
    } else {
      hide GoesOffline;
      OnlyNone([], k, m);
    }
  }

  lemma GoingMeansHere(env: Env, e: Entry, now: int)
    ensures GoesOffline(env, e, now) ==> e.state != Offline
  {}

  predicate Quiet(op: Op) {
    !op.Discover? && !op.Hear? && !op.Place? && !op.Check?
  }

  lemma QuietDoesNothing(env: Env, b: Book, op: Op, k: Kind, m: Mac)
    requires Quiet(op) && Plain(k)
    ensures Only(Perform(env, b, op).effects, k, m) == []
  {
    hide IsBlank, BestOf, Trim, Only, Rescored, Reclassified, Changes, Merged, Resolve;
    OnlyNone(Perform(env, b, op).effects, k, m);
  }

  lemma {:induction false} AllQuiet(env: Env, b: Book, ops: seq<Op>, k: Kind, m: Mac)
    requires (forall op :: op in ops ==> Quiet(op)) && Plain(k)
    ensures Only(PerformAll(env, b, ops).effects, k, m) == []
  {
    hide Perform, Quiet;
    if ops != [] {
      var most, op := ops[..|ops| - 1], ops[|ops| - 1];
      assert op in ops;
      AllQuiet(env, b, most, k, m);
      var before := PerformAll(env, b, most);
      QuietDoesNothing(env, before.book, op, k, m);
      OnlyAppend(before.effects, Perform(env, before.book, op).effects, k, m);
    }
  }

  // ---------- one call ----------

  lemma FreshHears(env: Env, obs: Observation, learning: bool, k: Kind)
    ensures OnHearing(NewEntry(env, obs, learning), obs, learning, k) == if k == Showing then Shown(obs) else []
    ensures OnFirst(env, obs, learning, Showing) == []
  {
    hide Resolve, IsBlank, Shown, Ipv4Of;
  }

  lemma ArrivalDoes(env: Env, b: Book, obs: Observation, k: Kind, m: Mac)
    requires Plain(k)
    ensures Only(PerformAll(env, b, Arrival(b, obs)).effects, k, m)
         == if obs.mac == m && m !in b.devices then OnFirst(env, obs, b.learning, k) else []
  {
    hide PerformAll, NewEntry, DiscoveryEffects, IsRecordable, OnFirst, Arrival, Only;
    ArrivalKnows(env, b, obs);
    if obs.mac !in b.devices {
      DiscoveryDoes(env, b, obs, k, m);
    } else {
      OnlyNone([], k, m);
    }
  }

  lemma HearDoes(env: Env, b: Book, obs: Observation, mine: seq<Signal>, unattributed: nat, first: bool, k: Kind, m: Mac)
    requires Sound(b) && obs.mac in b.devices && Plain(k)
    ensures Only(Perform(env, b, Hear(obs, mine, unattributed, first)).effects, k, m)
         == if obs.mac == m then OnHearing(b.devices[m], obs, b.learning, k) else []
  {
    hide HearingEffects, OnHearing, Heard, Rescored, Reclassified, Changes, Candidate, Only;
    HearingDoes(b.devices[obs.mac], obs, mine, b.learning, first, k, m);
  }

  lemma LearnsAreQuiet(env: Env, b: Book, others: seq<(Mac, Signal)>, at: int, k: Kind, m: Mac)
    requires Plain(k)
    ensures Only(PerformAll(env, b, Learns(others, at)).effects, k, m) == []
  {
    hide Only, PerformAll;
    AllQuiet(env, b, Learns(others, at), k, m);
  }

  lemma ThenDoes(first: Outcome, next: Outcome, k: Kind, m: Mac)
    ensures Only(first.Then(next).effects, k, m) == Only(first.effects, k, m) + Only(next.effects, k, m)
  {
    OnlyAppend(first.effects, next.effects, k, m);
  }

  lemma ObserveDoes(env: Env, b: Book, obs: Observation, k: Kind, m: Mac)
    requires Sound(b) && IsDevice(obs.mac) && Plain(k)
    ensures Only(Apply(env, b, Observe(obs)).effects, k, m) == CalledFor(env, b, Observe(obs), k, m)
  {
    hide Perform, Attribute, IsGroup, IsRecordable, Arrival, PerformAll, OnHearing, OnFirst, NewEntry, DiscoveryEffects,
         IsZero, Learns, Apply, Only, Shown, OnReport, OnLeaving;
    ThreeParts(env, b, obs);
    ArrivalKnows(env, b, obs);
    PerformAllSound(env, b, Arrival(b, obs));
    var mid := PerformAll(env, b, Arrival(b, obs));
    var att := Attribute(mid.book, obs);
    var hear := Hear(obs, att.mine, att.unattributed, obs.mac !in b.devices);
    var heard := Perform(env, mid.book, hear);
    var learned := PerformAll(env, heard.book, Learns(att.others, obs.observedAt));
    ThenDoes(mid, heard, k, m);
    ThenDoes(mid.Then(heard), learned, k, m);
    LearnsAreQuiet(env, heard.book, att.others, obs.observedAt, k, m);
    ArrivalDoes(env, b, obs, k, m);
    HearDoes(env, mid.book, obs, att.mine, att.unattributed, obs.mac !in b.devices, k, m);
    FreshHears(env, obs, b.learning, k);
  }

  // A device that has been checked does not leave again.
  lemma {:induction false} SweepSettles(env: Env, b: Book, order: seq<Mac>, now: int, m: Mac)
    ensures var after := PerformAll(env, b, Checks(order, now)).book;
            && after.learning == b.learning
            && (m in after.devices <==> m in b.devices)
            && (m in b.devices && m in order ==> !GoesOffline(env, after.devices[m], now))
            && (m in b.devices && m !in order ==> after.devices[m] == b.devices[m])
  {
    hide Perform, GoesOffline;
    if order != [] {
      var most, last := order[..|order| - 1], order[|order| - 1];
      assert order == most + [last];
      assert Checks(order, now)[..|most|] == Checks(most, now);
      SweepSettles(env, b, most, now, m);
      CheckSettles(env, PerformAll(env, b, Checks(most, now)).book, last, now, m);
    }
  }

  lemma {:induction false} SweepDoes(env: Env, b: Book, order: seq<Mac>, now: int, k: Kind, m: Mac)
    requires Sound(b)
    ensures Only(PerformAll(env, b, Checks(order, now)).effects, k, m)
         == if m in order && m in b.devices && GoesOffline(env, b.devices[m], now)
            then OnLeaving(b.devices[m], now, b.learning, k) else []
  {
    hide Perform, OnLeaving, GoesOffline, Only;
    if order == [] {
      OnlyNone([], k, m);
    } else {
      var most, last := order[..|order| - 1], order[|order| - 1];
      assert order == most + [last];
      assert Checks(order, now)[..|most|] == Checks(most, now);
      SweepDoes(env, b, most, now, k, m);
      SweepSettles(env, b, most, now, m);
      PerformAllSound(env, b, Checks(most, now));
      var before := PerformAll(env, b, Checks(most, now));
      var o := Perform(env, before.book, Check(last, now));
      CheckDoes(env, before.book, last, now, k, m);
      OnlyAppend(before.effects, o.effects, k, m);
    }
  }

  lemma CheckSettles(env: Env, b: Book, mac: Mac, now: int, m: Mac)
    ensures var o := Perform(env, b, Check(mac, now));
            && o.book.learning == b.learning
            && (m in o.book.devices <==> m in b.devices)
            && (m in b.devices && m != mac ==> o.book.devices[m] == b.devices[m])
            && (m in b.devices && m == mac ==> !GoesOffline(env, o.book.devices[m], now))
  {
    hide SweepEffects;
  }

  // A call has exactly the effects its frame, report or sweep calls for, but for
  // evidence and new names: which device it creates, which session it opens or closes, which
  // stay, which address it records and what it announces, each with its contents.
  lemma CallDoes(env: Env, b: Book, step: Step, k: Kind, m: Mac)
    requires Sound(b) && Plain(k)
    ensures Only(Apply(env, b, step).effects, k, m) == CalledFor(env, b, step, k, m)
  {
    hide Perform, Attribute, IsGroup, IsRecordable, PerformAll, OnHearing, OnFirst, IsZero, Only, OnReport, OnLeaving, Shown,
         GoesOffline;
    if step.Observe? && IsDevice(step.obs.mac) {
      ObserveDoes(env, b, step.obs, k, m);
    } else if step.SetLocation? {
      PerformOne(env, b, Place(step.mac, step.ap, step.location, step.at));
      PlaceDoes(env, b, step.mac, step.ap, step.location, step.at, k, m);
    } else if step.Sweep? {
      assert Plan(env, b, step) == Checks(step.order, step.now);
      SweepDoes(env, b, step.order, step.now, k, m);
    } else {
      AllQuiet(env, b, Plan(env, b, step), k, m);
    }
  }

  // ---------- changes of address, over a run ----------

  // The call is a frame from the device that shows it using another IPv4 address
  // than the last one it was seen using.
  predicate ChangesAddress(before: seq<Step>, step: Step, m: Mac) {
    History.Heard(step, m) && MovesTo(LastV4(before, m), ShownV4(step.obs))
  }

  // After any history, the next call announces a change of address exactly when
  // it is one, once, with the new address, where and when it was seen.
  lemma IpChangedExactly(env: Env, learning: bool, steps: seq<Step>, next: Step, m: Mac)
    ensures var b := Run(env, learning, steps).book;
            var told := Only(Apply(env, b, next).effects, Announcing(IpChanged), m);
            if ChangesAddress(steps, next, m)
            then m in b.devices
                 && told == [Saying(b.devices[m], IpChanged, ShownV4(next.obs), Some(next.obs.interface), next.obs.observedAt, b.learning)]
            else told == []
  {
    hide Run, Apply, LastV4, CurrentV6, ShownV4, IsDevice, Only, BestOf, IsBlank, Trim, GoesOffline;
    RunSound(env, learning, steps);
    CallDoes(env, Run(env, learning, steps).book, next, Announcing(IpChanged), m);
    HeldIsHistory(env, learning, steps, m);
  }

  function AddressChanges(steps: seq<Step>, m: Mac): nat {
    if steps == [] then 0
    else
      var most := steps[..|steps| - 1];
      AddressChanges(most, m) + (if ChangesAddress(most, steps[|steps| - 1], m) then 1 else 0)
  }

  lemma {:induction false} EventsCounted(effects: seq<Effect>, t: EventType, m: Mac)
    ensures |Only(effects, Announcing(t), m)| == Count(effects, t, m)
  {
    if effects != [] { EventsCounted(effects[..|effects| - 1], t, m); }
  }

  // Over a whole run there are as many such events as changes of address.
  lemma {:induction false} IpChangesCounted(env: Env, learning: bool, steps: seq<Step>, m: Mac)
    ensures Count(Run(env, learning, steps).effects, IpChanged, m) == AddressChanges(steps, m)
  {
    hide Apply, ChangesAddress, Count, Saying;
    EventsCounted([], IpChanged, m);
    if steps != [] {
      var most, next := steps[..|steps| - 1], steps[|steps| - 1];
      IpChangesCounted(env, learning, most, m);
      var before := Run(env, learning, most);
      var effects := Apply(env, before.book, next).effects;
      IpChangedExactly(env, learning, most, next, m);
      OnlyAppend(before.effects, effects, Announcing(IpChanged), m);
      EventsCounted(before.effects, IpChanged, m);
      EventsCounted(effects, IpChanged, m);
      EventsCounted(before.effects + effects, IpChanged, m);
    }
  }

  // ---------- times ----------

  function TimeOf(e: Effect): int {
    match e
    case Discovered(snapshot) => snapshot.firstSeenAt
    case Event(event) => event.at
    case _ => e.at
  }

  ghost predicate AllAt(effects: seq<Effect>, at: int) {
    forall e :: e in effects ==> TimeOf(e) == at
  }

  // The time an operation is told.
  predicate OpAt(op: Op, at: int) {
    match op
    case Discover(obs) => obs.observedAt == at
    case Hear(obs, _, _, _) => obs.observedAt == at
    case Learn(_, _, t) => t == at
    case Place(_, _, _, t) => t == at
    case Check(_, t) => t == at
    case _ => true
  }

  lemma HearingAt(e: Entry, obs: Observation, mine: seq<Signal>, learning: bool, first: bool)
    ensures AllAt(HearingEffects(e, obs, mine, learning, first), obs.observedAt)
  {
    hide RevivalEffects, AddressEffects, NameEffects, Heard, Rescored, NonBlank;
    var at := obs.observedAt;
    var touched, heard := Touched(e, at), Heard(e, obs, mine);
    PartsAt(touched, Revived(touched), heard, Rescored(heard, at), obs, learning, first);
  }

  lemma PartsAt(e: Entry, f: Entry, before: Entry, after: Entry, obs: Observation, learning: bool, quiet: bool)
    ensures AllAt(RevivalEffects(e, obs, learning), obs.observedAt)
    ensures AllAt(AddressEffects(f, obs, learning), obs.observedAt)
    ensures AllAt(NameEffects(before, after, Some(obs.interface), obs.observedAt, learning, quiet), obs.observedAt)
  {
    hide IsBlank, BestOf, IsRecordable, IsLinkLocal, Ipv4Of, Trim, Addressed;
  }

  lemma PerformAt(env: Env, b: Book, op: Op, at: int)
    requires OpAt(op, at)
    ensures AllAt(Perform(env, b, op).effects, at)
  {
    hide HearingEffects, Heard, Rescored, Reclassified, Changes, Candidate, BestOf, Ipv4Of, Resolve, IsBlank, Trim, Merged,
         GoesOffline, Swept;
    if op.Hear? && op.obs.mac in b.devices {
      HearingAt(b.devices[op.obs.mac], op.obs, op.mine, b.learning, op.first);
    }
  }

  lemma {:induction false} PerformAllAt(env: Env, b: Book, ops: seq<Op>, at: int)
    requires forall op :: op in ops ==> OpAt(op, at)
    ensures AllAt(PerformAll(env, b, ops).effects, at)
  {
    hide Perform, OpAt, TimeOf;
    if ops != [] {
      var most, op := ops[..|ops| - 1], ops[|ops| - 1];
      assert op in ops;
      PerformAllAt(env, b, most, at);
      PerformAt(env, PerformAll(env, b, most).book, op, at);
    }
  }

  // When a call that is told a time takes place.
  function StepTime(step: Step): Option<int> {
    match step
    case Observe(obs) => Some(obs.observedAt)
    case AddSignal(_, _, at) => Some(at)
    case SetLocation(_, _, _, at) => Some(at)
    case Sweep(now, _) => Some(now)
    case _ => None
  }

  // Every effect of a call happens at the call's time; a call that is told none
  // has none.
  lemma EffectsAreTimed(env: Env, b: Book, step: Step)
    ensures StepTime(step).Some? ==> AllAt(Apply(env, b, step).effects, StepTime(step).value)
    ensures StepTime(step).None? ==> Apply(env, b, step).effects == []
  {
    hide Perform, PerformAll, Attribute, IsGroup, IsZero, IsRecordable, TimeOf;
    if StepTime(step).Some? {
      PerformAllAt(env, b, Plan(env, b, step), StepTime(step).value);
    } else {
      UntoldIsSilent(env, b, Plan(env, b, step));
    }
  }

  lemma {:induction false} UntoldIsSilent(env: Env, b: Book, ops: seq<Op>)
    requires forall op :: op in ops ==> op.Configure? || op.Write? || op.StopLearning? || op.Drain?
    ensures PerformAll(env, b, ops).effects == []
  {
    if ops != [] {
      assert ops[|ops| - 1] in ops;
      UntoldIsSilent(env, b, ops[..|ops| - 1]);
    }
  }
}
