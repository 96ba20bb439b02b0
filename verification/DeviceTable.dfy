/**
 The device state machine, on values.

 A `Book` is everything the manager holds.  What the manager does is broken into
 operations on one device or one index entry (`Op`); `Perform` gives the effect
 of one, and every manager call is a sequence of them.  Hash-map iteration order
 is not specified by the source, so the calls that iterate take the order as an
 argument.
 */
module DeviceTable {
  import opened Options
  import opened Types
  import opened Identities

  // ---------- configuration and the parts decided elsewhere ----------

  datatype TimeoutOverride = TimeoutOverride(idle: Option<nat>, offline: Option<nat>)

  datatype StateConfig = StateConfig(idleTimeout: nat, offlineTimeout: nat, overrides: map<string, TimeoutOverride>) {
    function IdleFor(deviceType: Option<string>): nat {
      if deviceType.Some? && deviceType.value in overrides
      then overrides[deviceType.value].idle.GetOr(idleTimeout)
      else idleTimeout
    }

    // Never less than the idle timeout, or the idle state would be unreachable.
    function OfflineFor(deviceType: Option<string>): (t: nat)
      ensures t >= IdleFor(deviceType)
    {
      var base := if deviceType.Some? && deviceType.value in overrides
                  then overrides[deviceType.value].offline.GetOr(offlineTimeout)
                  else offlineTimeout;
      if base < IdleFor(deviceType) then IdleFor(deviceType) else base
    }
  }

  datatype Classification = Classification(
    deviceType: Option<string>, osFamily: Option<string>, confidence: nat, reason: Option<string>)

  const UNCLASSIFIED := Classification(None, None, 0, None)

  // The classifier and the vendor registry are fixed but arbitrary.
  datatype Env = Env(
    config: StateConfig,
    classify: (Mac, seq<Signal>, Option<string>, bool) -> Classification,
    vendorOf: Mac -> Option<string>)

  const ALWAYS_ON_HOURS: nat := 24

  // ---------- entries ----------

  datatype DeviceState = Online | Idle | Offline

  // An equal-rank candidate and when it first won.
  datatype Pending = Pending(identity: Identity, since: int)

  const U32_MAX: nat := 0xFFFF_FFFF

  datatype Entry = Entry(
    mac: Mac,
    state: DeviceState,
    firstSeenAt: int,
    lastSeenAt: int,
    lastIp: Option<Ipv4>,
    lastIpv6: Option<Ipv6>,
    lastInterface: Option<string>,
    signals: seq<Signal>,
    identity: Identity,
    pending: Option<Pending>,
    classification: Classification,
    displayName: Option<string>,
    currentAp: Option<string>,
    currentLocation: Option<string>,
    baseline: bool,
    notify: bool,
    offlineTransitions: nat,
    observationsSinceFlush: nat,
    dirty: bool)
  {
    predicate Holds(a: IpAddr) {
      match a
      case V4(v4) => lastIp == Some(v4)
      case V6(v6) => lastIpv6 == Some(v6)
    }

    function CurrentAddresses(): (held: seq<IpAddr>)
      ensures forall a :: a in held <==> Holds(a)
    {
      (if lastIp.Some? then [V4(lastIp.value)] else []) + (if lastIpv6.Some? then [V6(lastIpv6.value)] else [])
    }

    function Best(kind: SignalKind): Option<string> {
      BestOf(signals, kind)
    }

    // The name to show a human.
    function Display(): string {
      if displayName.Some? && !IsBlank(displayName.value) then Trim(displayName.value) else identity.displayName
    }

    predicate AlwaysOn(now: int) {
      offlineTransitions == 0 && state != Offline && now - firstSeenAt >= ALWAYS_ON_HOURS * HOUR
    }

    function Snapshot(): DeviceSnapshot {
      DeviceSnapshot(
        mac, state, lastIp, lastIpv6, lastInterface, firstSeenAt, lastSeenAt, baseline, identity, displayName,
        Best(ReverseDns), Best(MdnsName), Best(Vendor), classification.deviceType,
        if classification.deviceType.Some? then Some(classification.confidence) else None,
        classification.osFamily, currentAp, currentLocation, observationsSinceFlush)
    }
  }

  // The most recently confirmed non-blank value of one kind.
  function BestOf(signals: seq<Signal>, kind: SignalKind): Option<string> {
    if signals == [] then None
    else if signals[0].kind == kind && !IsBlank(signals[0].value) then Some(signals[0].value)
    else BestOf(signals[1..], kind)
  }

  // What the daemon writes to a device's row.
  datatype DeviceSnapshot = DeviceSnapshot(
    mac: Mac,
    state: DeviceState,
    lastIp: Option<Ipv4>,
    lastIpv6: Option<Ipv6>,
    lastInterface: Option<string>,
    firstSeenAt: int,
    lastSeenAt: int,
    baseline: bool,
    identity: Identity,
    displayName: Option<string>,
    hostname: Option<string>,
    mdnsName: Option<string>,
    vendor: Option<string>,
    deviceType: Option<string>,
    deviceTypeConfidence: Option<nat>,
    osFamily: Option<string>,
    currentAp: Option<string>,
    currentLocation: Option<string>,
    observationsSinceFlush: nat)

  // ---------- effects ----------

  datatype EventType = NewDevice | Returned | IpChanged | NameUpdated | WentOffline | DeviceLocationChanged

  datatype DeviceEvent = DeviceEvent(
    eventType: EventType,
    mac: Mac,
    displayName: string,
    vendor: Option<string>,
    ip: Option<Ipv4>,
    interface: Option<string>,
    at: int,
    baseline: bool,
    duringLearning: bool,
    notify: bool)

  datatype Effect =
    | Discovered(snapshot: DeviceSnapshot)
    | Event(event: DeviceEvent)
    | Evidence(subject: Mac, signal: Signal, at: int)
    | Address(subject: Mac, ip: IpAddr, interface: string, at: int)
    | PresenceOpened(subject: Mac, interface: string, openIp: Option<Ipv4>, at: int)
    | PresenceClosed(subject: Mac, at: int)
    | LocationChanged(subject: Mac, ap: string, location: string, at: int)
    | LocationClosed(subject: Mac, at: int)
  {
    function Device(): Mac {
      match this
      case Discovered(s) => s.mac
      case Event(e) => e.mac
      case _ => subject
    }

    predicate Announces(t: EventType, m: Mac) {
      Event? && event.eventType == t && event.mac == m
    }
  }

  function EventFor(e: Entry, t: EventType, ip: Option<Ipv4>, interface: Option<string>, at: int, learning: bool): Effect {
    Event(DeviceEvent(t, e.mac, e.Display(), e.Best(Vendor), ip, interface, at, e.baseline, learning, e.notify))
  }

  datatype Reclassification = Reclassification(
    mac: Mac, displayName: string, previous: Classification, current: Classification,
    interface: Option<string>, at: int)

  datatype UserSettings = UserSettings(mac: Mac, displayName: Option<string>, notify: bool)

  // ---------- the book and what a call hands back ----------

  datatype Book = Book(
    devices: map<Mac, Entry>,
    addresses: map<IpAddr, Mac>,
    learning: bool,
    reclassifications: seq<Reclassification>,
    unattributed: nat)

  function EmptyBook(learning: bool): Book {
    Book(map[], map[], learning, [], 0)
  }

  // One call of the rename decision, kept so that a run's naming can be read
  // off it; the program does not return it.
  datatype Rescoring = Rescoring(mac: Mac, candidate: Identity, at: int)

  datatype Outcome = Outcome(
    book: Book, effects: seq<Effect>, flushed: seq<DeviceSnapshot>, rescorings: seq<Rescoring>)
  {
    function Then(next: Outcome): Outcome {
      Outcome(next.book, effects + next.effects, flushed + next.flushed, rescorings + next.rescorings)
    }
  }

  function Silent(b: Book): Outcome {
    Outcome(b, [], [], [])
  }

  // ---------- evidence bookkeeping ----------

  ghost predicate NoDup<T>(s: seq<T>) {
    forall i, j :: 0 <= i < j < |s| ==> s[i] != s[j]
  }

  // First occurrences, in order.
  function Firsts(incoming: seq<Signal>): seq<Signal> {
    if incoming == [] then []
    else
      var most := Firsts(incoming[..|incoming| - 1]);
      var last := incoming[|incoming| - 1];
      if last in most then most else most + [last]
  }

  function Without(signals: seq<Signal>, gone: seq<Signal>): seq<Signal> {
    if signals == [] then []
    else (if signals[0] in gone then [] else [signals[0]]) + Without(signals[1..], gone)
  }

  // The batch goes to the front as a block, repeats dropped.
  function Merged(signals: seq<Signal>, incoming: seq<Signal>): seq<Signal> {
    Firsts(incoming) + Without(signals, incoming)
  }

  function NonBlank(signals: seq<Signal>): seq<Signal> {
    if signals == [] then []
    else
      var most := NonBlank(signals[..|signals| - 1]);
      var last := signals[|signals| - 1];
      if IsBlank(last.value) then most else most + [last]
  }

  function EvidenceEffects(mac: Mac, signals: seq<Signal>, at: int): (effects: seq<Effect>)
    ensures |effects| == |signals|
    ensures forall i :: 0 <= i < |effects| ==> effects[i] == Evidence(mac, signals[i], at)
  {
    if signals == [] then []
    else EvidenceEffects(mac, signals[..|signals| - 1], at) + [Evidence(mac, signals[|signals| - 1], at)]
  }

  // ---------- naming ----------

  datatype Naming = Naming(identity: Identity, pending: Option<Pending>)

  // The rename decision: better is adopted at once, an equal-rank rival only
  // after an unbroken run of wins as long as the settle window.
  function Consider(n: Naming, candidate: Identity, now: int): Naming {
    match Compare(candidate, n.identity)
    case Worse => Naming(n.identity, None)
    case Same => Naming(n.identity, None)
    case Better => Naming(candidate, None)
    case Rival =>
      var since := if n.pending.Some? && n.pending.value.identity.displayName == candidate.displayName
                   then n.pending.value.since else now;
      if Settled(since, now) then Naming(candidate, None) else Naming(n.identity, Some(Pending(candidate, since)))
  }

  function Candidate(e: Entry): Identity {
    Resolve(e.mac, e.signals, e.classification.deviceType)
  }

  function Rescored(e: Entry, now: int): Entry {
    var n := Consider(Naming(e.identity, e.pending), Candidate(e), now);
    e.(identity := n.identity, pending := n.pending)
  }

  // ---------- classification ----------

  function Reclassified(env: Env, e: Entry, now: int): Entry {
    e.(classification := env.classify(e.mac, e.signals, e.Best(Vendor), e.AlwaysOn(now)))
  }

  predicate ChangedAtAll(current: Classification, previous: Classification) {
    previous.deviceType != current.deviceType || previous.osFamily != current.osFamily
  }

  function Changes(before: Entry, after: Entry, interface: Option<string>, at: int): seq<Reclassification> {
    if ChangedAtAll(after.classification, before.classification)
    then [Reclassification(after.mac, after.Display(), before.classification, after.classification, interface, at)]
    else []
  }

  // ---------- discovery ----------

  function VendorSignals(env: Env, mac: Mac): seq<Signal> {
    var v := env.vendorOf(mac);
    if v.Some? then [Signal(Vendor, v.value)] else []
  }

  function NewEntry(env: Env, obs: Observation, learning: bool): Entry {
    var signals := VendorSignals(env, obs.mac);
    Entry(obs.mac, Online, obs.observedAt, obs.observedAt, None, None, Some(obs.interface), signals,
          Resolve(obs.mac, signals, None), None, UNCLASSIFIED, None, None, None, learning, true, 0, 0, true)
  }

  function DiscoveryEffects(e: Entry, obs: Observation, learning: bool): seq<Effect> {
    [Discovered(e.Snapshot())]
    + (if e.Best(Vendor).Some? then [Evidence(obs.mac, Signal(Vendor, e.Best(Vendor).value), obs.observedAt)] else [])
    + [PresenceOpened(obs.mac, obs.interface, Ipv4Of(obs.ip), obs.observedAt),
       EventFor(e, NewDevice, Ipv4Of(obs.ip), Some(obs.interface), obs.observedAt, learning)]
  }

  // ---------- the sender of a frame ----------

  // Heard from: the clock never runs backwards, the counter never misses.
  function Touched(e: Entry, at: int): Entry {
    e.(lastSeenAt := if at > e.lastSeenAt then at else e.lastSeenAt,
       observationsSinceFlush := e.observationsSinceFlush + 1,
       dirty := true)
  }

  function Revived(e: Entry): Entry {
    e.(state := Online)
  }

  function RevivalEffects(before: Entry, obs: Observation, learning: bool): seq<Effect> {
    if before.state != Offline then []
    else
      var e := Revived(before);
      [PresenceOpened(e.mac, obs.interface, Ipv4Of(obs.ip), obs.observedAt),
       EventFor(e, Returned, Ipv4Of(obs.ip), Some(obs.interface), obs.observedAt, learning)]
  }

  // A link-local address never displaces a global one.
  function WithIpv6(e: Entry, a: Ipv6): Entry {
    if IsLinkLocal(a) && e.lastIpv6.Some? && !IsLinkLocal(e.lastIpv6.value) then e else e.(lastIpv6 := Some(a))
  }

  function Addressed(e: Entry, ip: Option<IpAddr>): Entry {
    if ip.Some? && IsRecordable(ip.value) then
      match ip.value
      case V4(a) => e.(lastIp := Some(a))
      case V6(a) => WithIpv6(e, a)
    else e
  }

  // An address change is announced for IPv4 only.
  function AddressEffects(before: Entry, obs: Observation, learning: bool): seq<Effect> {
    if obs.ip.Some? && IsRecordable(obs.ip.value) then
      [Address(before.mac, obs.ip.value, obs.interface, obs.observedAt)]
      + (if obs.ip.value.V4? && before.lastIp.Some? && before.lastIp.value != obs.ip.value.v4
         then [EventFor(Addressed(before, obs.ip), IpChanged, Some(obs.ip.value.v4), Some(obs.interface), obs.observedAt, learning)]
         else [])
    else []
  }

  function Informed(e: Entry, interface: string, usable: seq<Signal>): Entry {
    e.(lastInterface := Some(interface), signals := Merged(e.signals, usable))
  }

  function NameEffects(before: Entry, after: Entry, interface: Option<string>, at: int, learning: bool, quiet: bool): seq<Effect> {
    if before.identity != after.identity && !quiet
    then [EventFor(after, NameUpdated, after.lastIp, interface, at, learning)]
    else []
  }

  // The sender's entry after each stage of a frame.
  function Located(e: Entry, obs: Observation): Entry {
    Addressed(Revived(Touched(e, obs.observedAt)), obs.ip)
  }

  function Heard(e: Entry, obs: Observation, mine: seq<Signal>): Entry {
    Informed(Located(e, obs), obs.interface, NonBlank(obs.signals) + mine)
  }

  function HearingEffects(e: Entry, obs: Observation, mine: seq<Signal>, learning: bool, first: bool): seq<Effect> {
    var at := obs.observedAt;
    var touched := Touched(e, at);
    RevivalEffects(touched, obs, learning)
    + AddressEffects(Revived(touched), obs, learning)
    + EvidenceEffects(e.mac, NonBlank(obs.signals) + mine, at)
    + NameEffects(Heard(e, obs, mine), Rescored(Heard(e, obs, mine), at), Some(obs.interface), at, learning, first)
  }

  // ---------- sweeping ----------

  function Silence(e: Entry, now: int): nat {
    if now > e.lastSeenAt then now - e.lastSeenAt else 0
  }

  predicate GoesOffline(env: Env, e: Entry, now: int) {
    e.state != Offline && Silence(e, now) >= env.config.OfflineFor(e.classification.deviceType)
  }

  function Swept(env: Env, e: Entry, now: int): Entry {
    if e.state == Offline then e
    else if GoesOffline(env, e, now) then
      e.(state := Offline, dirty := true,
         offlineTransitions := if e.offlineTransitions < U32_MAX then e.offlineTransitions + 1 else e.offlineTransitions,
         currentAp := None,
         currentLocation := if e.currentAp.Some? then None else e.currentLocation)
    else if Silence(e, now) >= env.config.IdleFor(e.classification.deviceType) && e.state == Online then
      e.(state := Idle, dirty := true)
    else e
  }

  function SweepEffects(env: Env, e: Entry, now: int, learning: bool): seq<Effect> {
    if !GoesOffline(env, e, now) then []
    else
      [PresenceClosed(e.mac, now)]
      + (if e.currentAp.Some? then [LocationClosed(e.mac, now)] else [])
      + [EventFor(Swept(env, e, now), WentOffline, e.lastIp, e.lastInterface, now, learning)]
  }

  // ---------- operations ----------

  datatype Op =
    | Discover(obs: Observation)
    | Index(ip: IpAddr, mac: Mac)
    | Hear(obs: Observation, mine: seq<Signal>, unattributed: nat, first: bool)
    | Learn(mac: Mac, signal: Signal, at: int)
    | Place(mac: Mac, ap: string, location: string, at: int)
    | Check(mac: Mac, now: int)
    | Configure(setting: UserSettings)
    | Write(mac: Mac)
    | StopLearning
    | Drain

  function Perform(env: Env, b: Book, op: Op): Outcome {
    match op
    case Discover(obs) => PerformDiscover(env, b, obs)
    case Index(ip, mac) => Silent(b.(addresses := b.addresses[ip := mac]))
    case Hear(obs, mine, unattributed, first) => PerformHear(env, b, obs, mine, unattributed, first)
    case Learn(mac, signal, at) => PerformLearn(env, b, mac, signal, at)
    case Place(mac, ap, location, at) => PerformPlace(b, mac, ap, location, at)
    case Check(mac, now) => PerformCheck(env, b, mac, now)
    case Configure(setting) => PerformConfigure(b, setting)
    case Write(mac) => PerformWrite(b, mac)
    case StopLearning => Silent(b.(learning := false))
    case Drain => Silent(b.(reclassifications := []))
  }

  function With(b: Book, mac: Mac, e: Entry): Book {
    b.(devices := b.devices[mac := e])
  }

  function PerformDiscover(env: Env, b: Book, obs: Observation): Outcome {
    if obs.mac in b.devices then Silent(b)
    else
      var e := NewEntry(env, obs, b.learning);
      Outcome(With(b, obs.mac, e), DiscoveryEffects(e, obs, b.learning), [], [])
  }

  function PerformHear(env: Env, b: Book, obs: Observation, mine: seq<Signal>, unattributed: nat, first: bool): Outcome {
    if obs.mac !in b.devices then Silent(b)
    else
      var at := obs.observedAt;
      var e := b.devices[obs.mac];
      var named := Rescored(Heard(e, obs, mine), at);
      var after := Reclassified(env, named, at);
      Outcome(
        With(b, obs.mac, after).(
          unattributed := b.unattributed + unattributed,
          reclassifications := b.reclassifications + Changes(named, after, Some(obs.interface), at)),
        HearingEffects(e, obs, mine, b.learning, first),
        [],
        [Rescoring(obs.mac, Candidate(Heard(e, obs, mine)), at)])
  }

  function PerformLearn(env: Env, b: Book, mac: Mac, signal: Signal, at: int): Outcome {
    if IsBlank(signal.value) || mac !in b.devices then Silent(b)
    else
      var e := b.devices[mac];
      var isNew := signal !in e.signals;
      var informed := e.(signals := Merged(e.signals, [signal]), dirty := true);
      var named := if isNew then Rescored(informed, at) else informed;
      var after := Reclassified(env, named, at);
      Outcome(
        With(b, mac, after).(
          reclassifications := b.reclassifications + Changes(named, after, e.lastInterface, at)),
        [Evidence(mac, signal, at)] + NameEffects(informed, named, e.lastInterface, at, b.learning, false),
        [],
        if isNew then [Rescoring(mac, Candidate(informed), at)] else [])
  }

  function PerformPlace(b: Book, mac: Mac, ap: string, location: string, at: int): Outcome {
    if mac !in b.devices || b.devices[mac].currentAp == Some(ap) then Silent(b)
    else
      var e := b.devices[mac].(currentAp := Some(ap), currentLocation := Some(location), dirty := true);
      Outcome(
        With(b, mac, e),
        [LocationChanged(mac, ap, location, at),
         EventFor(e, DeviceLocationChanged, e.lastIp, e.lastInterface, at, b.learning)],
        [], [])
  }

  function PerformCheck(env: Env, b: Book, mac: Mac, now: int): Outcome {
    if mac !in b.devices then Silent(b)
    else
      var e := b.devices[mac];
      Outcome(With(b, mac, Swept(env, e, now)), SweepEffects(env, e, now, b.learning), [], [])
  }

  function Configured(e: Entry, setting: UserSettings): Entry {
    e.(displayName := setting.displayName, notify := setting.notify)
  }

  // One value of the user's that an edit changed, as text.
  datatype UserChange = UserChange(mac: Mac, column: string, from: string, to: string)

  function BoolText(b: bool): string {
    if b then "true" else "false"
  }

  // The columns in which an edit differs from the entry.
  function Edits(e: Entry, setting: UserSettings): seq<UserChange> {
    (if e.displayName == setting.displayName then []
     else [UserChange(setting.mac, "display_name", e.displayName.GetOr(""), setting.displayName.GetOr(""))])
    + (if e.notify == setting.notify then []
       else [UserChange(setting.mac, "notify", BoolText(e.notify), BoolText(setting.notify))])
  }

  function PerformConfigure(b: Book, setting: UserSettings): Outcome {
    if setting.mac !in b.devices then Silent(b)
    else Silent(With(b, setting.mac, Configured(b.devices[setting.mac], setting)))
  }

  function PerformWrite(b: Book, mac: Mac): Outcome {
    if mac !in b.devices || !b.devices[mac].dirty then Silent(b)
    else
      var e := b.devices[mac];
      Outcome(With(b, mac, e.(dirty := false, observationsSinceFlush := 0)), [], [e.Snapshot()], [])
  }

  function PerformAll(env: Env, b: Book, ops: seq<Op>): Outcome {
    if ops == [] then Silent(b)
    else
      var before := PerformAll(env, b, ops[..|ops| - 1]);
      before.Then(Perform(env, before.book, ops[|ops| - 1]))
  }

  // ---------- attribution ----------

  // Which device holds an address: the index entry, believed only when the
  // device still uses the address.
  function HolderOf(b: Book, a: IpAddr): Option<Mac> {
    if a in b.addresses && b.addresses[a] in b.devices && b.devices[b.addresses[a]].Holds(a)
    then Some(b.addresses[a])
    else None
  }

  function FirstHolder(b: Book, addresses: seq<IpAddr>): Option<Mac> {
    if addresses == [] then None
    else if HolderOf(b, addresses[0]).Some? then HolderOf(b, addresses[0])
    else FirstHolder(b, addresses[1..])
  }

  function SenderAddresses(b: Book, obs: Observation): seq<IpAddr> {
    var held := if obs.mac in b.devices then b.devices[obs.mac].CurrentAddresses() else [];
    if obs.ip.Some? && obs.ip.value !in held then held + [obs.ip.value] else held
  }

  predicate SpeaksForOthers(b: Book, obs: Observation) {
    exists c :: c in obs.claims && c.addresses != [] && !c.Matches(SenderAddresses(b, obs))
  }

  datatype Attributed = Attributed(mine: seq<Signal>, others: seq<(Mac, Signal)>, unattributed: nat)

  function AttributeOne(b: Book, obs: Observation, claim: NameClaim, sofar: Attributed): Attributed {
    var keep := sofar.(mine := sofar.mine + [claim.signal]);
    var nobody := sofar.(unattributed := sofar.unattributed + 1);
    if IsBlank(claim.signal.value) then sofar
    else if claim.addresses == [] then
      if SpeaksForOthers(b, obs) then nobody else keep
    else if claim.Matches(SenderAddresses(b, obs)) then keep
    else
      match FirstHolder(b, claim.addresses)
      case Some(mac) => if mac == obs.mac then keep else sofar.(others := sofar.others + [(mac, claim.signal)])
      case None => nobody
  }

  function AttributeAll(b: Book, obs: Observation, claims: seq<NameClaim>): Attributed {
    if claims == [] then Attributed([], [], 0)
    else AttributeOne(b, obs, claims[|claims| - 1], AttributeAll(b, obs, claims[..|claims| - 1]))
  }

  function Attribute(b: Book, obs: Observation): Attributed {
    AttributeAll(b, obs, obs.claims)
  }

  // ---------- manager calls as operations ----------

  datatype Step =
    | Observe(obs: Observation)
    | AddSignal(mac: Mac, signal: Signal, at: int)
    | SetLocation(mac: Mac, ap: string, location: string, at: int)
    | Sweep(now: int, order: seq<Mac>)
    | ApplyUserSettings(settings: seq<UserSettings>)
    | TakeDirty(order: seq<Mac>)
    | EndLearning
    | TakeReclassifications

  predicate IsDevice(m: Mac) {
    !IsGroup(m) && !IsZero(m)
  }

  // What happens before anybody asks whose evidence a frame carries.
  function Arrival(b: Book, obs: Observation): seq<Op> {
    (if obs.mac in b.devices then [] else [Discover(obs)])
    + (if obs.ip.Some? && IsRecordable(obs.ip.value) then [Index(obs.ip.value, obs.mac)] else [])
  }

  function Learns(others: seq<(Mac, Signal)>, at: int): (ops: seq<Op>)
    ensures |ops| == |others|
    ensures forall i :: 0 <= i < |ops| ==> ops[i] == Learn(others[i].0, others[i].1, at)
  {
    if others == [] then []
    else Learns(others[..|others| - 1], at) + [Learn(others[|others| - 1].0, others[|others| - 1].1, at)]
  }

  function ObserveOps(env: Env, b: Book, obs: Observation): seq<Op> {
    if !IsDevice(obs.mac) then []
    else
      var arrival := Arrival(b, obs);
      var att := Attribute(PerformAll(env, b, arrival).book, obs);
      arrival
      + [Hear(obs, att.mine, att.unattributed, obs.mac !in b.devices)]
      + Learns(att.others, obs.observedAt)
  }

  function Plan(env: Env, b: Book, step: Step): seq<Op> {
    match step
    case Observe(obs) => ObserveOps(env, b, obs)
    case AddSignal(mac, signal, at) => [Learn(mac, signal, at)]
    case SetLocation(mac, ap, location, at) => [Place(mac, ap, location, at)]
    case Sweep(now, order) => seq(|order|, i requires 0 <= i < |order| => Check(order[i], now))
    case ApplyUserSettings(settings) => seq(|settings|, i requires 0 <= i < |settings| => Configure(settings[i]))
    case TakeDirty(order) => seq(|order|, i requires 0 <= i < |order| => Write(order[i]))
    case EndLearning => [StopLearning]
    case TakeReclassifications => [Drain]
  }

  function Apply(env: Env, b: Book, step: Step): Outcome {
    PerformAll(env, b, Plan(env, b, step))
  }

  // What a batch of edits reports, each against the table as it then is.
  function Reported(env: Env, b: Book, settings: seq<UserSettings>): seq<UserChange> {
    if settings == [] then []
    else
      var most, last := settings[..|settings| - 1], settings[|settings| - 1];
      var before := Apply(env, b, ApplyUserSettings(most)).book;
      Reported(env, b, most) + if last.mac in before.devices then Edits(before.devices[last.mac], last) else []
  }

  // A whole run, from an empty table.
  function Run(env: Env, learning: bool, steps: seq<Step>): Outcome {
    if steps == [] then Silent(EmptyBook(learning))
    else
      var before := Run(env, learning, steps[..|steps| - 1]);
      before.Then(Apply(env, before.book, steps[|steps| - 1]))
  }

  // The calls that iterate visit every device exactly once.
  ghost predicate Enumerates(order: seq<Mac>, devices: map<Mac, Entry>) {
    NoDup(order) && forall m :: m in order <==> m in devices
  }

  ghost predicate Feasible(b: Book, step: Step) {
    match step
    case Sweep(_, order) => Enumerates(order, b.devices)
    case TakeDirty(order) => Enumerates(order, b.devices)
    case _ => true
  }

  ghost predicate FeasibleRun(env: Env, learning: bool, steps: seq<Step>) {
    steps == []
    || (FeasibleRun(env, learning, steps[..|steps| - 1])
        && Feasible(Run(env, learning, steps[..|steps| - 1]).book, steps[|steps| - 1]))
  }
}
