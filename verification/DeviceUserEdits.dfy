/**
 Non-interference: the user's edits reach the display name and the notification
 flag, and nothing else the daemon holds, decides or emits.
 */
module DeviceUserEdits {
  import opened Options
  import opened Types
  import opened Identities
  import opened DeviceTable
  import opened DeviceTableFacts

  // ---------- forgetting what users own ----------

  function EraseEntry(e: Entry): Entry {
    e.(displayName := None, notify := true)
  }

  function EraseReclassification(r: Reclassification): Reclassification {
    r.(displayName := "")
  }

  function EraseEffect(e: Effect): Effect {
    match e
    case Event(event) => Event(event.(displayName := "", notify := true))
    case Discovered(snapshot) => Discovered(snapshot.(displayName := None))
    case _ => e
  }

  function EraseReclassifications(rs: seq<Reclassification>): seq<Reclassification> {
    seq(|rs|, i requires 0 <= i < |rs| => EraseReclassification(rs[i]))
  }

  function EraseEffects(effects: seq<Effect>): seq<Effect> {
    seq(|effects|, i requires 0 <= i < |effects| => EraseEffect(effects[i]))
  }

  function EraseSnapshots(snapshots: seq<DeviceSnapshot>): seq<DeviceSnapshot> {
    seq(|snapshots|, i requires 0 <= i < |snapshots| => snapshots[i].(displayName := None))
  }

  function EraseDevices(devices: map<Mac, Entry>): map<Mac, Entry> {
    map m | m in devices :: EraseEntry(devices[m])
  }

  function EraseBook(b: Book): Book {
    b.(devices := EraseDevices(b.devices), reclassifications := EraseReclassifications(b.reclassifications))
  }

  function Erase(o: Outcome): Outcome {
    Outcome(EraseBook(o.book), EraseEffects(o.effects), EraseSnapshots(o.flushed), o.rescorings)
  }

  lemma EraseAppend(first: seq<Effect>, next: seq<Effect>)
    ensures EraseEffects(first + next) == EraseEffects(first) + EraseEffects(next)
  {}

  lemma EraseThen(first: Outcome, next: Outcome)
    ensures Erase(first.Then(next)) == Erase(first).Then(Erase(next))
  {
    assert EraseSnapshots(first.flushed + next.flushed) == EraseSnapshots(first.flushed) + EraseSnapshots(next.flushed);
    EraseAppend(first.effects, next.effects);
  }

  lemma EraseWith(b: Book, m: Mac, e: Entry)
    ensures EraseBook(With(b, m, e)) == With(EraseBook(b), m, EraseEntry(e))
  {}

  lemma EraseIdempotent(b: Book)
    ensures EraseBook(EraseBook(b)) == EraseBook(b)
  {
    assert EraseDevices(EraseDevices(b.devices)) == EraseDevices(b.devices);
    assert EraseReclassifications(EraseReclassifications(b.reclassifications)) == EraseReclassifications(b.reclassifications);
  }

  // ---------- each stage of a frame is blind to what was erased ----------

  lemma LocatedBlind(e: Entry, obs: Observation)
    ensures Located(EraseEntry(e), obs) == EraseEntry(Located(e, obs))
  {
    hide IsHostV4, IsLinkLocal, IsMulticastV6;
  }

  lemma InformedBlind(e: Entry, interface: string, usable: seq<Signal>)
    ensures Informed(EraseEntry(e), interface, usable) == EraseEntry(Informed(e, interface, usable))
  {
    hide Merged;
  }

  lemma RescoredBlind(e: Entry, at: int)
    ensures Rescored(EraseEntry(e), at) == EraseEntry(Rescored(e, at))
  {
    hide Consider, Resolve;
  }

  lemma ReclassifiedBlind(env: Env, e: Entry, at: int)
    ensures Reclassified(env, EraseEntry(e), at) == EraseEntry(Reclassified(env, e, at))
  {
    hide BestOf;
  }

  lemma SweptBlind(env: Env, e: Entry, at: int)
    ensures Swept(env, EraseEntry(e), at) == EraseEntry(Swept(env, e, at))
    ensures GoesOffline(env, EraseEntry(e), at) == GoesOffline(env, e, at)
  {}

  lemma HeardBlind(env: Env, e: Entry, obs: Observation, mine: seq<Signal>, at: int)
    ensures Heard(EraseEntry(e), obs, mine) == EraseEntry(Heard(e, obs, mine))
    ensures Rescored(EraseEntry(e), at) == EraseEntry(Rescored(e, at))
    ensures Reclassified(env, EraseEntry(e), at) == EraseEntry(Reclassified(env, e, at))
    ensures Swept(env, EraseEntry(e), at) == EraseEntry(Swept(env, e, at))
  {
    hide EraseEntry, Located, Informed, Rescored, Reclassified, Swept, NonBlank;
    LocatedBlind(e, obs);
    InformedBlind(Located(e, obs), obs.interface, NonBlank(obs.signals) + mine);
    RescoredBlind(e, at);
    ReclassifiedBlind(env, e, at);
    SweptBlind(env, e, at);
  }

  lemma EventBlind(e: Entry, f: Entry, t: EventType, ip: Option<Ipv4>, interface: Option<string>, at: int, learning: bool)
    requires EraseEntry(e) == EraseEntry(f)
    ensures EraseEffect(EventFor(e, t, ip, interface, at, learning)) == EraseEffect(EventFor(f, t, ip, interface, at, learning))
  {
    hide IsBlank, BestOf, Trim;
  }

  lemma RevivalBlind(e: Entry, obs: Observation, learning: bool)
    ensures EraseEffects(RevivalEffects(e, obs, learning)) == EraseEffects(RevivalEffects(EraseEntry(e), obs, learning))
  {
    hide EventFor, Ipv4Of, EraseEffect;
    EventBlind(Revived(e), Revived(EraseEntry(e)), Returned, Ipv4Of(obs.ip), Some(obs.interface), obs.observedAt, learning);
    OtherEffectsKept();
  }

  lemma OtherEffectsKept()
    ensures forall e: Effect :: !e.Event? && !e.Discovered? ==> EraseEffect(e) == e
  {}

  lemma AddressBlind(e: Entry, obs: Observation, learning: bool)
    ensures EraseEffects(AddressEffects(e, obs, learning)) == EraseEffects(AddressEffects(EraseEntry(e), obs, learning))
  {
    hide EventFor, IsHostV4, IsLinkLocal, EraseEffect;
    if obs.ip.Some? && IsRecordable(obs.ip.value) && obs.ip.value.V4? {
      EventBlind(Addressed(e, obs.ip), Addressed(EraseEntry(e), obs.ip), IpChanged, Some(obs.ip.value.v4),
                 Some(obs.interface), obs.observedAt, learning);
    }
  }

  lemma NameBlind(before: Entry, after: Entry, interface: Option<string>, at: int, learning: bool, quiet: bool)
    ensures EraseEffects(NameEffects(before, after, interface, at, learning, quiet))
         == EraseEffects(NameEffects(EraseEntry(before), EraseEntry(after), interface, at, learning, quiet))
  {
    hide EventFor;
    EventBlind(after, EraseEntry(after), NameUpdated, after.lastIp, interface, at, learning);
  }

  lemma HearingBlind(env: Env, e: Entry, obs: Observation, mine: seq<Signal>, learning: bool, first: bool)
    ensures EraseEffects(HearingEffects(e, obs, mine, learning, first))
         == EraseEffects(HearingEffects(EraseEntry(e), obs, mine, learning, first))
  {
    hide RevivalEffects, AddressEffects, NameEffects, EraseEffects, Heard, Rescored, NonBlank, EvidenceEffects;
    var at := obs.observedAt;
    var f := EraseEntry(e);
    var heard := Heard(e, obs, mine);
    RevivalBlind(Touched(e, at), obs, learning);
    AddressBlind(Revived(Touched(e, at)), obs, learning);
    HeardBlind(env, e, obs, mine, at);
    HeardBlind(env, heard, obs, mine, at);
    NameBlind(heard, Rescored(heard, at), Some(obs.interface), at, learning, first);
    HearingSplit(e, obs, mine, learning, first);
    HearingSplit(f, obs, mine, learning, first);
  }

  lemma HearingSplit(e: Entry, obs: Observation, mine: seq<Signal>, learning: bool, first: bool)
    ensures var at := obs.observedAt;
            var heard := Heard(e, obs, mine);
            EraseEffects(HearingEffects(e, obs, mine, learning, first))
            == EraseEffects(RevivalEffects(Touched(e, at), obs, learning))
               + EraseEffects(AddressEffects(Revived(Touched(e, at)), obs, learning))
               + EraseEffects(EvidenceEffects(e.mac, NonBlank(obs.signals) + mine, at))
               + EraseEffects(NameEffects(heard, Rescored(heard, at), Some(obs.interface), at, learning, first))
  {
    hide RevivalEffects, AddressEffects, NameEffects, EraseEffects, Heard, Rescored, NonBlank, EvidenceEffects;
    var at := obs.observedAt;
    var heard := Heard(e, obs, mine);
    var revival := RevivalEffects(Touched(e, at), obs, learning);
    var address := AddressEffects(Revived(Touched(e, at)), obs, learning);
    var evidence := EvidenceEffects(e.mac, NonBlank(obs.signals) + mine, at);
    var name := NameEffects(heard, Rescored(heard, at), Some(obs.interface), at, learning, first);
    EraseAppend(revival, address);
    EraseAppend(revival + address, evidence);
    EraseAppend(revival + address + evidence, name);
  }

  lemma ChangesBlind(before: Entry, after: Entry, interface: Option<string>, at: int)
    ensures EraseReclassifications(Changes(before, after, interface, at))
         == EraseReclassifications(Changes(EraseEntry(before), EraseEntry(after), interface, at))
  {
    hide IsBlank, Trim;
  }

  // ---------- operations ----------

  ghost predicate Blind(env: Env, b: Book, op: Op) {
    Erase(Perform(env, b, op)) == Erase(Perform(env, EraseBook(b), op))
  }

  lemma EraseBooked(b: Book, m: Mac, e: Entry, unattributed: nat, more: seq<Reclassification>)
    ensures EraseBook(With(b, m, e).(unattributed := unattributed, reclassifications := b.reclassifications + more))
         == With(EraseBook(b), m, EraseEntry(e)).(
              unattributed := unattributed,
              reclassifications := EraseReclassifications(b.reclassifications) + EraseReclassifications(more))
  {
    EraseWith(b, m, e);
    assert EraseReclassifications(b.reclassifications + more)
        == EraseReclassifications(b.reclassifications) + EraseReclassifications(more);
  }

  lemma EraseEntryTwice(e: Entry)
    ensures EraseEntry(EraseEntry(e)) == EraseEntry(e)
  {}

  lemma HearBlind(env: Env, b: Book, obs: Observation, mine: seq<Signal>, unattributed: nat, first: bool)
    ensures Erase(PerformHear(env, b, obs, mine, unattributed, first))
         == Erase(PerformHear(env, EraseBook(b), obs, mine, unattributed, first))
  {
    hide HearingEffects, Heard, Rescored, Reclassified, Changes, EraseEntry, EraseEffects, EraseReclassifications, Resolve;
    EraseIdempotent(b);
    if obs.mac in b.devices {
      var at := obs.observedAt;
      var e := b.devices[obs.mac];
      var f := EraseEntry(e);
      HearingBlind(env, e, obs, mine, b.learning, first);
      var heard := Heard(e, obs, mine);
      HeardBlind(env, e, obs, mine, at);
      HeardBlind(env, heard, obs, mine, at);
      var named := Rescored(heard, at);
      HeardBlind(env, named, obs, mine, at);
      var after := Reclassified(env, named, at);
      ChangesBlind(named, after, Some(obs.interface), at);
      CandidateBlind(heard);
      EraseEntryTwice(after);
      var more := Changes(named, after, Some(obs.interface), at);
      var blindMore := Changes(EraseEntry(named), EraseEntry(after), Some(obs.interface), at);
      EraseBooked(b, obs.mac, after, b.unattributed + unattributed, more);
      EraseBooked(EraseBook(b), obs.mac, EraseEntry(after), b.unattributed + unattributed, blindMore);
    }
  }

  lemma CandidateBlind(e: Entry)
    ensures Candidate(EraseEntry(e)) == Candidate(e)
  {
    hide Resolve;
  }

  lemma LearnBlind(env: Env, b: Book, mac: Mac, signal: Signal, at: int)
    ensures Erase(PerformLearn(env, b, mac, signal, at)) == Erase(PerformLearn(env, EraseBook(b), mac, signal, at))
  {
    hide Rescored, Reclassified, Changes, NameEffects, EraseEffects, EraseReclassifications, Resolve, IsBlank, Merged;
    EraseIdempotent(b);
    if !IsBlank(signal.value) && mac in b.devices {
      var e := b.devices[mac];
      var isNew := signal !in e.signals;
      var informed := e.(signals := Merged(e.signals, [signal]), dirty := true);
      var noObs := Observation(mac, None, "", RequestKind, [], [], None, at);
      HeardBlind(env, informed, noObs, [], at);
      var named := if isNew then Rescored(informed, at) else informed;
      HeardBlind(env, named, noObs, [], at);
      var after := Reclassified(env, named, at);
      ChangesBlind(named, after, e.lastInterface, at);
      NameBlind(informed, named, e.lastInterface, at, b.learning, false);
      CandidateBlind(informed);
      EraseEntryTwice(after);
      EraseAppend([Evidence(mac, signal, at)], NameEffects(informed, named, e.lastInterface, at, b.learning, false));
      EraseAppend([Evidence(mac, signal, at)],
                  NameEffects(EraseEntry(informed), EraseEntry(named), e.lastInterface, at, b.learning, false));
      EraseBooked(b, mac, after, b.unattributed, Changes(named, after, e.lastInterface, at));
      EraseBooked(EraseBook(b), mac, EraseEntry(after), b.unattributed,
                  Changes(EraseEntry(named), EraseEntry(after), e.lastInterface, at));
    }
  }

  lemma PlaceBlind(b: Book, mac: Mac, ap: string, location: string, at: int)
    ensures Erase(PerformPlace(b, mac, ap, location, at)) == Erase(PerformPlace(EraseBook(b), mac, ap, location, at))
  {
    hide EventFor, EraseReclassifications;
    EraseIdempotent(b);
    if mac in b.devices && b.devices[mac].currentAp != Some(ap) {
      var e := b.devices[mac].(currentAp := Some(ap), currentLocation := Some(location), dirty := true);
      EventBlind(e, EraseEntry(e), DeviceLocationChanged, e.lastIp, e.lastInterface, at, b.learning);
      EraseWith(b, mac, e);
      EraseWith(EraseBook(b), mac, EraseEntry(e));
    }
  }

  lemma CheckBlind(env: Env, b: Book, mac: Mac, now: int)
    ensures Erase(PerformCheck(env, b, mac, now)) == Erase(PerformCheck(env, EraseBook(b), mac, now))
  {
    hide EventFor, EraseReclassifications, Swept, EraseEffect;
    EraseIdempotent(b);
    if mac in b.devices {
      var e := b.devices[mac];
      var noObs := Observation(mac, None, "", RequestKind, [], [], None, now);
      HeardBlind(env, e, noObs, [], now);
      EventBlind(Swept(env, e, now), EraseEntry(Swept(env, e, now)), WentOffline, e.lastIp, e.lastInterface, now, b.learning);
      EraseWith(b, mac, Swept(env, e, now));
      EraseWith(EraseBook(b), mac, EraseEntry(Swept(env, e, now)));
      EraseEntryTwice(Swept(env, e, now));
      OtherEffectsKept();
    }
  }

  lemma WriteBlind(b: Book, mac: Mac)
    ensures Erase(PerformWrite(b, mac)) == Erase(PerformWrite(EraseBook(b), mac))
  {
    hide BestOf, EraseReclassifications;
    EraseIdempotent(b);
    if mac in b.devices && b.devices[mac].dirty {
      var e := b.devices[mac].(dirty := false, observationsSinceFlush := 0);
      EraseWith(b, mac, e);
      EraseWith(EraseBook(b), mac, EraseEntry(e));
    }
  }

  lemma DiscoverBlind(env: Env, b: Book, obs: Observation)
    ensures Erase(PerformDiscover(env, b, obs)) == Erase(PerformDiscover(env, EraseBook(b), obs))
  {
    hide NewEntry, DiscoveryEffects, EraseReclassifications, EraseEffects;
    EraseIdempotent(b);
    if obs.mac !in b.devices {
      EraseWith(b, obs.mac, NewEntry(env, obs, b.learning));
      EraseWith(EraseBook(b), obs.mac, NewEntry(env, obs, b.learning));
    }
  }

  lemma ConfigureBlind(env: Env, b: Book, setting: UserSettings)
    ensures Erase(PerformConfigure(b, setting)) == Silent(EraseBook(b))
  {
    hide EraseReclassifications;
    var o := PerformConfigure(b, setting);
    assert EraseDevices(o.book.devices) == EraseDevices(b.devices);
  }

  lemma SmallOpsBlind(env: Env, b: Book, op: Op)
    requires op.Index? || op.StopLearning? || op.Drain? || op.Configure?
    ensures Blind(env, b, op)
    ensures op.Configure? ==> Erase(Perform(env, b, op)) == Silent(EraseBook(b))
  {
    hide PerformHear, PerformLearn, PerformPlace, PerformCheck, PerformWrite, PerformDiscover, PerformConfigure, EraseDevices;
    EraseIdempotent(b);
    EraseDevicesTwice(b.devices);
    if op.Configure? {
      ConfigureBlind(env, b, op.setting);
      ConfigureBlind(env, EraseBook(b), op.setting);
    }
  }

  lemma EraseDevicesTwice(devices: map<Mac, Entry>)
    ensures EraseDevices(EraseDevices(devices)) == EraseDevices(devices)
  {}

  // No operation lets what users own into what the daemon owns.
  lemma PerformBlind(env: Env, b: Book, op: Op)
    ensures Blind(env, b, op)
  {
    hide PerformHear, PerformLearn, PerformPlace, PerformCheck, PerformWrite, PerformDiscover, Erase, EraseBook;
    match op {
      case Discover(obs) => DiscoverBlind(env, b, obs);
      case Hear(obs, mine, unattributed, first) => HearBlind(env, b, obs, mine, unattributed, first);
      case Learn(mac, signal, at) => LearnBlind(env, b, mac, signal, at);
      case Place(mac, ap, location, at) => PlaceBlind(b, mac, ap, location, at);
      case Check(mac, now) => CheckBlind(env, b, mac, now);
      case Write(mac) => WriteBlind(b, mac);
      case _ => SmallOpsBlind(env, b, op);
    }
  }

  // Tables that differ only in what users own stay so under the same operations.
  lemma {:induction false} PerformAllBlind(env: Env, b: Book, c: Book, ops: seq<Op>)
    requires EraseBook(b) == EraseBook(c)
    ensures Erase(PerformAll(env, b, ops)) == Erase(PerformAll(env, c, ops))
  {
    hide Perform, EraseBook, EraseEffects, EraseSnapshots;
    if ops != [] {
      var most, op := ops[..|ops| - 1], ops[|ops| - 1];
      PerformAllBlind(env, b, c, most);
      var p, q := PerformAll(env, b, most), PerformAll(env, c, most);
      PerformBlind(env, p.book, op);
      PerformBlind(env, q.book, op);
      EraseThen(p, Perform(env, p.book, op));
      EraseThen(q, Perform(env, q.book, op));
    }
  }

  // ---------- attribution reads nothing users own ----------

  lemma {:induction false} FirstHolderBlind(b: Book, c: Book, addresses: seq<IpAddr>)
    requires EraseBook(b) == EraseBook(c)
    ensures FirstHolder(b, addresses) == FirstHolder(c, addresses)
  {
    if addresses != [] {
      HolderBlind(b, c, addresses[0]);
      FirstHolderBlind(b, c, addresses[1..]);
    }
  }

  lemma SameButUsers(b: Book, c: Book, m: Mac)
    requires EraseBook(b) == EraseBook(c)
    ensures b.addresses == c.addresses && b.learning == c.learning
    ensures m in b.devices <==> m in c.devices
    ensures m in b.devices ==> EraseEntry(b.devices[m]) == EraseEntry(c.devices[m])
  {
    assert EraseDevices(b.devices) == EraseDevices(c.devices);
    assert m in b.devices <==> m in EraseDevices(b.devices);
    assert m in c.devices <==> m in EraseDevices(c.devices);
  }

  lemma HolderBlind(b: Book, c: Book, a: IpAddr)
    requires EraseBook(b) == EraseBook(c)
    ensures HolderOf(b, a) == HolderOf(c, a)
  {
    SameButUsers(b, c, 0);
    if a in b.addresses {
      SameButUsers(b, c, b.addresses[a]);
    }
  }

  lemma AttributeOneBlind(b: Book, c: Book, obs: Observation, claim: NameClaim, sofar: Attributed)
    requires EraseBook(b) == EraseBook(c)
    ensures AttributeOne(b, obs, claim, sofar) == AttributeOne(c, obs, claim, sofar)
  {
    hide IsBlank, EraseBook, FirstHolder;
    SameButUsers(b, c, obs.mac);
    FirstHolderBlind(b, c, claim.addresses);
    assert SenderAddresses(b, obs) == SenderAddresses(c, obs);
  }

  lemma {:induction false} AttributeBlind(b: Book, c: Book, obs: Observation, claims: seq<NameClaim>)
    requires EraseBook(b) == EraseBook(c)
    ensures AttributeAll(b, obs, claims) == AttributeAll(c, obs, claims)
  {
    hide AttributeOne, EraseBook;
    if claims != [] {
      AttributeBlind(b, c, obs, claims[..|claims| - 1]);
      AttributeOneBlind(b, c, obs, claims[|claims| - 1], AttributeAll(b, obs, claims[..|claims| - 1]));
    }
  }

  lemma PlanBlind(env: Env, b: Book, c: Book, step: Step)
    requires EraseBook(b) == EraseBook(c)
    ensures Plan(env, b, step) == Plan(env, c, step)
  {
    hide AttributeAll, EraseBook, PerformAll, IsGroup;
    if step.Observe? {
      var obs := step.obs;
      SameButUsers(b, c, obs.mac);
      assert Arrival(b, obs) == Arrival(c, obs);
      var ops := Arrival(b, obs);
      PerformAllBlind(env, b, c, ops);
      AttributeBlind(PerformAll(env, b, ops).book, PerformAll(env, c, ops).book, obs, obs.claims);
    }
  }

  lemma ApplyBlind(env: Env, b: Book, c: Book, step: Step)
    requires EraseBook(b) == EraseBook(c)
    ensures Erase(Apply(env, b, step)) == Erase(Apply(env, c, step))
  {
    hide Plan, PerformAll, Erase, EraseBook;
    PlanBlind(env, b, c, step);
    PerformAllBlind(env, b, c, Plan(env, b, step));
  }

  // ---------- whole runs ----------

  // The run with every user edit taken out.
  function Unedited(steps: seq<Step>): seq<Step> {
    if steps == [] then []
    else
      Unedited(steps[..|steps| - 1])
      + (if steps[|steps| - 1].ApplyUserSettings? then [] else [steps[|steps| - 1]])
  }

  lemma {:induction false} EditsChangeNothing(env: Env, b: Book, ops: seq<Op>)
    requires forall op :: op in ops ==> op.Configure?
    ensures Erase(PerformAll(env, b, ops)) == Silent(EraseBook(b))
  {
    hide Perform, EraseBook;
    if ops != [] {
      var most, op := ops[..|ops| - 1], ops[|ops| - 1];
      EditsChangeNothing(env, b, most);
      var p := PerformAll(env, b, most);
      SmallOpsBlind(env, p.book, op);
      EraseThen(p, Perform(env, p.book, op));
    }
  }

  // Whatever edits are interleaved with it, a run holds, decides, emits and
  // flushes the same, save for display names and the notification flag.
  lemma {:induction false} EditsDoNotInterfere(env: Env, learning: bool, steps: seq<Step>)
    ensures Erase(Run(env, learning, steps)) == Erase(Run(env, learning, Unedited(steps)))
  {
    hide Plan, PerformAll, Erase, EraseBook, Apply;
    if steps != [] {
      var most, step := steps[..|steps| - 1], steps[|steps| - 1];
      EditsDoNotInterfere(env, learning, most);
      var p, q := Run(env, learning, most), Run(env, learning, Unedited(most));
      ErasedBooks(p, q);
      if step.ApplyUserSettings? {
        assert Unedited(steps) == Unedited(most);
        EditStep(env, p.book, step);
        EraseThen(p, Apply(env, p.book, step));
        ThenNothing(p);
      } else {
        var rest := Unedited(steps);
        assert rest[..|rest| - 1] == Unedited(most);
        ApplyBlind(env, p.book, q.book, step);
        EraseThen(p, Apply(env, p.book, step));
        EraseThen(q, Apply(env, q.book, step));
      }
    }
  }

  lemma ErasedBooks(p: Outcome, q: Outcome)
    requires Erase(p) == Erase(q)
    ensures EraseBook(p.book) == EraseBook(q.book)
  {}

  lemma EditStep(env: Env, b: Book, step: Step)
    requires step.ApplyUserSettings?
    ensures Erase(Apply(env, b, step)) == Silent(EraseBook(b))
  {
    hide Perform, Erase, PerformAll;
    EditsChangeNothing(env, b, Plan(env, b, step));
  }

  lemma ThenNothing(p: Outcome)
    ensures Erase(p).Then(Silent(EraseBook(p.book))) == Erase(p)
  {}

  // Two runs that differ only in their edits are told apart by nothing else.
  lemma RunsDifferingInEdits(env: Env, learning: bool, first: seq<Step>, other: seq<Step>)
    requires Unedited(first) == Unedited(other)
    ensures var o, p := Run(env, learning, first), Run(env, learning, other);
            && Erase(o) == Erase(p)
            && (forall m :: m in o.book.devices <==> m in p.book.devices)
            && (forall m :: m in o.book.devices ==> o.book.devices[m].dirty == p.book.devices[m].dirty)
            && |o.effects| == |p.effects|
            && (forall i :: 0 <= i < |o.effects| && !o.effects[i].Event? && !o.effects[i].Discovered? ==>
                  o.effects[i] == p.effects[i])
  {
    hide Run;
    EditsDoNotInterfere(env, learning, first);
    EditsDoNotInterfere(env, learning, other);
    var o, p := Run(env, learning, first), Run(env, learning, other);
    forall m: Mac
      ensures m in o.book.devices <==> m in p.book.devices
      ensures m in o.book.devices ==> o.book.devices[m].dirty == p.book.devices[m].dirty
    {
      SameButUsers(o.book, p.book, m);
    }
    assert EraseEffects(o.effects) == EraseEffects(p.effects);
    forall i | 0 <= i < |o.effects| && !o.effects[i].Event? && !o.effects[i].Discovered?
      ensures o.effects[i] == p.effects[i]
    {
      assert EraseEffects(o.effects)[i] == EraseEffects(p.effects)[i];
    }
  }

  // ---------- what a batch of edits reports ----------

  lemma NoEditsNoChange(e: Entry, setting: UserSettings)
    ensures Edits(e, setting) == [] <==> Configured(e, setting) == e
  {}

  // Edits reach only the devices they name, and forget and add none.
  ghost predicate OnlyThese(b: Book, c: Book, settings: seq<UserSettings>) {
    && c == b.(devices := c.devices)
    && c.devices.Keys == b.devices.Keys
    && forall m :: m in b.devices && (forall x :: x in settings ==> x.mac != m) ==> c.devices[m] == b.devices[m]
  }

  lemma {:induction false} EditsReachOnlyThese(env: Env, b: Book, settings: seq<UserSettings>)
    ensures OnlyThese(b, Apply(env, b, ApplyUserSettings(settings)).book, settings)
  {
    hide Apply, Configured;
    if settings == [] {
      NoEdits(env, b);
    } else {
      var most, last := settings[..|settings| - 1], settings[|settings| - 1];
      assert settings == most + [last];
      EditsReachOnlyThese(env, b, most);
      OneEditMore(env, b, most, last);
    }
  }

  lemma NoEdits(env: Env, b: Book)
    ensures Apply(env, b, ApplyUserSettings([])).book == b
  {}

  lemma OneEdit(b: Book, mid: Book, last: UserSettings)
    requires mid == b.(devices := mid.devices) && mid.devices.Keys == b.devices.Keys
    requires last.mac in b.devices ==> mid.devices[last.mac] == b.devices[last.mac]
    ensures PerformConfigure(mid, last).book == b <==>
              mid == b && (last.mac in b.devices ==> Edits(b.devices[last.mac], last) == [])
  {
    hide Configured, Edits;
    if last.mac in b.devices {
      NoEditsNoChange(b.devices[last.mac], last);
      var c := PerformConfigure(mid, last).book;
      if c == b {
        assert forall m :: m in b.devices ==> mid.devices[m] == c.devices[m];
        assert mid.devices == b.devices;
      }
      if mid == b && Edits(b.devices[last.mac], last) == [] {
        assert c.devices == b.devices;
      }
    }
  }

  // The usual pass is quiet: a batch with one row a device reports nothing
  // exactly when it leaves the table as it was.
  lemma {:induction false} QuietExactlyWhenUnchanged(env: Env, b: Book, settings: seq<UserSettings>)
    requires forall i, j :: 0 <= i < j < |settings| ==> settings[i].mac != settings[j].mac
    ensures Reported(env, b, settings) == [] <==> Apply(env, b, ApplyUserSettings(settings)).book == b
  {
    hide Apply, Edits, PerformConfigure;
    if settings == [] {
      NoEdits(env, b);
    } else {
      var most, last := settings[..|settings| - 1], settings[|settings| - 1];
      assert settings == most + [last];
      QuietExactlyWhenUnchanged(env, b, most);
      OneEditMore(env, b, most, last);
      EditsReachOnlyThese(env, b, most);
      OneEdit(b, Apply(env, b, ApplyUserSettings(most)).book, last);
    }
  }

  lemma OneEditMore(env: Env, b: Book, most: seq<UserSettings>, last: UserSettings)
    ensures Apply(env, b, ApplyUserSettings(most + [last])).book
         == PerformConfigure(Apply(env, b, ApplyUserSettings(most)).book, last).book
  {
    hide PerformHear, PerformDiscover, PerformLearn, PerformCheck, PerformPlace, PerformConfigure;
    var ops := Plan(env, b, ApplyUserSettings(most + [last]));
    assert ops[..|ops| - 1] == Plan(env, b, ApplyUserSettings(most));
  }

  // One device's changes in one column, in order.
  function ChangesIn(changes: seq<UserChange>, m: Mac, column: string): seq<UserChange> {
    if changes == [] then []
    else
      var c := changes[|changes| - 1];
      ChangesIn(changes[..|changes| - 1], m, column) + (if c.mac == m && c.column == column then [c] else [])
  }

  // Each change takes up where the one before it left off, the first from `from`,
  // the last to `to`.
  predicate Linked(changes: seq<UserChange>, from: string, to: string) {
    if changes == [] then from == to
    else
      var c := changes[|changes| - 1];
      c.to == to && Linked(changes[..|changes| - 1], from, c.from)
  }

  // What the user reads in a column.
  function TextIn(e: Entry, column: string): string {
    if column == "notify" then (if e.notify then "true" else "false")
    else if e.displayName.Some? then e.displayName.value else ""
  }

  lemma ChangesMore(changes: seq<UserChange>, c: UserChange, m: Mac, column: string)
    ensures ChangesIn(changes + [c], m, column)
         == ChangesIn(changes, m, column) + (if c.mac == m && c.column == column then [c] else [])
  {
    assert (changes + [c])[..|changes|] == changes;
  }

  lemma LinkedMore(changes: seq<UserChange>, c: UserChange, from: string)
    requires Linked(changes, from, c.from)
    ensures Linked(changes + [c], from, c.to)
  {
    assert (changes + [c])[..|changes|] == changes;
  }

  lemma EditLinks(changes: seq<UserChange>, e: Entry, setting: UserSettings, column: string, from: string)
    requires column == "display_name" || column == "notify"
    requires Linked(ChangesIn(changes, setting.mac, column), from, TextIn(e, column))
    ensures Linked(ChangesIn(changes + Edits(e, setting), setting.mac, column), from, TextIn(Configured(e, setting), column))
  {
    hide ChangesIn, Linked;
    var m := setting.mac;
    var name := UserChange(m, "display_name", e.displayName.GetOr(""), setting.displayName.GetOr(""));
    var notify := UserChange(m, "notify", BoolText(e.notify), BoolText(setting.notify));
    var before := ChangesIn(changes, m, column);
    ChangesMore(changes, name, m, column);
    ChangesMore(changes, notify, m, column);
    ChangesMore(changes + [name], notify, m, column);
    var named := if e.displayName == setting.displayName then [] else [name];
    var noted := if e.notify == setting.notify then [] else [notify];
    assert changes + Edits(e, setting) == changes + named + noted;
    assert changes + [] == changes && changes + named + [] == changes + named;
    assert ChangesIn(changes + named + noted, m, column) == before + if column == "notify" then noted else named;
    if column == "notify" {
      if noted != [] { LinkedMore(before, notify, from); } else { assert before + [] == before; }
    } else {
      if named != [] { LinkedMore(before, name, from); } else { assert before + [] == before; }
    }
  }

  lemma {:induction false} EditElsewhere(changes: seq<UserChange>, e: Entry, setting: UserSettings, m: Mac, column: string)
    requires setting.mac != m
    ensures ChangesIn(changes + Edits(e, setting), m, column) == ChangesIn(changes, m, column)
  {
    hide ChangesIn, BoolText;
    var edits := Edits(e, setting);
    if |edits| == 0 {
      assert changes + edits == changes;
    } else if |edits| == 1 {
      ChangesMore(changes, edits[0], m, column);
      assert edits == [edits[0]];
    } else {
      ChangesMore(changes, edits[0], m, column);
      ChangesMore(changes + [edits[0]], edits[1], m, column);
      assert changes + edits == changes + [edits[0]] + [edits[1]];
    }
  }

  // What a batch reports of a device, column by column, leads from what the user
  // read before it to what is read after it.
  lemma {:induction false} ReportsLead(env: Env, b: Book, settings: seq<UserSettings>, m: Mac, column: string)
    requires m in b.devices && (column == "display_name" || column == "notify")
    ensures var c := Apply(env, b, ApplyUserSettings(settings)).book;
            && m in c.devices
            && Linked(ChangesIn(Reported(env, b, settings), m, column), TextIn(b.devices[m], column), TextIn(c.devices[m], column))
  {
    hide Apply, Edits, Configured, TextIn;
    EditsReachOnlyThese(env, b, settings);
    if settings == [] {
      NoEdits(env, b);
      assert Reported(env, b, settings) == [] && ChangesIn([], m, column) == [];
    } else {
      hide ChangesIn, Linked;
      var most, last := settings[..|settings| - 1], settings[|settings| - 1];
      assert settings == most + [last];
      ReportsLead(env, b, most, m, column);
      EditsReachOnlyThese(env, b, most);
      OneEditMore(env, b, most, last);
      var before := Apply(env, b, ApplyUserSettings(most)).book;
      if last.mac !in before.devices {
        assert Reported(env, b, most) + [] == Reported(env, b, most);
      } else if last.mac == m {
        EditLinks(Reported(env, b, most), before.devices[m], last, column, TextIn(b.devices[m], column));
      } else {
        EditElsewhere(Reported(env, b, most), before.devices[last.mac], last, m, column);
      }
    }
  }
}
