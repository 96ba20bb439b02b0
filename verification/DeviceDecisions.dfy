/**
 When a device is rescored and reclassified, and on what: once for each of its
 frames and once for each new piece of evidence about it, on all it then holds.
 */
module DeviceDecisions {
  import opened Options
  import opened Types
  import opened Identities
  import opened DeviceTable
  import opened DeviceTableFacts
  import opened DeviceNaming
  import opened DeviceSweeps
  import Effects = DeviceEffects
  import Attribution = DeviceAttribution
  import History = DeviceHistory

  // The conclusions about one device, in order.
  function Concluded(rs: seq<Reclassification>, m: Mac): seq<Reclassification> {
    if rs == [] then []
    else
      var r := rs[|rs| - 1];
      Concluded(rs[..|rs| - 1], m) + (if r.mac == m then [r] else [])
  }

  lemma ConcludedMore(rs: seq<Reclassification>, r: Reclassification, m: Mac)
    ensures Concluded(rs + [r], m) == Concluded(rs, m) + (if r.mac == m then [r] else [])
  {
    assert (rs + [r])[..|rs|] == rs;
  }

  function ClassOf(b: Book, m: Mac): Classification {
    if m in b.devices then b.devices[m].classification else UNCLASSIFIED
  }

  // Never seen to leave, here now, and known for a day.
  predicate SeenAllDay(e: Entry, at: int) {
    e.offlineTransitions == 0 && e.state != Offline && at - e.firstSeenAt >= 24 * HOUR
  }

  // The device was weighed at `at`: its class is the classifier's answer on all
  // the evidence it now holds, and a change of type or of family since before
  // was concluded once, from the one to the other.
  ghost predicate Classified(env: Env, b: Book, o: Outcome, m: Mac, interface: Option<string>, at: int) {
    m in o.book.devices &&
    var before, e := ClassOf(b, m), o.book.devices[m];
    && e.classification == env.classify(m, e.signals, BestOf(e.signals, Vendor), SeenAllDay(e, at))
    && Concluded(o.book.reclassifications, m)
       == Concluded(b.reclassifications, m)
          + if before.deviceType != e.classification.deviceType || before.osFamily != e.classification.osFamily
            then [Reclassification(m, e.Display(), before, e.classification, interface, at)] else []
  }

  // The name it goes by was weighed at `at` too, on that same evidence and the
  // type it had till then.
  ghost predicate RescoredOnce(b: Book, o: Outcome, m: Mac, at: int) {
    m in o.book.devices &&
    LogOf(o.rescorings, m) == [Rescoring(m, Resolve(m, o.book.devices[m].signals, ClassOf(b, m).deviceType), at)]
  }

  // ---------- the operations ----------

  lemma ChangesConclude(rs: seq<Reclassification>, before: Entry, after: Entry, interface: Option<string>, at: int, m: Mac)
    ensures Concluded(rs + Changes(before, after, interface, at), m)
         == Concluded(rs, m)
            + if after.mac == m && (before.classification.deviceType != after.classification.deviceType
                                    || before.classification.osFamily != after.classification.osFamily)
              then [Reclassification(m, after.Display(), before.classification, after.classification, interface, at)] else []
  {
    hide IsBlank, Trim;
    var changes := Changes(before, after, interface, at);
    if changes == [] {
      assert rs + changes == rs;
    } else {
      ConcludedMore(rs, changes[0], m);
    }
  }

  lemma HearDecides(env: Env, b: Book, obs: Observation, mine: seq<Signal>, unattributed: nat, first: bool)
    requires Sound(b) && obs.mac in b.devices
    ensures var o := Perform(env, b, Hear(obs, mine, unattributed, first));
            && Classified(env, b, o, obs.mac, Some(obs.interface), obs.observedAt)
            && RescoredOnce(b, o, obs.mac, obs.observedAt)
  {
    hide Resolve, Consider, Merged, HearingEffects, IsRecordable, IsLinkLocal, NonBlank, IsBlank, Trim, Changes, BestOf, Concluded;
    var m, at := obs.mac, obs.observedAt;
    var e := b.devices[m];
    var heard := Heard(e, obs, mine);
    var named := Rescored(heard, at);
    var after := Reclassified(env, named, at);
    assert after.signals == heard.signals && named.classification == e.classification && after.mac == m && after.state == Online;
    ChangesConclude(b.reclassifications, named, after, Some(obs.interface), at, m);
    OneRescoring(NamingOf(e), Rescoring(m, Candidate(heard), at));
  }

  lemma LearnRescores(env: Env, b: Book, m: Mac, signal: Signal, at: int)
    requires Sound(b) && m in b.devices && !IsBlank(signal.value)
    ensures var o := Perform(env, b, Learn(m, signal, at));
            && (signal !in b.devices[m].signals ==> RescoredOnce(b, o, m, at))
            && (signal in b.devices[m].signals ==> LogOf(o.rescorings, m) == [])
  {
    hide Resolve, Consider, Merged, NameEffects, IsBlank, Changes, BestOf;
    var e := b.devices[m];
    var informed := e.(signals := Merged(e.signals, [signal]), dirty := true);
    OneRescoring(NamingOf(e), Rescoring(m, Candidate(informed), at));
  }

  lemma LearnDecides(env: Env, b: Book, m: Mac, signal: Signal, at: int)
    requires Sound(b) && m in b.devices && !IsBlank(signal.value)
    ensures Classified(env, b, Perform(env, b, Learn(m, signal, at)), m, b.devices[m].lastInterface, at)
  {
    hide Resolve, Consider, Merged, NameEffects, IsBlank, Trim, Changes, BestOf, Concluded;
    var e := b.devices[m];
    var informed := e.(signals := Merged(e.signals, [signal]), dirty := true);
    var named := if signal !in e.signals then Rescored(informed, at) else informed;
    assert named.classification == e.classification && named.signals == informed.signals && named.mac == m;
    var after := Reclassified(env, named, at);
    ChangesConclude(b.reclassifications, named, after, e.lastInterface, at, m);
  }

  // Nothing about the device is decided.
  ghost predicate Undecided(b: Book, o: Outcome, m: Mac) {
    && LogOf(o.rescorings, m) == []
    && Concluded(o.book.reclassifications, m) == Concluded(b.reclassifications, m)
    && (m in b.devices <==> m in o.book.devices)
    && (m in b.devices ==> o.book.devices[m] == b.devices[m])
  }

  lemma LearnElsewhere(env: Env, b: Book, mac: Mac, signal: Signal, at: int, m: Mac)
    requires Sound(b) && mac != m
    ensures Undecided(b, Perform(env, b, Learn(mac, signal, at)), m)
  {
    hide Resolve, Consider, Merged, NameEffects, IsBlank, Trim, Changes, BestOf, Concluded;
    if !IsBlank(signal.value) && mac in b.devices {
      var e := b.devices[mac];
      var isNew := signal !in e.signals;
      var informed := e.(signals := Merged(e.signals, [signal]), dirty := true);
      var named := if isNew then Rescored(informed, at) else informed;
      ChangesConclude(b.reclassifications, named, Reclassified(env, named, at), e.lastInterface, at, m);
      OneRescoring(NamingOf(e), Rescoring(mac, Candidate(informed), at));
    }
  }

  lemma {:induction false} LearnsElsewhere(env: Env, b: Book, others: seq<(Mac, Signal)>, at: int, m: Mac)
    requires Sound(b) && forall o :: o in others ==> o.0 != m
    ensures Undecided(b, PerformAll(env, b, Learns(others, at)), m)
  {
    hide Perform, Concluded;
    if others != [] {
      var most, last := others[..|others| - 1], others[|others| - 1];
      assert last in others;
      LearnsElsewhere(env, b, most, at, m);
      var before := PerformAll(env, b, Learns(most, at));
      PerformAllSound(env, b, Learns(most, at));
      var ops := Learns(others, at);
      assert ops[..|ops| - 1] == Learns(most, at);
      LearnElsewhere(env, before.book, last.0, last.1, at, m);
      LogAppend(before.rescorings, Perform(env, before.book, Learn(last.0, last.1, at)).rescorings, m);
    }
  }

  // ---------- one call ----------

  // Each accepted frame weighs its sender once, whether or not it told anything
  // new.
  lemma FrameDecides(env: Env, b: Book, obs: Observation)
    requires Sound(b) && IsDevice(obs.mac)
    ensures var o := Apply(env, b, Observe(obs));
            && Classified(env, b, o, obs.mac, Some(obs.interface), obs.observedAt)
            && RescoredOnce(b, o, obs.mac, obs.observedAt)
  {
    hide Perform, Attribute, IsGroup, IsRecordable, Arrival, PerformAll, Resolve, Learns, Concluded, BestOf, IsZero, IsBlank;
    var m := obs.mac;
    ThreeParts(env, b, obs);
    ArrivalKnows(env, b, obs);
    hide Apply;
    PerformAllSound(env, b, Arrival(b, obs));
    var mid := PerformAll(env, b, Arrival(b, obs));
    var att := Attribute(mid.book, obs);
    var hear := Hear(obs, att.mine, att.unattributed, m !in b.devices);
    var heard := Perform(env, mid.book, hear);
    HearDecides(env, mid.book, obs, att.mine, att.unattributed, m !in b.devices);
    PerformSound(env, mid.book, hear);
    Attribution.SortedForObserve(mid.book, obs, m, Signal(MacKind, ""));
    LearnsElsewhere(env, heard.book, att.others, obs.observedAt, m);
    var learned := PerformAll(env, heard.book, Learns(att.others, obs.observedAt));
    LogAppend(mid.rescorings, heard.rescorings, m);
    LogAppend(mid.rescorings + heard.rescorings, learned.rescorings, m);
    FreshClass(env, obs, b.learning);
  }

  lemma FreshClass(env: Env, obs: Observation, learning: bool)
    ensures NewEntry(env, obs, learning).classification == UNCLASSIFIED
    ensures LogOf([], obs.mac) == []
  {
    hide Resolve;
  }

  // A signal from elsewhere rescores the device exactly if it is news to it, and
  // reclassifies it either way; a blank one or one about a stranger does neither.
  lemma SignalDecides(env: Env, b: Book, m: Mac, signal: Signal, at: int)
    requires Sound(b)
    ensures var o := Apply(env, b, AddSignal(m, signal, at));
            if m in b.devices && !IsBlank(signal.value)
            then
              && Classified(env, b, o, m, b.devices[m].lastInterface, at)
              && (signal !in b.devices[m].signals ==> RescoredOnce(b, o, m, at))
              && (signal in b.devices[m].signals ==> LogOf(o.rescorings, m) == [])
            else o == Outcome(b, [], [], [])
  {
    hide Classified, RescoredOnce, LogOf, IsBlank;
    PerformOne(env, b, Learn(m, signal, at));
    if m in b.devices && !IsBlank(signal.value) {
      hide Perform;
      LearnDecides(env, b, m, signal, at);
      LearnRescores(env, b, m, signal, at);
    } else {
      NothingLearned(env, b, m, signal, at);
    }
  }

  lemma NothingLearned(env: Env, b: Book, m: Mac, signal: Signal, at: int)
    requires m !in b.devices || IsBlank(signal.value)
    ensures Perform(env, b, Learn(m, signal, at)) == Outcome(b, [], [], [])
  {
    hide IsBlank;
  }

  // ---------- new names ----------

  const RENAMING := Effects.Announcing(NameUpdated)

  // What is said of a device that goes by another name than before.
  function Renaming(was: Identity, e: Entry, interface: Option<string>, at: int, learning: bool): seq<Effect> {
    if e.identity != was then [Effects.Saying(e, NameUpdated, e.lastIp, interface, at, learning)] else []
  }

  lemma HearingRenames(e: Entry, obs: Observation, mine: seq<Signal>, learning: bool, first: bool, m: Mac)
    requires e.mac == m
    ensures Effects.Only(HearingEffects(e, obs, mine, learning, first), RENAMING, m)
         == if first then []
            else Renaming(e.identity, Rescored(Heard(e, obs, mine), obs.observedAt), Some(obs.interface), obs.observedAt, learning)
  {
    hide RevivalEffects, AddressEffects, Heard, Rescored, NonBlank, Resolve, Effects.Only, EventFor;
    var at := obs.observedAt;
    var revival := RevivalEffects(Touched(e, at), obs, learning);
    var address := AddressEffects(Revived(Touched(e, at)), obs, learning);
    var evidence := EvidenceEffects(e.mac, NonBlank(obs.signals) + mine, at);
    var heard := Heard(e, obs, mine);
    var name := NameEffects(heard, Rescored(heard, at), Some(obs.interface), at, learning, first);
    Effects.OnlyAppend(revival, address, RENAMING, m);
    Effects.OnlyAppend(revival + address, evidence, RENAMING, m);
    Effects.OnlyAppend(revival + address + evidence, name, RENAMING, m);
    Effects.OnlyNone(evidence, RENAMING, m);
    OthersDoNotRename(Touched(e, at), Revived(Touched(e, at)), obs, learning, m);
    NamesRename(heard, Rescored(heard, at), Some(obs.interface), at, learning, first, m);
    HeardKeepsName(e, obs, mine);
  }

  lemma OthersDoNotRename(e: Entry, f: Entry, obs: Observation, learning: bool, m: Mac)
    ensures Effects.Only(RevivalEffects(e, obs, learning), RENAMING, m) == []
    ensures Effects.Only(AddressEffects(f, obs, learning), RENAMING, m) == []
  {
    hide IsBlank, BestOf, Trim, Ipv4Of, IsRecordable, Effects.Only, Addressed;
    Effects.OnlyNone(RevivalEffects(e, obs, learning), RENAMING, m);
    Effects.OnlyNone(AddressEffects(f, obs, learning), RENAMING, m);
  }

  lemma NamesRename(before: Entry, after: Entry, interface: Option<string>, at: int, learning: bool, quiet: bool, m: Mac)
    ensures Effects.Only(NameEffects(before, after, interface, at, learning, quiet), RENAMING, m)
         == if quiet || after.mac != m then [] else Renaming(before.identity, after, interface, at, learning)
  {
    hide IsBlank, BestOf, Trim, Effects.Only;
    var effects := NameEffects(before, after, interface, at, learning, quiet);
    if effects == [] {
      Effects.OnlyNone(effects, RENAMING, m);
    } else {
      Effects.OnlyOne(effects[0], RENAMING, m);
    }
  }

  lemma HeardKeepsName(e: Entry, obs: Observation, mine: seq<Signal>)
    ensures Heard(e, obs, mine).identity == e.identity
    ensures Rescored(Heard(e, obs, mine), obs.observedAt).mac == e.mac
  {
    hide Resolve, Consider, Merged, IsRecordable, IsLinkLocal, NonBlank;
  }

  // Classifying changes nothing that is said of the device.
  lemma SaidAlike(env: Env, e: Entry, was: Identity, interface: Option<string>, at: int, learning: bool)
    ensures Renaming(was, Reclassified(env, e, at), interface, at, learning) == Renaming(was, e, interface, at, learning)
  {
    hide BestOf, IsBlank, Trim;
  }

  lemma HearRenames(env: Env, b: Book, obs: Observation, mine: seq<Signal>, unattributed: nat, first: bool)
    requires Sound(b) && obs.mac in b.devices
    ensures var o, m := Perform(env, b, Hear(obs, mine, unattributed, first)), obs.mac;
            && m in o.book.devices
            && Effects.Only(o.effects, RENAMING, m)
               == if first then []
                  else Renaming(b.devices[m].identity, o.book.devices[m], Some(obs.interface), obs.observedAt, b.learning)
  {
    hide HearingEffects, Heard, Rescored, Reclassified, Changes, Candidate, Effects.Only, Renaming;
    var e := b.devices[obs.mac];
    HearingRenames(e, obs, mine, b.learning, first, obs.mac);
    SaidAlike(env, Rescored(Heard(e, obs, mine), obs.observedAt), e.identity, Some(obs.interface), obs.observedAt, b.learning);
  }

  lemma LearnRenames(env: Env, b: Book, mac: Mac, signal: Signal, at: int, m: Mac)
    requires Sound(b)
    ensures var o := Perform(env, b, Learn(mac, signal, at));
            Effects.Only(o.effects, RENAMING, m)
            == if mac == m && m in b.devices && m in o.book.devices && !IsBlank(signal.value)
               then Renaming(b.devices[m].identity, o.book.devices[m], b.devices[m].lastInterface, at, b.learning) else []
  {
    hide Rescored, Reclassified, Changes, Candidate, Effects.Only, Renaming, NameEffects, Merged, IsBlank;
    if IsBlank(signal.value) || mac !in b.devices {
      Effects.OnlyNone([], RENAMING, m);
    } else {
      var e := b.devices[mac];
      var informed := e.(signals := Merged(e.signals, [signal]), dirty := true);
      var named := if signal !in e.signals then Rescored(informed, at) else informed;
      var told := Evidence(mac, signal, at);
      Effects.OnlyAppend([told], NameEffects(informed, named, e.lastInterface, at, b.learning, false), RENAMING, m);
      Effects.OnlyOne(told, RENAMING, m);
      NamesRename(informed, named, e.lastInterface, at, b.learning, false, m);
      RescoredMac(informed, at);
      SaidAlike(env, named, e.identity, e.lastInterface, at, b.learning);
    }
  }

  lemma RescoredMac(e: Entry, at: int)
    ensures Rescored(e, at).mac == e.mac
  {
    hide Resolve, Consider;
  }

  lemma {:induction false} LearnsRename(env: Env, b: Book, others: seq<(Mac, Signal)>, at: int, m: Mac)
    requires Sound(b) && forall o :: o in others ==> o.0 != m
    ensures Effects.Only(PerformAll(env, b, Learns(others, at)).effects, RENAMING, m) == []
  {
    hide Perform;
    if others != [] {
      var most, last := others[..|others| - 1], others[|others| - 1];
      assert last in others;
      LearnsRename(env, b, most, at, m);
      var before := PerformAll(env, b, Learns(most, at));
      PerformAllSound(env, b, Learns(most, at));
      var ops := Learns(others, at);
      assert ops[..|ops| - 1] == Learns(most, at);
      LearnRenames(env, before.book, last.0, last.1, at, m);
      Effects.OnlyAppend(before.effects, Perform(env, before.book, Learn(last.0, last.1, at)).effects, RENAMING, m);
    }
  }

  // A frame from a known device announces a new name exactly when the device goes
  // by another afterwards; a first frame, whose announcement tells the name, never
  // does.
  lemma FrameRenames(env: Env, b: Book, obs: Observation)
    requires Sound(b) && IsDevice(obs.mac)
    ensures var o, m := Apply(env, b, Observe(obs)), obs.mac;
            && m in o.book.devices
            && Effects.Only(o.effects, RENAMING, m)
               == if m !in b.devices then []
                  else Renaming(b.devices[m].identity, o.book.devices[m], Some(obs.interface), obs.observedAt, b.learning)
  {
    hide Perform, Attribute, IsGroup, IsRecordable, Arrival, PerformAll, Resolve, Learns, BestOf, IsZero, IsBlank, Effects.Only,
         Renaming, NewEntry, DiscoveryEffects, Concluded, LogOf;
    var m := obs.mac;
    ThreeParts(env, b, obs);
    ArrivalKnows(env, b, obs);
    hide Apply;
    PerformAllSound(env, b, Arrival(b, obs));
    var mid := PerformAll(env, b, Arrival(b, obs));
    var att := Attribute(mid.book, obs);
    var hear := Hear(obs, att.mine, att.unattributed, m !in b.devices);
    var heard := Perform(env, mid.book, hear);
    HearRenames(env, mid.book, obs, att.mine, att.unattributed, m !in b.devices);
    PerformSound(env, mid.book, hear);
    Attribution.SortedForObserve(mid.book, obs, m, Signal(MacKind, ""));
    LearnsElsewhere(env, heard.book, att.others, obs.observedAt, m);
    LearnsRename(env, heard.book, att.others, obs.observedAt, m);
    var learned := PerformAll(env, heard.book, Learns(att.others, obs.observedAt));
    Effects.ThenDoes(mid, heard, RENAMING, m);
    Effects.ThenDoes(mid.Then(heard), learned, RENAMING, m);
    ArrivalIsQuiet(env, b, obs, mid);
  }

  lemma ArrivalIsQuiet(env: Env, b: Book, obs: Observation, mid: Outcome)
    requires mid.effects == if obs.mac in b.devices then []
                            else DiscoveryEffects(NewEntry(env, obs, b.learning), obs, b.learning)
    ensures Effects.Only(mid.effects, RENAMING, obs.mac) == []
  {
    hide Resolve, IsBlank, BestOf, Trim, Ipv4Of, Effects.Only;
    Effects.OnlyNone(mid.effects, RENAMING, obs.mac);
  }

  // ---------- claims about nobody ----------

  lemma PerformUnattributed(env: Env, b: Book, op: Op)
    ensures Perform(env, b, op).book.unattributed
         == b.unattributed + if op.Hear? && op.obs.mac in b.devices then op.unattributed else 0
  {
    hide Resolve, Consider, Merged, Changes, HearingEffects, NameEffects, DiscoveryEffects, SweepEffects, BestOf, Heard, IsBlank,
         Swept, NewEntry, Rescored, Reclassified, EventFor;
  }

  lemma {:induction false} AllUnattributed(env: Env, b: Book, ops: seq<Op>)
    requires forall op :: op in ops ==> !op.Hear?
    ensures PerformAll(env, b, ops).book.unattributed == b.unattributed
  {
    hide Perform;
    if ops != [] {
      var most, op := ops[..|ops| - 1], ops[|ops| - 1];
      assert op in ops;
      AllUnattributed(env, b, most);
      PerformUnattributed(env, PerformAll(env, b, most).book, op);
    }
  }

  // The counter grows, at an accepted frame, by the frame's non-blank claims that
  // are about nobody, and at nothing else.
  lemma UnattributedGrows(env: Env, b: Book, step: Step)
    ensures var after := Apply(env, b, step).book.unattributed;
            if step.Observe? && IsDevice(step.obs.mac)
            then after == b.unattributed
                 + |Attribution.ShareOf(PerformAll(env, b, Arrival(b, step.obs)).book, step.obs, step.obs.claims, Attribution.Nobody)|
            else after == b.unattributed
  {
    hide Perform, Attribution.ShareOf, IsGroup, IsRecordable, AttributeAll, IsZero;
    if step.Observe? && IsDevice(step.obs.mac) {
      var obs := step.obs;
      ThreeParts(env, b, obs);
      ArrivalKnows(env, b, obs);
      hide PerformAll, Arrival, Apply;
      var mid := PerformAll(env, b, Arrival(b, obs)).book;
      var att := Attribute(mid, obs);
      Attribution.ClaimsSorted(mid, obs, obs.claims);
      var hear := Hear(obs, att.mine, att.unattributed, obs.mac !in b.devices);
      PerformUnattributed(env, mid, hear);
      AllUnattributed(env, Perform(env, mid, hear).book, Learns(att.others, obs.observedAt));
    } else {
      hide PerformAll, Attribute;
      AllUnattributed(env, b, Plan(env, b, step));
    }
  }

  // ---------- how often a device has left ----------

  function TransitionsIn(b: Book, m: Mac): nat {
    if m in b.devices then b.devices[m].offlineTransitions else 0
  }

  function OneMore(n: nat): nat {
    if n < U32_MAX then n + 1 else n
  }

  ghost predicate Left(b: Book, c: Book, m: Mac) {
    TransitionsIn(c, m) == if History.Departs(b, c, m) then OneMore(TransitionsIn(b, m)) else TransitionsIn(b, m)
  }

  lemma PerformStays(env: Env, b: Book, op: Op, m: Mac)
    requires !op.Check?
    ensures TransitionsIn(Perform(env, b, op).book, m) == TransitionsIn(b, m)
  {
    hide Resolve, Consider, Merged, Changes, HearingEffects, NameEffects, DiscoveryEffects, BestOf, IsRecordable,
         IsLinkLocal, IsBlank, NonBlank, EventFor;
  }

  lemma {:induction false} AllStay(env: Env, b: Book, ops: seq<Op>, m: Mac)
    requires Sound(b) && forall op :: op in ops ==> !op.Check?
    ensures TransitionsIn(PerformAll(env, b, ops).book, m) == TransitionsIn(b, m)
  {
    hide Perform, TransitionsIn;
    if ops != [] {
      var most, op := ops[..|ops| - 1], ops[|ops| - 1];
      assert op in ops;
      AllStay(env, b, most, m);
      PerformStays(env, PerformAll(env, b, most).book, op, m);
    }
  }

  lemma CheckLeaves(env: Env, b: Book, mac: Mac, now: int, m: Mac)
    ensures Left(b, Perform(env, b, Check(mac, now)).book, m)
  {
    hide SweepEffects, GoesOffline;
    if m in b.devices && b.devices[m].state != Offline { GoingIsHere(env, b.devices[m], now); }
  }

  lemma GoingIsHere(env: Env, e: Entry, now: int)
    ensures GoesOffline(env, e, now) ==> e.state != Offline
  {}

  lemma {:induction false} ChecksLeave(env: Env, b: Book, order: seq<Mac>, now: int, m: Mac)
    ensures Left(b, PerformAll(env, b, Checks(order, now)).book, m)
  {
    hide Perform, TransitionsIn;
    if order != [] {
      var most := order[..|order| - 1];
      assert Checks(order, now)[..|most|] == Checks(most, now);
      ChecksLeave(env, b, most, now, m);
      History.ChecksChecked(env, b, most, now, m);
      var mid := PerformAll(env, b, Checks(most, now)).book;
      CheckLeaves(env, mid, order[|most|], now, m);
      History.CheckChecked(env, mid, order[|most|], now, m);
    }
  }

  lemma StepLeaves(env: Env, b: Book, step: Step, m: Mac)
    requires Sound(b)
    ensures Left(b, Apply(env, b, step).book, m)
  {
    hide Perform, PerformAll, Attribute, IsGroup, IsRecordable, TransitionsIn;
    if step.Sweep? {
      assert Plan(env, b, step) == Checks(step.order, step.now);
      ChecksLeave(env, b, step.order, step.now, m);
    } else {
      AllStay(env, b, Plan(env, b, step), m);
      if step.SetLocation? {
        History.StepMoves(env, b, step, m);
        PerformOne(env, b, Place(step.mac, step.ap, step.location, step.at));
        Undisturbed(env, b, Place(step.mac, step.ap, step.location, step.at), m);
      } else {
        History.PerformAllKept(env, b, Plan(env, b, step), m);
      }
    }
  }

  ghost function Departures(env: Env, learning: bool, steps: seq<Step>, m: Mac): nat {
    if steps == [] then 0
    else
      var most := steps[..|steps| - 1];
      Departures(env, learning, most, m)
      + (if History.Departs(Run(env, learning, most).book, Run(env, learning, steps).book, m) then 1 else 0)
  }

  // The counter is how often the device has left, as far as it can count, so a
  // device counts as always on only if it never has.
  lemma {:induction false} TransitionsAreDepartures(env: Env, learning: bool, steps: seq<Step>, m: Mac)
    ensures var left := Departures(env, learning, steps, m);
            TransitionsIn(Run(env, learning, steps).book, m) == if left < U32_MAX then left else U32_MAX
  {
    hide Apply, TransitionsIn;
    if steps == [] {
      NobodyLeft(learning, m);
    } else {
      var most := steps[..|steps| - 1];
      TransitionsAreDepartures(env, learning, most, m);
      RunSound(env, learning, most);
      StepLeaves(env, Run(env, learning, most).book, steps[|steps| - 1], m);
    }
  }

  lemma NobodyLeft(learning: bool, m: Mac)
    ensures TransitionsIn(EmptyBook(learning), m) == 0
  {}
}
