/**
 What the tracker does learn, told from the frames: which address, inferred when,
 and whose hardware.
 */
module GatewayLearning {
  import opened Options
  import opened Types
  import opened Gateway

  // ---------- whose hardware ----------

  // The frame's sender answers for the address, or sends from it.
  predicate Speaks(obs: Observation, address: Ipv4) {
    || (ArpOf(obs).Some? && ArpOf(obs).value.op == Reply && ArpOf(obs).value.senderIp == Some(address))
    || obs.ip == Some(V4(address))
  }

  // How well the hardware address kept across a frame is known: not at all once
  // the address it went with is gone.
  function KeptMac(b: Belief, c: Belief): Option<Mac> {
    if c.ip == b.ip || b.macSource == Configured then b.mac else None
  }

  function KeptSource(b: Belief, c: Belief): GatewaySource {
    if c.ip == b.ip || b.macSource == Configured then b.macSource else Unknown
  }

  lemma SetIpKeeps(b: Belief, ip: Ipv4, source: GatewaySource)
    ensures var c := SetIp(b, ip, source);
            c.mac == KeptMac(b, c) && c.macSource == KeptSource(b, c)
  {}

  lemma RecordAskerKeeps(b: Belief, target: Ipv4, asker: Mac)
    ensures var c := RecordAsker(b, target, asker);
            c.mac == KeptMac(b, c) && c.macSource == KeptSource(b, c)
  {
    hide IsHostV4, AskersAfter, SetIp;
    SetIpKeeps(b.(askers := b.askers[target := AskersAfter(b, target, asker)]), target, Inferred);
  }

  lemma SetMacLearns(b: Belief, mac: Mac)
    requires b.mac.Some? <==> b.macSource != Unknown
    ensures var c := SetMac(b, mac, b.ipSource);
            && c.ip == b.ip && c.ipSource == b.ipSource
            && if Rank(b.macSource) < Rank(b.ipSource) then c.mac == Some(mac) && c.macSource == b.ipSource
               else c.mac == b.mac && c.macSource == b.macSource
  {}

  // After one frame the hardware address is the sender's exactly if the sender
  // speaks for the address now believed and nothing as good was known.
  lemma OneFrame(b: Belief, obs: Observation)
    requires Sensible(b)
    ensures var c := Believed(b, obs);
            if c.ip.Some? && Speaks(obs, c.ip.value) && Rank(KeptSource(b, c)) < Rank(c.ipSource)
            then c.mac == Some(obs.mac) && c.macSource == c.ipSource
            else c.mac == KeptMac(b, c) && c.macSource == KeptSource(b, c)
  {
    hide RecordAsker, SetIp, SetMac, Distinct, IsHostV4;
    var b1 := AfterDhcp(b, obs);
    if RouterOf(obs).Some? { SetIpKeeps(b, RouterOf(obs).value, FromDhcp); }
    if ArpOf(obs).Some? { RecordAskerKeeps(b1, ArpOf(obs).value.targetIp, obs.mac); }
    SetMacLearns(b1, obs.mac);
    SetMacLearns(AfterArp(b1, obs), obs.mac);
  }

  // The sender of the first frame, from one on, that speaks for the address.
  function FirstSpeaker(trace: seq<Observation>, address: Ipv4): Option<Mac> {
    if trace == [] then None
    else
      var before := FirstSpeaker(trace[..|trace| - 1], address);
      if before.Some? then before
      else if Speaks(trace[|trace| - 1], address) then Some(trace[|trace| - 1].mac)
      else None
  }

  lemma {:induction false} FirstSpeakerIs(trace: seq<Observation>, address: Ipv4)
    ensures match FirstSpeaker(trace, address)
            case None => forall k :: 0 <= k < |trace| ==> !Speaks(trace[k], address)
            case Some(mac) => exists k :: 0 <= k < |trace| && Speaks(trace[k], address) && trace[k].mac == mac
                                          && forall j :: 0 <= j < k ==> !Speaks(trace[j], address)
  {
    hide Speaks;
    if trace != [] {
      var most := trace[..|trace| - 1];
      FirstSpeakerIs(most, address);
      if FirstSpeaker(most, address).Some? {
        var k :| 0 <= k < |most| && Speaks(most[k], address) && most[k].mac == FirstSpeaker(most, address).value
                 && forall j :: 0 <= j < k ==> !Speaks(most[j], address);
        assert trace[k] == most[k] && forall j :: 0 <= j < k ==> trace[j] == most[j];
      } else {
        assert forall j :: 0 <= j < |most| ==> trace[j] == most[j];
      }
    }
  }

  // The address and its source are the same all along.
  ghost predicate AnswerStays(b: Belief, trace: seq<Observation>) {
    forall k :: 0 <= k <= |trace| ==> BeliefAfter(b, trace[..k]).ip == b.ip && BeliefAfter(b, trace[..k]).ipSource == b.ipSource
  }

  lemma AnswerStayed(b: Belief, trace: seq<Observation>)
    requires trace != [] && AnswerStays(b, trace)
    ensures AnswerStays(b, trace[..|trace| - 1])
    ensures BeliefAfter(b, trace).ip == BeliefAfter(b, trace[..|trace| - 1]).ip == b.ip
    ensures BeliefAfter(b, trace).ipSource == BeliefAfter(b, trace[..|trace| - 1]).ipSource == b.ipSource
  {
    hide BeliefAfter;
    var most := trace[..|trace| - 1];
    forall k | 0 <= k <= |most|
      ensures most[..k] == trace[..k]
    {}
    assert trace[..|trace|] == trace && trace[..|most|] == most;
  }

  // While the address and its source stay, and nothing as good was known before,
  // the hardware address is the first speaker's; until there is one, it is what
  // it was.
  lemma {:induction false} FirstSpeakerIsLearned(b: Belief, trace: seq<Observation>)
    requires Sensible(b) && AnswerStays(b, trace) && b.ip.Some?
    ensures var c := BeliefAfter(b, trace);
            var speaker := FirstSpeaker(trace, b.ip.value);
            if Rank(b.macSource) < Rank(b.ipSource) && speaker.Some?
            then c.mac == speaker && c.macSource == b.ipSource
            else c.mac == b.mac && c.macSource == b.macSource
  {
    hide Believed, Speaks, Sensible;
    if trace != [] {
      var most, last := trace[..|trace| - 1], trace[|trace| - 1];
      AnswerStayed(b, trace);
      FirstSpeakerIsLearned(b, most);
      SourcesHold(b, most);
      OneFrame(BeliefAfter(b, most), last);
    }
  }

  // ---------- which address ----------

  // The last router a DHCP answer named.
  function LastRouter(trace: seq<Observation>): Option<Ipv4> {
    if trace == [] then None
    else if RouterOf(trace[|trace| - 1]).Some? then RouterOf(trace[|trace| - 1])
    else LastRouter(trace[..|trace| - 1])
  }

  // An ordinary request about a host.
  predicate AsksAbout(obs: Observation, target: Ipv4) {
    && ArpOf(obs).Some? && ArpOf(obs).value.op == Request && !ArpOf(obs).value.gratuitous
    && ArpOf(obs).value.targetIp == target && IsHostV4(target)
  }

  // Who asked about it, and what was asked about at all.
  function AskersOf(trace: seq<Observation>, target: Ipv4): set<Mac> {
    set obs | obs in trace && AsksAbout(obs, target) :: obs.mac
  }

  function AskedAbout(trace: seq<Observation>): set<Ipv4> {
    set obs | obs in trace && ArpOf(obs).Some? && AsksAbout(obs, ArpOf(obs).value.targetIp) :: ArpOf(obs).value.targetIp
  }

  // The frame is the one at which a third device has asked about what it asks.
  predicate Third(recent: seq<Observation>, obs: Observation) {
    && ArpOf(obs).Some? && AsksAbout(obs, ArpOf(obs).value.targetIp)
    && |AskersOf(recent + [obs], ArpOf(obs).value.targetIp)| >= INFERENCE_QUORUM
  }

  // A request about a new candidate counts only while there is a slot for it.
  predicate Counts(counted: seq<Observation>, obs: Observation) {
    ArpOf(obs).Some? && AsksAbout(obs, ArpOf(obs).value.targetIp) ==>
      ArpOf(obs).value.targetIp in AskedAbout(counted) || |AskedAbout(counted)| < MAX_CANDIDATES
  }

  // An address, where it came from, and the frames that count towards the next
  // inference.
  datatype Answer = Answer(ip: Option<Ipv4>, source: GatewaySource, counted: seq<Observation>)

  // What the frames say the address should be: the configured one; else the
  // router last named; else the one a third device last asked about, counting
  // from the inference before.
  function AnswerOf(configured: Option<Ipv4>, trace: seq<Observation>): Answer {
    if trace == [] then Answer(configured, if configured.Some? then Configured else Unknown, [])
    else
      var most, last := trace[..|trace| - 1], trace[|trace| - 1];
      var a := AnswerOf(configured, most);
      if configured.Some? then a
      else if RouterOf(last).Some? then Answer(RouterOf(last), FromDhcp, [])
      else if LastRouter(most).Some? || !Counts(a.counted, last) then a
      else if Third(a.counted, last) then Answer(Some(ArpOf(last).value.targetIp), Inferred, [])
      else a.(counted := a.counted + [last])
  }

  // The candidates kept are exactly who asked about what.
  ghost predicate Keeps(b: Belief, recent: seq<Observation>) {
    && b.askers.Keys == AskedAbout(recent)
    && forall t :: t in b.askers ==> SetOf(b.askers[t]) == AskersOf(recent, t)
  }

  function SetOf(macs: seq<Mac>): set<Mac> {
    set m | m in macs
  }

  lemma {:induction false} DistinctSize(macs: seq<Mac>)
    requires Distinct(macs)
    ensures |SetOf(macs)| == |macs|
  {
    if macs != [] {
      var most, last := macs[..|macs| - 1], macs[|macs| - 1];
      assert macs == most + [last];
      DistinctSize(most);
      assert last !in most;
      assert SetOf(macs) == SetOf(most) + {last};
    } else {
      assert SetOf(macs) == {};
    }
  }

  lemma AskersMore(recent: seq<Observation>, obs: Observation, target: Ipv4)
    ensures AskersOf(recent + [obs], target) == AskersOf(recent, target) + if AsksAbout(obs, target) then {obs.mac} else {}
  {
    forall o
      ensures o in recent + [obs] <==> o in recent || o == obs
    {}
  }

  lemma AskedMoreAbout(recent: seq<Observation>, obs: Observation)
    ensures AskedAbout(recent + [obs]) == AskedAbout(recent)
         + if ArpOf(obs).Some? && AsksAbout(obs, ArpOf(obs).value.targetIp) then {ArpOf(obs).value.targetIp} else {}
  {
    forall o
      ensures o in recent + [obs] <==> o in recent || o == obs
    {}
  }

  // One request that counts: it is an inference exactly at the third asker, and
  // otherwise the candidates keep who asked.
  lemma RequestKeeps(b: Belief, recent: seq<Observation>, obs: Observation)
    requires Sensible(b) && Keeps(b, recent) && Rank(b.ipSource) <= Rank(Inferred)
    requires Counts(recent, obs)
    requires ArpOf(obs).Some? && ArpOf(obs).value.op == Request && !ArpOf(obs).value.gratuitous
    ensures var c := RecordAsker(b, ArpOf(obs).value.targetIp, obs.mac);
            if Third(recent, obs)
            then c.ip == Some(ArpOf(obs).value.targetIp) && c.ipSource == Inferred && c.askers == map[]
            else c.ip == b.ip && c.ipSource == b.ipSource && Keeps(c, recent + [obs])
  {
    hide IsHostV4, AskersOf, AskedAbout, SetOf, AskersAfter;
    var target := ArpOf(obs).value.targetIp;
    AskedMoreAbout(recent, obs);
    if IsHostV4(target) {
      HostRequestKeeps(b, recent, obs);
    } else {
      forall t
        ensures AskersOf(recent + [obs], t) == AskersOf(recent, t)
      {
        AskersMore(recent, obs, t);
      }
    }
  }

  lemma HostRequestKeeps(b: Belief, recent: seq<Observation>, obs: Observation)
    requires Sensible(b) && Keeps(b, recent) && Rank(b.ipSource) <= Rank(Inferred)
    requires Counts(recent, obs)
    requires ArpOf(obs).Some? && AsksAbout(obs, ArpOf(obs).value.targetIp)
    ensures var c := RecordAsker(b, ArpOf(obs).value.targetIp, obs.mac);
            if Third(recent, obs)
            then c.ip == Some(ArpOf(obs).value.targetIp) && c.ipSource == Inferred && c.askers == map[]
            else c.ip == b.ip && c.ipSource == b.ipSource && Keeps(c, recent + [obs])
  {
    hide IsHostV4, AskersOf, AskedAbout, SetOf, Distinct, Sensible;
    var target, asker := ArpOf(obs).value.targetIp, obs.mac;
    var askers := AskersAfter(b, target, asker);
    AskersAfterShort(b, target, asker);
    DistinctSize(askers);
    KnownAskers(b, recent, target);
    AddedAsker(if target in b.askers then b.askers[target] else [], asker);
    AskersMore(recent, obs, target);
    assert SetOf(askers) == AskersOf(recent + [obs], target);
    assert |b.askers| == |b.askers.Keys|;
    hide AskersAfter;
    if |askers| < INFERENCE_QUORUM {
      AskedMoreAbout(recent, obs);
      var c := b.(askers := b.askers[target := askers]);
      assert c == RecordAsker(b, target, asker);
      forall t | t in c.askers
        ensures SetOf(c.askers[t]) == AskersOf(recent + [obs], t)
      {
        AskersMore(recent, obs, t);
      }
    }
  }

  lemma KnownAskers(b: Belief, recent: seq<Observation>, target: Ipv4)
    requires Keeps(b, recent)
    ensures SetOf(if target in b.askers then b.askers[target] else []) == AskersOf(recent, target)
  {
    if target !in b.askers {
      NobodyAsked(recent, target);
    }
  }

  lemma NobodyAsked(recent: seq<Observation>, target: Ipv4)
    requires target !in AskedAbout(recent)
    ensures AskersOf(recent, target) == {}
  {
    forall obs | obs in recent
      ensures AsksAbout(obs, target) ==> target in AskedAbout(recent)
    {}
  }

  lemma AddedAsker(known: seq<Mac>, asker: Mac)
    ensures SetOf(if asker in known then known else known + [asker]) == SetOf(known) + {asker}
  {}

  lemma {:induction false} RouterTold(configured: Option<Ipv4>, trace: seq<Observation>)
    requires configured.None?
    ensures var a := AnswerOf(configured, trace);
            && (LastRouter(trace).Some? <==> a.source == FromDhcp)
            && (LastRouter(trace).Some? ==> a.ip == LastRouter(trace))
            && (LastRouter(trace).None? ==> Rank(a.source) <= Rank(Inferred))
  {
    if trace != [] {
      RouterTold(configured, trace[..|trace| - 1]);
    }
  }

  // The address believed is the one the frames say, whatever the traffic.
  lemma {:induction false} AddressIsTheAnswer(configured: Option<Ipv4>, mac: Option<Mac>, proxyArp: bool, trace: seq<Observation>)
    ensures var b := BeliefAfter(Initial(configured, mac, proxyArp), trace);
            var a := AnswerOf(configured, trace);
            && b.ip == a.ip && b.ipSource == a.source
            && (Rank(a.source) <= Rank(Inferred) ==> Keeps(b, a.counted))
  {
    hide Believed, Sensible, Third, AskersOf, AskedAbout, Counts;
    if trace == [] {
      NothingAsked();
    } else {
      var most, last := trace[..|trace| - 1], trace[|trace| - 1];
      assert most + [last] == trace;
      AddressIsTheAnswer(configured, mac, proxyArp, most);
      AlwaysSensible(configured, mac, proxyArp, most);
      if configured.None? { RouterTold(configured, most); } else { ConfiguredStays(configured, most); }
      var b, a := BeliefAfter(Initial(configured, mac, proxyArp), most), AnswerOf(configured, most);
      OneMoreFrame(b, configured, most, last);
    }
  }

  lemma NothingAsked()
    ensures AskedAbout([]) == {}
  {}

  lemma OneMoreFrame(b: Belief, configured: Option<Ipv4>, most: seq<Observation>, last: Observation)
    requires Sensible(b)
    requires var a := AnswerOf(configured, most);
             && b.ip == a.ip && b.ipSource == a.source
             && (Rank(a.source) <= Rank(Inferred) ==> Keeps(b, a.counted))
             && (configured.Some? <==> a.source == Configured)
             && (configured.None? ==> (LastRouter(most).Some? <==> a.source == FromDhcp))
    ensures var c := Believed(b, last);
            var a := AnswerOf(configured, most + [last]);
            && c.ip == a.ip && c.ipSource == a.source
            && (Rank(a.source) <= Rank(Inferred) ==> Keeps(c, a.counted))
  {
    hide Believed, Sensible, AskersOf, AskedAbout, RecordAsker, Counts, Third;
    var trace := most + [last];
    assert trace[..|trace| - 1] == most && trace[|trace| - 1] == last;
    AddressFrom(b, last);
    var a := AnswerOf(configured, most);
    NothingAsked();
    var arp := ArpOf(last);
    if arp.Some? && Rank(a.source) > Rank(Inferred) {
      SettledAddress(b, arp.value.targetIp, last.mac);
    }
    if Rank(a.source) <= Rank(Inferred) {
      if arp.Some? && arp.value.op == Request && !arp.value.gratuitous {
        if Counts(a.counted, last) {
          RequestKeeps(b, a.counted, last);
        } else {
          UncountedRequest(b, a.counted, last);
        }
      } else {
        NoRequestKeeps(b, a.counted, last);
      }
    }
  }

  // A request about a new candidate, with every slot taken, changes nothing.
  lemma UncountedRequest(b: Belief, counted: seq<Observation>, obs: Observation)
    requires Keeps(b, counted) && !Counts(counted, obs)
    ensures RecordAsker(b, ArpOf(obs).value.targetIp, obs.mac) == b
  {
    hide IsHostV4, AskedAbout, AskersOf;
    assert |b.askers| == |b.askers.Keys|;
  }

  lemma SettledAddress(b: Belief, target: Ipv4, asker: Mac)
    requires Rank(b.ipSource) > Rank(Inferred)
    ensures RecordAsker(b, target, asker) == b
  {
    hide IsHostV4;
  }

  lemma NoRequestKeeps(b: Belief, recent: seq<Observation>, obs: Observation)
    requires Keeps(b, recent)
    requires !(ArpOf(obs).Some? && ArpOf(obs).value.op == Request && !ArpOf(obs).value.gratuitous)
    ensures !Third(recent, obs) && Counts(recent, obs) && Keeps(b, recent + [obs])
  {
    hide AskersOf, AskedAbout, IsHostV4;
    AskedMoreAbout(recent, obs);
    forall t
      ensures AskersOf(recent + [obs], t) == AskersOf(recent, t)
    {
      AskersMore(recent, obs, t);
    }
  }

  lemma {:induction false} ConfiguredStays(configured: Option<Ipv4>, trace: seq<Observation>)
    requires configured.Some?
    ensures AnswerOf(configured, trace) == Answer(configured, Configured, [])
  {
    if trace != [] {
      ConfiguredStays(configured, trace[..|trace| - 1]);
    }
  }

  // ---------- the laws, one by one ----------

  // A router named by DHCP becomes the address, unless one is configured.
  lemma RouterBecomesAddress(b: Belief, obs: Observation)
    requires Sensible(b) && RouterOf(obs).Some? && b.ipSource != Configured
    ensures Believed(b, obs).ip == RouterOf(obs) && Believed(b, obs).ipSource == FromDhcp
  {
    hide Sensible, IsHostV4;
    AddressFrom(b, obs);
  }

  // With nothing better known, an address is inferred at exactly the frame where
  // a third device has asked about it.
  lemma InferredAtTheThird(mac: Option<Mac>, proxyArp: bool, trace: seq<Observation>, obs: Observation)
    requires LastRouter(trace).None? && RouterOf(obs).None?
    ensures var b := BeliefAfter(Initial(None, mac, proxyArp), trace);
            var c := BeliefAfter(Initial(None, mac, proxyArp), trace + [obs]);
            var counted := AnswerOf(None, trace).counted;
            if Counts(counted, obs) && Third(counted, obs) then c.ip == Some(ArpOf(obs).value.targetIp) && c.ipSource == Inferred
            else c.ip == b.ip && c.ipSource == b.ipSource
  {
    hide Third, BeliefAfter, Counts;
    var all := trace + [obs];
    assert all[..|all| - 1] == trace && all[|all| - 1] == obs;
    AddressIsTheAnswer(None, mac, proxyArp, trace);
    AddressIsTheAnswer(None, mac, proxyArp, all);
  }

  // Where the address and source now believed were last settled.
  function SettledFrom(b: Belief, trace: seq<Observation>): (from: nat)
    ensures from <= |trace|
  {
    if trace == [] then 0
    else
      var before, after := BeliefAfter(b, trace[..|trace| - 1]), BeliefAfter(b, trace);
      if after.ip != before.ip || after.ipSource != before.ipSource then |trace| else SettledFrom(b, trace[..|trace| - 1])
  }

  // The frames that can tell whose hardware it is: the one that settled the
  // address, and those after it.
  function Telling(b: Belief, trace: seq<Observation>): seq<Observation> {
    var from := SettledFrom(b, trace);
    if from > 0 then trace[from - 1..] else trace
  }

  // Whose hardware the address was believed to be before it was settled, when it
  // was the same address then.
  function Inherited(b: Belief, trace: seq<Observation>): Option<Mac> {
    var from := SettledFrom(b, trace);
    if from == 0 then b.mac
    else
      var before := BeliefAfter(b, trace[..from - 1]);
      if before.ip == BeliefAfter(b, trace).ip then before.mac else None
  }

  // With no hardware address configured, the one believed is the sender of the
  // first frame to speak for the address since it was settled; until one does, it
  // is what was known of the same address before.
  lemma {:induction false} HardwareIsFirstSpeaker(ip: Option<Ipv4>, proxyArp: bool, trace: seq<Observation>)
    ensures var b := Initial(ip, None, proxyArp);
            var c := BeliefAfter(b, trace);
            && (c.ip.None? ==> c.mac.None?)
            && (c.ip.Some? ==>
                  var speaker := FirstSpeaker(Telling(b, trace), c.ip.value);
                  if speaker.Some? then c.mac == speaker && c.macSource == c.ipSource
                  else c.mac == Inherited(b, trace) && Rank(c.macSource) < Rank(c.ipSource))
  {
    hide Believed, Sensible, Speaks;
    var b := Initial(ip, None, proxyArp);
    AlwaysSensible(ip, None, proxyArp, trace);
    SensibleMac(BeliefAfter(b, trace));
    if trace != [] {
      var most, last := trace[..|trace| - 1], trace[|trace| - 1];
      HardwareIsFirstSpeaker(ip, proxyArp, most);
      AlwaysSensible(ip, None, proxyArp, most);
      NeverConfigured(ip, proxyArp, most);
      var before, after := BeliefAfter(b, most), BeliefAfter(b, trace);
      OneFrame(before, last);
      BelievedSteady(before, last);
      if after.ip.Some? {
        if after.ip != before.ip || after.ipSource != before.ipSource {
          assert Telling(b, trace) == [last];
          OneSpeaker(last, after.ip.value);
          assert trace[..|trace| - 1] == most;
          SensibleMac(before);
        } else {
          TellingMore(b, trace);
          SpeakerMore(Telling(b, most), last, after.ip.value);
        }
      }
    }
  }

  lemma SensibleMac(b: Belief)
    requires Sensible(b)
    ensures b.ip.None? && b.macSource != Configured ==> b.mac.None?
    ensures b.macSource != Configured ==> Rank(b.macSource) <= Rank(b.ipSource)
    ensures b.ip.Some? <==> b.ipSource != Unknown
  {
    hide Distinct;
  }

  lemma OneSpeaker(obs: Observation, address: Ipv4)
    ensures FirstSpeaker([obs], address) == if Speaks(obs, address) then Some(obs.mac) else None
  {
    hide Speaks;
    assert [obs][..0] == [] && FirstSpeaker([obs][..0], address) == None;
  }

  lemma SpeakerMore(trace: seq<Observation>, obs: Observation, address: Ipv4)
    ensures FirstSpeaker(trace + [obs], address)
         == if FirstSpeaker(trace, address).Some? then FirstSpeaker(trace, address)
            else if Speaks(obs, address) then Some(obs.mac) else None
  {
    hide Speaks;
    assert (trace + [obs])[..|trace|] == trace;
  }

  lemma TellingMore(b: Belief, trace: seq<Observation>)
    requires trace != [] && SettledFrom(b, trace) == SettledFrom(b, trace[..|trace| - 1])
    requires BeliefAfter(b, trace).ip == BeliefAfter(b, trace[..|trace| - 1]).ip
    ensures Telling(b, trace) == Telling(b, trace[..|trace| - 1]) + [trace[|trace| - 1]]
    ensures Inherited(b, trace) == Inherited(b, trace[..|trace| - 1])
  {
    hide SettledFrom, BeliefAfter;
    var from := SettledFrom(b, trace);
    SliceLast(trace, if from > 0 then from - 1 else 0);
  }

  lemma SliceLast(trace: seq<Observation>, k: nat)
    requires k < |trace|
    ensures trace[k..] == trace[..|trace| - 1][k..] + [trace[|trace| - 1]]
    ensures trace[0..] == trace && trace[..|trace| - 1][0..] == trace[..|trace| - 1]
    ensures trace[..|trace| - 1][..k] == trace[..k]
  {}

  // A hardware address is as good as configured only when it was learned for a
  // configured address.
  lemma {:induction false} NeverConfigured(ip: Option<Ipv4>, proxyArp: bool, trace: seq<Observation>)
    ensures var b := BeliefAfter(Initial(ip, None, proxyArp), trace);
            b.macSource == Configured ==> b.ipSource == Configured
  {
    hide Believed, Sensible, Speaks;
    if trace != [] {
      var most, last := trace[..|trace| - 1], trace[|trace| - 1];
      NeverConfigured(ip, proxyArp, most);
      AlwaysSensible(ip, None, proxyArp, most);
      OneFrame(BeliefAfter(Initial(ip, None, proxyArp), most), last);
      BelievedSteady(BeliefAfter(Initial(ip, None, proxyArp), most), last);
    }
  }
}
