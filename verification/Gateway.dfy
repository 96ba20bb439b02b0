/**
 Which device is the gateway: a belief about an address and a hardware address,
 each with the source it came from, folded over the observations.
 */
module Gateway {
  import opened Options
  import opened Types

  const INFERENCE_QUORUM: nat := 3
  const MAX_CANDIDATES: nat := 512
  const MAX_PROXIED: nat := 256

  datatype GatewaySource = Unknown | Configured | FromDhcp | Inferred

  function Rank(s: GatewaySource): nat {
    match s
    case Unknown => 0
    case Inferred => 1
    case FromDhcp => 2
    case Configured => 3
  }

  datatype Belief = Belief(
    ip: Option<Ipv4>,
    ipSource: GatewaySource,
    mac: Option<Mac>,
    macSource: GatewaySource,
    askers: map<Ipv4, seq<Mac>>,
    proxyArp: bool,
    proxied: set<Ipv4>)

  function Initial(ip: Option<Ipv4>, mac: Option<Mac>, proxyArp: bool): Belief {
    Belief(ip, if ip.Some? then Configured else Unknown, mac, if mac.Some? then Configured else Unknown, map[], proxyArp, {})
  }

  // ---------- reading an observation ----------

  function ArpOf(obs: Observation): Option<ArpDetail> {
    if obs.detail.Some? && obs.detail.value.Arp? then Some(obs.detail.value.arp) else None
  }

  function RouterOf(obs: Observation): Option<Ipv4> {
    if obs.detail.Some? && obs.detail.value.Dhcp? then obs.detail.value.router else None
  }

  // What the ARP parser guarantees: the address it reports is the sender's
  // claim, and only a claim on the target itself is gratuitous.
  predicate Coherent(obs: Observation) {
    var arp := ArpOf(obs);
    arp.Some? ==>
      && obs.ip == (if arp.value.senderIp.Some? then Some(V4(arp.value.senderIp.value)) else None)
      && arp.value.gratuitous == (arp.value.senderIp == Some(arp.value.targetIp))
  }

  // ---------- the belief ----------

  function SetIp(b: Belief, ip: Ipv4, source: GatewaySource): Belief {
    if Rank(source) < Rank(b.ipSource) then b
    else
      var moved := b.ip != Some(ip) && b.macSource != Configured;
      b.(ip := Some(ip), ipSource := source, askers := map[],
         mac := if moved then None else b.mac,
         macSource := if moved then Unknown else b.macSource)
  }

  // Learning needs equal rank; replacing needs strictly more.
  function SetMac(b: Belief, mac: Mac, source: GatewaySource): Belief {
    if source == Unknown then b
    else if b.mac == Some(mac) then
      if Rank(source) > Rank(b.macSource) then b.(macSource := source) else b
    else if b.mac.Some? then
      if Rank(source) > Rank(b.macSource) then b.(mac := Some(mac), macSource := source) else b
    else if Rank(source) >= Rank(b.macSource) then b.(mac := Some(mac), macSource := source)
    else b
  }

  function AskersAfter(b: Belief, target: Ipv4, asker: Mac): seq<Mac> {
    var known := if target in b.askers then b.askers[target] else [];
    if asker in known then known else known + [asker]
  }

  function RecordAsker(b: Belief, target: Ipv4, asker: Mac): Belief {
    if !IsHostV4(target) then b
    else if Rank(b.ipSource) > Rank(Inferred) then b
    else if target !in b.askers && |b.askers| >= MAX_CANDIDATES then b
    else
      var askers := AskersAfter(b, target, asker);
      var noted := b.(askers := b.askers[target := askers]);
      if |askers| >= INFERENCE_QUORUM then SetIp(noted, target, Inferred) else noted
  }

  predicate IsGateway(b: Belief, mac: Mac) {
    b.mac == Some(mac)
  }

  predicate IsGatewayIp(b: Belief, ip: Ipv4) {
    b.ip == Some(ip)
  }

  // The address a frame is the gateway answering for on somebody's behalf.
  function ProxyArpFor(b: Belief, obs: Observation): Option<Ipv4> {
    var arp := ArpOf(obs);
    if b.proxyArp && arp.Some? && arp.value.op == Reply && IsGateway(b, obs.mac)
       && arp.value.senderIp.Some? && !IsGatewayIp(b, arp.value.senderIp.value)
    then arp.value.senderIp
    else None
  }

  // A frame, and what was believed of the gateway when the analyzers read it.
  datatype Sighting = Sighting(obs: Observation, belief: Belief)

  // The frame is an ARP reply naming `a` as its sender's address.
  predicate AnswersFor(obs: Observation, a: Ipv4) {
    obs.detail.Some? && obs.detail.value.Arp? && obs.detail.value.arp.op == Reply && obs.detail.value.arp.senderIp == Some(a)
  }

  // The gateway, and while that is allowed, answering for an address that is not
  // its own.
  predicate Proxies(s: Sighting, a: Ipv4) {
    AnswersFor(s.obs, a) && s.belief.proxyArp && s.belief.mac == Some(s.obs.mac) && s.belief.ip != Some(a)
  }

  lemma ProxyArpExactly(s: Sighting)
    ensures forall a: Ipv4 :: ProxyArpFor(s.belief, s.obs) == Some(a) <==> Proxies(s, a)
  {}

  function NoteProxyArp(b: Belief, address: Ipv4): Belief {
    if address in b.proxied || |b.proxied| >= MAX_PROXIED then b else b.(proxied := b.proxied + {address})
  }

  function AfterDhcp(b: Belief, obs: Observation): Belief {
    var router := RouterOf(obs);
    if router.Some? then SetIp(b, router.value, FromDhcp) else b
  }

  function AfterArp(b: Belief, obs: Observation): Belief {
    var arp := ArpOf(obs);
    if arp.None? then b
    else
      match arp.value.op
      case Reply =>
        if arp.value.senderIp.Some? && b.ip == arp.value.senderIp then SetMac(b, obs.mac, b.ipSource) else b
      case Request =>
        if arp.value.gratuitous then b else RecordAsker(b, arp.value.targetIp, obs.mac)
  }

  function AfterTraffic(b: Belief, obs: Observation): Belief {
    if obs.ip.Some? && obs.ip.value.V4? && b.ip == Some(obs.ip.value.v4) then SetMac(b, obs.mac, b.ipSource) else b
  }

  function Believed(b: Belief, obs: Observation): Belief {
    var learned := AfterTraffic(AfterArp(AfterDhcp(b, obs), obs), obs);
    var proxied := ProxyArpFor(learned, obs);
    if proxied.Some? then NoteProxyArp(learned, proxied.value) else learned
  }

  function BeliefAfter(b: Belief, trace: seq<Observation>): Belief {
    if trace == [] then b else Believed(BeliefAfter(b, trace[..|trace| - 1]), trace[|trace| - 1])
  }

  // ---------- what every belief keeps ----------

  ghost predicate Distinct(s: seq<Mac>) {
    forall i, j :: 0 <= i < j < |s| ==> s[i] != s[j]
  }

  // A source is known exactly when its answer is; a configured address is never
  // paired with a guessed hardware address; candidates are few, distinct and
  // short of the quorum.
  ghost predicate Sensible(b: Belief) {
    && (b.ip.Some? <==> b.ipSource != Unknown)
    && (b.mac.Some? <==> b.macSource != Unknown)
    && (b.macSource != Configured ==> Rank(b.macSource) <= Rank(b.ipSource))
    && (b.ipSource == Configured ==> b.macSource in {Unknown, Configured})
    && |b.askers| <= MAX_CANDIDATES
    && (forall t :: t in b.askers ==> Distinct(b.askers[t]) && 1 <= |b.askers[t]| < INFERENCE_QUORUM)
    && |b.proxied| <= MAX_PROXIED
  }

  lemma SetIpSensible(b: Belief, ip: Ipv4, source: GatewaySource)
    requires source == FromDhcp || source == Inferred
    requires Sensible(b.(askers := map[]))
    requires Rank(source) < Rank(b.ipSource) ==> Sensible(b)
    ensures Sensible(SetIp(b, ip, source))
  {}

  lemma SetMacSensible(b: Belief, mac: Mac)
    requires Sensible(b)
    ensures Sensible(SetMac(b, mac, b.ipSource))
  {
    hide Distinct;
  }

  lemma AskersAfterShort(b: Belief, target: Ipv4, asker: Mac)
    requires Sensible(b)
    ensures var askers := AskersAfter(b, target, asker);
            Distinct(askers) && 1 <= |askers| <= INFERENCE_QUORUM
  {}

  lemma OneMoreCandidate<V>(m: map<Ipv4, V>, target: Ipv4, v: V)
    ensures |m[target := v]| == if target in m then |m| else |m| + 1
  {
    assert m[target := v].Keys == m.Keys + {target};
    if target in m { assert m[target := v].Keys == m.Keys; }
  }

  lemma RecordAskerSensible(b: Belief, target: Ipv4, asker: Mac)
    requires Sensible(b)
    ensures Sensible(RecordAsker(b, target, asker))
  {
    hide IsHostV4, Distinct, AskersAfter, SetIp;
    var askers := AskersAfter(b, target, asker);
    AskersAfterShort(b, target, asker);
    OneMoreCandidate(b.askers, target, askers);
    if |askers| >= INFERENCE_QUORUM && Rank(b.ipSource) <= Rank(Inferred) {
      SetIpSensible(b.(askers := b.askers[target := askers]), target, Inferred);
    }
  }

  lemma BelievedSensible(b: Belief, obs: Observation)
    requires Sensible(b)
    ensures Sensible(Believed(b, obs))
  {
    hide Sensible, SetIp, SetMac, RecordAsker;
    var router := RouterOf(obs);
    if router.Some? {
      ClearedSensible(b);
      SetIpSensible(b, router.value, FromDhcp);
    }
    var b1 := AfterDhcp(b, obs);
    var arp := ArpOf(obs);
    SetMacSensible(b1, obs.mac);
    if arp.Some? { RecordAskerSensible(b1, arp.value.targetIp, obs.mac); }
    var b2 := AfterArp(b1, obs);
    SetMacSensible(b2, obs.mac);
    var b3 := AfterTraffic(b2, obs);
    var proxied := ProxyArpFor(b3, obs);
    if proxied.Some? { NoteSensible(b3, proxied.value); }
  }

  lemma ClearedSensible(b: Belief)
    requires Sensible(b)
    ensures Sensible(b.(askers := map[]))
  {}

  lemma NoteSensible(b: Belief, address: Ipv4)
    requires Sensible(b)
    ensures Sensible(NoteProxyArp(b, address))
  {}

  lemma {:induction false} AlwaysSensible(ip: Option<Ipv4>, mac: Option<Mac>, proxyArp: bool, trace: seq<Observation>)
    ensures Sensible(BeliefAfter(Initial(ip, mac, proxyArp), trace))
  {
    hide Believed;
    if trace != [] {
      AlwaysSensible(ip, mac, proxyArp, trace[..|trace| - 1]);
      BelievedSensible(BeliefAfter(Initial(ip, mac, proxyArp), trace[..|trace| - 1]), trace[|trace| - 1]);
    }
  }

  // ---------- what one observation may change ----------

  // Everything the tracker promises about one observation: what is configured
  // stays, the address's source never weakens, and while the address stays the
  // hardware address is never forgotten and is replaced only by stronger
  // evidence.
  ghost predicate Steady(b: Belief, c: Belief) {
    && Rank(b.ipSource) <= Rank(c.ipSource)
    && (b.ipSource == Configured ==> c.ip == b.ip && c.ipSource == Configured)
    && (b.macSource == Configured ==> c.mac == b.mac && c.macSource == Configured)
    && (c.ip == b.ip ==> Rank(b.macSource) <= Rank(c.macSource))
    && (c.ip == b.ip && b.mac.Some? && c.mac != b.mac ==> c.mac.Some? && Rank(b.macSource) < Rank(c.macSource))
    && (c.macSource == Configured && b.macSource != Configured ==> b.mac.None?)
    && c.proxyArp == b.proxyArp
  }

  lemma LearnedSteady(b: Belief, obs: Observation)
    requires Sensible(b)
    ensures Steady(b, AfterTraffic(AfterArp(AfterDhcp(b, obs), obs), obs))
  {
    hide IsHostV4, Distinct;
  }

  lemma BelievedSteady(b: Belief, obs: Observation)
    requires Sensible(b)
    ensures Steady(b, Believed(b, obs))
  {
    hide AfterDhcp, AfterArp, AfterTraffic, Sensible;
    LearnedSteady(b, obs);
  }

  // ---------- whole traces ----------

  lemma {:induction false} SourcesHold(b: Belief, trace: seq<Observation>)
    requires Sensible(b)
    ensures var c := BeliefAfter(b, trace);
            && Sensible(c)
            && Rank(b.ipSource) <= Rank(c.ipSource)
            && (b.ipSource == Configured ==> c.ip == b.ip && c.ipSource == Configured)
            && (b.macSource == Configured ==> c.mac == b.mac && c.macSource == Configured)
  {
    hide Believed, Sensible;
    if trace != [] {
      var most := trace[..|trace| - 1];
      SourcesHold(b, most);
      BelievedSensible(BeliefAfter(b, most), trace[|trace| - 1]);
      BelievedSteady(BeliefAfter(b, most), trace[|trace| - 1]);
    }
  }

  // How often a known hardware address gave way to another.
  function Replacements(b: Belief, trace: seq<Observation>): nat {
    if trace == [] then 0
    else
      var before := BeliefAfter(b, trace[..|trace| - 1]);
      var after := BeliefAfter(b, trace);
      Replacements(b, trace[..|trace| - 1])
      + (if before.mac.Some? && after.mac.Some? && before.mac != after.mac then 1 else 0)
  }

  ghost predicate AddressStays(b: Belief, trace: seq<Observation>) {
    forall k :: 0 <= k <= |trace| ==> BeliefAfter(b, trace[..k]).ip == b.ip
  }

  lemma {:induction false} ReplacementsClimb(b: Belief, trace: seq<Observation>)
    requires Sensible(b) && AddressStays(b, trace)
    ensures var c := BeliefAfter(b, trace);
            && Rank(b.macSource) <= Rank(c.macSource)
            && (b.mac.Some? ==> Rank(b.macSource) + Replacements(b, trace) <= Rank(c.macSource))
            && (b.mac.None? ==> Replacements(b, trace) == 0 || Replacements(b, trace) + 1 <= Rank(c.macSource))
            && (c.macSource == Configured ==> Replacements(b, trace) == 0)
            && Sensible(c)
  {
    hide Believed;
    if trace != [] {
      var most := trace[..|trace| - 1];
      forall k | 0 <= k <= |most|
        ensures BeliefAfter(b, most[..k]).ip == b.ip
      {
        assert most[..k] == trace[..k];
      }
      ReplacementsClimb(b, most);
      var before := BeliefAfter(b, most);
      assert trace[..|trace| - 1] == most && trace[..|trace|] == trace;
      assert before.ip == b.ip == BeliefAfter(b, trace).ip by {
        assert BeliefAfter(b, trace[..|trace| - 1]).ip == b.ip;
        assert BeliefAfter(b, trace[..|trace|]).ip == b.ip;
      }
      BelievedSensible(before, trace[|trace| - 1]);
      BelievedSteady(before, trace[|trace| - 1]);
    }
  }

  // Between two changes of the address, the hardware address is replaced at most
  // once, however much traffic claims otherwise.
  lemma ReplacedAtMostOnce(b: Belief, trace: seq<Observation>)
    requires Sensible(b) && AddressStays(b, trace)
    ensures Replacements(b, trace) <= 1
  {
    hide BeliefAfter, Replacements;
    ReplacementsClimb(b, trace);
  }

  // ---------- where an inferred address comes from ----------

  // The observation is an ordinary request for an address.
  predicate Asks(obs: Observation, target: Ipv4, asker: Mac) {
    var arp := ArpOf(obs);
    arp.Some? && arp.value.op == Request && !arp.value.gratuitous && arp.value.targetIp == target && obs.mac == asker
  }

  ghost predicate AskedIn(trace: seq<Observation>, target: Ipv4, asker: Mac) {
    exists o :: o in trace && Asks(o, target, asker)
  }

  ghost predicate Popular(trace: seq<Observation>, target: Ipv4) {
    exists m, n, p :: m != n && n != p && m != p
                      && AskedIn(trace, target, m) && AskedIn(trace, target, n) && AskedIn(trace, target, p)
  }

  ghost predicate Grounded(b: Belief, trace: seq<Observation>) {
    && (forall t, m :: t in b.askers && m in b.askers[t] ==> AskedIn(trace, t, m))
    && (b.ipSource == Inferred ==> b.ip.Some? && Popular(trace, b.ip.value))
  }

  lemma AskedMore(trace: seq<Observation>, more: Observation)
    ensures forall t, m :: AskedIn(trace, t, m) ==> AskedIn(trace + [more], t, m)
    ensures forall t :: Popular(trace, t) ==> Popular(trace + [more], t)
    ensures forall t, m :: Asks(more, t, m) ==> AskedIn(trace + [more], t, m)
  {
    var all := trace + [more];
    forall t, m | AskedIn(trace, t, m)
      ensures AskedIn(all, t, m)
    {
      var o :| o in trace && Asks(o, t, m);
      assert o in all;
    }
    assert more in all;
    forall t | Popular(trace, t)
      ensures Popular(all, t)
    {
      var m, n, p :| m != n && n != p && m != p
                     && AskedIn(trace, t, m) && AskedIn(trace, t, n) && AskedIn(trace, t, p);
      assert AskedIn(all, t, m) && AskedIn(all, t, n) && AskedIn(all, t, p);
    }
  }

  lemma RecordAskerGrounded(b: Belief, target: Ipv4, asker: Mac, trace: seq<Observation>)
    requires Sensible(b) && Grounded(b, trace) && AskedIn(trace, target, asker)
    ensures Grounded(RecordAsker(b, target, asker), trace)
  {
    hide IsHostV4, AskedIn;
    var askers := AskersAfter(b, target, asker);
    assert forall m :: m in askers ==> AskedIn(trace, target, m);
    if |askers| >= INFERENCE_QUORUM {
      var known := if target in b.askers then b.askers[target] else [];
      assert |known| == 2 && askers == known + [asker];
      assert known[0] != known[1];
      assert AskedIn(trace, target, askers[0]) && AskedIn(trace, target, askers[1]) && AskedIn(trace, target, askers[2]);
      assert askers[0] != askers[1] && askers[1] != askers[2] && askers[0] != askers[2];
      assert Popular(trace, target);
    }
  }

  lemma SetIpGrounded(b: Belief, ip: Ipv4, trace: seq<Observation>)
    requires Grounded(b, trace)
    ensures Grounded(SetIp(b, ip, FromDhcp), trace)
  {
    hide Popular, AskedIn;
  }

  lemma SetMacGrounded(b: Belief, mac: Mac, source: GatewaySource, trace: seq<Observation>)
    requires Grounded(b, trace)
    ensures Grounded(SetMac(b, mac, source), trace)
  {
    hide Popular, AskedIn;
  }

  lemma BelievedGrounded(b: Belief, trace: seq<Observation>, obs: Observation)
    requires Sensible(b) && Grounded(b, trace)
    ensures Grounded(Believed(b, obs), trace + [obs])
  {
    hide Sensible, Grounded, RecordAsker, SetIp, SetMac, IsHostV4;
    var all := trace + [obs];
    GroundedMore(b, trace, obs);
    if RouterOf(obs).Some? { SetIpGrounded(b, RouterOf(obs).value, all); }
    var b1 := AfterDhcp(b, obs);
    SetMacGrounded(b1, obs.mac, b1.ipSource, all);
    var arp := ArpOf(obs);
    if arp.Some? && arp.value.op == Request && !arp.value.gratuitous {
      AskedMore(trace, obs);
      assert Asks(obs, arp.value.targetIp, obs.mac);
      RecordAskerGrounded(b1, arp.value.targetIp, obs.mac, all);
    }
    var b2 := AfterArp(b1, obs);
    SetMacGrounded(b2, obs.mac, b2.ipSource, all);
    var b3 := AfterTraffic(b2, obs);
    assert Grounded(b3, all);
    NotedGrounded(b3, Believed(b, obs), all);
  }

  lemma GroundedMore(b: Belief, trace: seq<Observation>, obs: Observation)
    requires Grounded(b, trace)
    ensures Grounded(b, trace + [obs])
  {
    hide Popular, AskedIn;
    AskedMore(trace, obs);
  }

  lemma NotedGrounded(b: Belief, c: Belief, trace: seq<Observation>)
    requires Grounded(b, trace) && c == b.(proxied := c.proxied)
    ensures Grounded(c, trace)
  {
    hide Popular, AskedIn;
  }

  // An address that was inferred was asked about, by ordinary requests, by at
  // least three different devices.
  lemma {:induction false} InferredWasPopular(ip: Option<Ipv4>, mac: Option<Mac>, proxyArp: bool, trace: seq<Observation>)
    ensures Grounded(BeliefAfter(Initial(ip, mac, proxyArp), trace), trace)
  {
    hide Believed, Sensible, Popular, AskedIn;
    if trace != [] {
      var most, last := trace[..|trace| - 1], trace[|trace| - 1];
      InferredWasPopular(ip, mac, proxyArp, most);
      AlwaysSensible(ip, mac, proxyArp, most);
      BelievedGrounded(BeliefAfter(Initial(ip, mac, proxyArp), most), most, last);
      assert most + [last] == trace;
    }
  }

  // ---------- since the address last changed ----------

  // Where the frames since the last change of address begin.
  function StableFrom(b: Belief, trace: seq<Observation>): (from: nat)
    ensures from <= |trace|
  {
    if trace == [] then 0
    else if BeliefAfter(b, trace).ip != BeliefAfter(b, trace[..|trace| - 1]).ip then |trace|
    else StableFrom(b, trace[..|trace| - 1])
  }

  // Frame `k` brought the address held after the trace, and nothing since has
  // changed it.
  ghost predicate BroughtBy(b: Belief, trace: seq<Observation>, k: nat) {
    && k < |trace| && StableFrom(b, trace) == k + 1
    && BeliefAfter(b, trace[..k + 1]).ip == BeliefAfter(b, trace).ip != BeliefAfter(b, trace[..k]).ip
  }

  // The three asked, by ordinary requests, after the change of address before
  // that one, up to the frame itself.
  ghost predicate PopularSince(b: Belief, trace: seq<Observation>, k: nat, target: Ipv4)
    requires k < |trace|
  {
    Popular(trace[StableFrom(b, trace[..k])..k + 1], target)
  }

  ghost predicate GroundedSince(b: Belief, trace: seq<Observation>) {
    var c := BeliefAfter(b, trace);
    && AskersIn(c, trace[StableFrom(b, trace)..])
    && (c.ipSource == Inferred ==>
          c.ip.Some? && exists k: nat :: BroughtBy(b, trace, k) && PopularSince(b, trace, k, c.ip.value))
  }

  ghost predicate AskersIn(b: Belief, trace: seq<Observation>) {
    forall t, m :: t in b.askers && m in b.askers[t] ==> AskedIn(trace, t, m)
  }

  // What one frame may do to the address and its candidates: a change of address
  // drops them, and an inferred address three devices asked about.
  ghost predicate Since(b: Belief, c: Belief, trace: seq<Observation>) {
    && (c.ip != b.ip ==> c.askers == map[] && (c.ipSource == Inferred ==> c.ip.Some? && Popular(trace, c.ip.value)))
    && (c.ip == b.ip ==> AskersIn(c, trace) && (c.ipSource == Inferred ==> b.ipSource == Inferred))
  }

  // The address and its candidates come from the DHCP answer or the request in
  // the frame, if it is one.
  lemma AddressFrom(b: Belief, obs: Observation)
    ensures var c := Believed(b, obs);
            var arp := ArpOf(obs);
            var d := if RouterOf(obs).Some? then SetIp(b, RouterOf(obs).value, FromDhcp)
                     else if arp.Some? && arp.value.op == Request && !arp.value.gratuitous
                     then RecordAsker(b, arp.value.targetIp, obs.mac)
                     else b;
            c.ip == d.ip && c.ipSource == d.ipSource && c.askers == d.askers
  {
    hide RecordAsker, SetIp;
  }

  lemma RecordAskerSince(b: Belief, target: Ipv4, asker: Mac, trace: seq<Observation>)
    requires Sensible(b) && AskersIn(b, trace) && AskedIn(trace, target, asker)
    ensures Since(b, RecordAsker(b, target, asker), trace)
  {
    hide IsHostV4, AskedIn;
    var askers := AskersAfter(b, target, asker);
    assert forall m :: m in askers ==> AskedIn(trace, target, m);
    if |askers| >= INFERENCE_QUORUM {
      var known := if target in b.askers then b.askers[target] else [];
      assert |known| == 2 && askers == known + [asker] && known[0] != known[1];
      assert AskedIn(trace, target, askers[0]) && AskedIn(trace, target, askers[1]) && AskedIn(trace, target, askers[2]);
      assert askers[0] != askers[1] && askers[1] != askers[2] && askers[0] != askers[2];
      assert Popular(trace, target);
    }
  }

  lemma BelievedSince(b: Belief, recent: seq<Observation>, obs: Observation)
    requires Sensible(b) && AskersIn(b, recent)
    ensures Since(b, Believed(b, obs), recent + [obs])
  {
    hide Popular, AskedIn, Believed, Sensible, RecordAsker;
    var trace := recent + [obs];
    AskedMore(recent, obs);
    AddressFrom(b, obs);
    var arp := ArpOf(obs);
    if RouterOf(obs).None? && arp.Some? && arp.value.op == Request && !arp.value.gratuitous {
      assert Asks(obs, arp.value.targetIp, obs.mac);
      RecordAskerSince(b, arp.value.targetIp, obs.mac, trace);
    }
  }

  // An inferred address was asked about by three different devices in the frames
  // between the change of address before it and the frame that brought it.
  lemma {:induction false} InferredSinceChange(ip: Option<Ipv4>, mac: Option<Mac>, proxyArp: bool, trace: seq<Observation>)
    ensures GroundedSince(Initial(ip, mac, proxyArp), trace)
  {
    hide Believed, Sensible, Popular, AskedIn;
    var b := Initial(ip, mac, proxyArp);
    if trace != [] {
      var most, last := trace[..|trace| - 1], trace[|trace| - 1];
      InferredSinceChange(ip, mac, proxyArp, most);
      AlwaysSensible(ip, mac, proxyArp, most);
      var before, after := BeliefAfter(b, most), BeliefAfter(b, trace);
      var from := StableFrom(b, most);
      BelievedSince(before, most[from..], last);
      assert most[from..] + [last] == trace[from..];
      if after.ip != before.ip {
        if after.ipSource == Inferred {
          var k := |most|;
          assert trace[..k] == most && trace[..k + 1] == trace && trace[from..k + 1] == trace[from..];
          assert BroughtBy(b, trace, k) && PopularSince(b, trace, k, after.ip.value);
        }
      } else if after.ipSource == Inferred {
        var k: nat :| BroughtBy(b, most, k) && PopularSince(b, most, k, before.ip.value);
        assert most[..k] == trace[..k] && most[..k + 1] == trace[..k + 1];
        assert most[StableFrom(b, most[..k])..k + 1] == trace[StableFrom(b, trace[..k])..k + 1];
        assert BroughtBy(b, trace, k) && PopularSince(b, trace, k, after.ip.value);
      }
    }
  }

  // ---------- proxy ARP ----------

  // A frame recognised as proxy ARP once it has been taken in has changed
  // nothing but the report, even while the tracker is still learning.
  lemma ProxyFrameTeachesNothing(b: Belief, obs: Observation)
    requires Coherent(obs) && ProxyArpFor(Believed(b, obs), obs).Some?
    ensures Believed(b, obs) == b.(proxied := Believed(b, obs).proxied)
  {
    hide RecordAsker;
  }

  // The belief without the report.
  function Core(b: Belief): Belief {
    b.(proxied := {})
  }

  lemma StagesIgnoreReport(b: Belief, obs: Observation)
    ensures AfterDhcp(Core(b), obs) == Core(AfterDhcp(b, obs))
    ensures AfterTraffic(Core(b), obs) == Core(AfterTraffic(b, obs))
    ensures ProxyArpFor(Core(b), obs) == ProxyArpFor(b, obs)
  {}

  lemma AskerIgnoresReport(b: Belief, target: Ipv4, asker: Mac)
    ensures RecordAsker(Core(b), target, asker) == Core(RecordAsker(b, target, asker))
  {
    hide IsHostV4;
  }

  lemma ArpIgnoresReport(b: Belief, obs: Observation)
    ensures AfterArp(Core(b), obs) == Core(AfterArp(b, obs))
  {
    hide RecordAsker;
    if ArpOf(obs).Some? { AskerIgnoresReport(b, ArpOf(obs).value.targetIp, obs.mac); }
  }

  // The report is never read: the rest of the belief, and what is recognised as
  // proxy ARP, are the same whatever it holds.
  lemma ReportNeverRead(b: Belief, obs: Observation)
    ensures Core(Believed(Core(b), obs)) == Core(Believed(b, obs))
    ensures ProxyArpFor(Believed(Core(b), obs), obs) == ProxyArpFor(Believed(b, obs), obs)
  {
    hide AfterDhcp, AfterArp, AfterTraffic, ProxyArpFor;
    StagesIgnoreReport(b, obs);
    ArpIgnoresReport(AfterDhcp(b, obs), obs);
    StagesIgnoreReport(AfterArp(AfterDhcp(b, obs), obs), obs);
    var learned := AfterTraffic(AfterArp(AfterDhcp(b, obs), obs), obs);
    StagesIgnoreReport(learned, obs);
    StagesIgnoreReport(Believed(b, obs), obs);
    StagesIgnoreReport(Believed(Core(b), obs), obs);
  }

  // ---------- the tracker ----------

  class GatewayTracker {
    var ip: Option<Ipv4>
    var ipSource: GatewaySource
    var mac: Option<Mac>
    var macSource: GatewaySource
    var askers: map<Ipv4, seq<Mac>>
    const proxyArp: bool
    var proxied: set<Ipv4>
    ghost const configured: Belief
    ghost var trace: seq<Observation>

    function Now(): Belief
      reads this
    {
      Belief(ip, ipSource, mac, macSource, askers, proxyArp, proxied)
    }

    ghost predicate Valid()
      reads this
    {
      Sensible(configured) && Now() == BeliefAfter(configured, trace)
    }

    constructor (ip: Option<Ipv4>, mac: Option<Mac>, proxyArp: bool)
      ensures Valid() && Now() == configured == Initial(ip, mac, proxyArp) && trace == []
    {
      this.ip := ip;
      this.ipSource := if ip.Some? then Configured else Unknown;
      this.mac := mac;
      this.macSource := if mac.Some? then Configured else Unknown;
      this.askers := map[];
      this.proxyArp := proxyArp;
      this.proxied := {};
      this.configured := Initial(ip, mac, proxyArp);
      this.trace := [];
    }

    method SetAddress(address: Ipv4, source: GatewaySource)
      modifies this`ip, this`ipSource, this`mac, this`macSource, this`askers
      ensures Now() == SetIp(old(Now()), address, source)
    {
      if Rank(source) < Rank(ipSource) {
        return;
      }
      if ip != Some(address) {
        if macSource != Configured {
          mac := None;
          macSource := Unknown;
        }
      }
      ip := Some(address);
      ipSource := source;
      askers := map[];
    }

    method SetHardware(address: Mac, source: GatewaySource)
      modifies this`mac, this`macSource
      ensures Now() == SetMac(old(Now()), address, source)
    {
      if source == Unknown {
        return;
      }
      match mac {
        case Some(known) =>
          if known == address {
            if Rank(source) > Rank(macSource) {
              macSource := source;
            }
          } else if Rank(source) > Rank(macSource) {
            mac := Some(address);
            macSource := source;
          }
        case None =>
          if Rank(source) >= Rank(macSource) {
            mac := Some(address);
            macSource := source;
          }
      }
    }

    method NoteAsker(target: Ipv4, asker: Mac)
      modifies this`ip, this`ipSource, this`mac, this`macSource, this`askers
      ensures Now() == RecordAsker(old(Now()), target, asker)
    {
      hide IsHostV4;
      if !IsHostV4(target) {
        return;
      }
      if Rank(ipSource) > Rank(Inferred) {
        return;
      }
      if target !in askers && |askers| >= MAX_CANDIDATES {
        return;
      }
      var known := if target in askers then askers[target] else [];
      if asker !in known {
        known := known + [asker];
      }
      askers := askers[target := known];
      if |known| >= INFERENCE_QUORUM {
        SetAddress(target, Inferred);
      }
    }

    method NoteProxied(address: Ipv4)
      modifies this`proxied
      ensures Now() == NoteProxyArp(old(Now()), address)
    {
      if address in proxied {
        return;
      }
      if |proxied| >= MAX_PROXIED {
        return;
      }
      proxied := proxied + {address};
    }

    // The same frame test the analyzers use, read off the fields.
    method ProxiedAddress(obs: Observation) returns (address: Option<Ipv4>)
      ensures address == ProxyArpFor(Now(), obs)
    {
      if !proxyArp {
        return None;
      }
      var arp := ArpOf(obs);
      if arp.None? || arp.value.op != Reply {
        return None;
      }
      if mac != Some(obs.mac) {
        return None;
      }
      if arp.value.senderIp.None? || ip == arp.value.senderIp {
        return None;
      }
      return arp.value.senderIp;
    }

    method Observe(obs: Observation)
      requires Valid()
      modifies this
      ensures Valid() && trace == old(trace) + [obs]
      ensures Now() == Believed(old(Now()), obs)
    {
      hide SetIp, SetMac, RecordAsker, NoteProxyArp, Sensible, BeliefAfter, ProxyArpFor;
      ghost var b := Now();
      var router := RouterOf(obs);
      if router.Some? {
        SetAddress(router.value, FromDhcp);
      }
      assert Now() == AfterDhcp(b, obs);
      var arp := ArpOf(obs);
      if arp.Some? {
        match arp.value.op {
          case Reply =>
            if arp.value.senderIp.Some? && ip == arp.value.senderIp {
              SetHardware(obs.mac, ipSource);
            }
          case Request =>
            if !arp.value.gratuitous {
              NoteAsker(arp.value.targetIp, obs.mac);
            }
        }
      }
      assert Now() == AfterArp(AfterDhcp(b, obs), obs);
      if obs.ip.Some? && obs.ip.value.V4? && ip == Some(obs.ip.value.v4) {
        SetHardware(obs.mac, ipSource);
      }
      var address := ProxiedAddress(obs);
      if address.Some? {
        NoteProxied(address.value);
      }
      assert Now() == Believed(b, obs);
      BeliefOneMore(configured, trace, obs);
      trace := trace + [obs];
    }
  }

  lemma BeliefOneMore(b: Belief, trace: seq<Observation>, obs: Observation)
    ensures BeliefAfter(b, trace + [obs]) == Believed(BeliefAfter(b, trace), obs)
  {
    assert (trace + [obs])[..|trace|] == trace;
  }
}
