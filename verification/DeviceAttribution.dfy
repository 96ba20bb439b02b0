/**
 Whose name is it: the rule by which evidence that names addresses finds its
 device, stated independently of the loop that applies it.
 */
module DeviceAttribution {
  import opened Options
  import opened Types
  import opened Identities
  import opened DeviceTable
  import opened DeviceTableFacts

  datatype Subject = Sender | Other(mac: Mac) | Nobody

  // An address the sender is using: a current one of its own, or the frame's
  // source.
  predicate SenderUses(b: Book, obs: Observation, a: IpAddr) {
    obs.ip == Some(a) || (obs.mac in b.devices && b.devices[obs.mac].Holds(a))
  }

  // The frame carries a claim that names only other people's addresses.
  ghost predicate Forfeits(b: Book, obs: Observation) {
    exists c :: c in obs.claims && c.addresses != [] && forall a :: a in c.addresses ==> !SenderUses(b, obs, a)
  }

  // A device other than the sender holds this address: it used it last and
  // still uses it.
  predicate Holds(b: Book, m: Mac, a: IpAddr) {
    a in b.addresses && b.addresses[a] == m && m in b.devices && b.devices[m].Holds(a)
  }

  // The subject of a claim, by the four rules.
  ghost predicate IsSubject(b: Book, obs: Observation, c: NameClaim, s: Subject) {
    var senders := exists a :: a in c.addresses && SenderUses(b, obs, a);
    match s
    case Sender => senders || (c.addresses == [] && !Forfeits(b, obs))
    case Other(m) =>
      && !senders
      && exists i :: 0 <= i < |c.addresses| && Holds(b, m, c.addresses[i])
                     && forall j, n :: 0 <= j < i ==> !Holds(b, n, c.addresses[j])
    case Nobody =>
      && !senders
      && (c.addresses == [] ==> Forfeits(b, obs))
      && forall a, n :: a in c.addresses ==> !Holds(b, n, a)
  }

  function SubjectOf(b: Book, obs: Observation, c: NameClaim): Subject {
    if c.addresses == [] then
      if SpeaksForOthers(b, obs) then Nobody else Sender
    else if c.Matches(SenderAddresses(b, obs)) then Sender
    else
      match FirstHolder(b, c.addresses)
      case Some(m) => Other(m)
      case None => Nobody
  }

  lemma SenderAddressesAre(b: Book, obs: Observation, a: IpAddr)
    ensures a in SenderAddresses(b, obs) <==> SenderUses(b, obs, a)
  {}

  lemma MatchesIs(b: Book, obs: Observation, c: NameClaim)
    ensures c.Matches(SenderAddresses(b, obs)) <==> exists a :: a in c.addresses && SenderUses(b, obs, a)
  {
    forall a
      ensures a in SenderAddresses(b, obs) <==> SenderUses(b, obs, a)
    {
      SenderAddressesAre(b, obs, a);
    }
  }

  lemma ForfeitsIs(b: Book, obs: Observation)
    ensures SpeaksForOthers(b, obs) <==> Forfeits(b, obs)
  {
    hide SenderUses;
    forall c: NameClaim
      ensures c.Matches(SenderAddresses(b, obs)) <==> exists a :: a in c.addresses && SenderUses(b, obs, a)
    {
      MatchesIs(b, obs, c);
    }
    if SpeaksForOthers(b, obs) {
      var c :| c in obs.claims && c.addresses != [] && !c.Matches(SenderAddresses(b, obs));
      assert forall a :: a in c.addresses ==> !SenderUses(b, obs, a);
    }
    if Forfeits(b, obs) {
      var c :| c in obs.claims && c.addresses != [] && forall a :: a in c.addresses ==> !SenderUses(b, obs, a);
      assert !c.Matches(SenderAddresses(b, obs));
    }
  }

  lemma FirstHolderIs(b: Book, addresses: seq<IpAddr>)
    ensures var h := FirstHolder(b, addresses);
            if h.Some? then
              exists i :: 0 <= i < |addresses| && Holds(b, h.value, addresses[i])
                          && forall j, n :: 0 <= j < i ==> !Holds(b, n, addresses[j])
            else forall a, n :: a in addresses ==> !Holds(b, n, a)
  {
    if addresses != [] && HolderOf(b, addresses[0]).None? {
      FirstHolderIs(b, addresses[1..]);
      var h := FirstHolder(b, addresses);
      if h.Some? {
        var i :| 0 <= i < |addresses[1..]| && Holds(b, h.value, addresses[1..][i])
                 && forall j, n :: 0 <= j < i ==> !Holds(b, n, addresses[1..][j]);
        assert Holds(b, h.value, addresses[i + 1]);
        forall j, n | 0 <= j < i + 1
          ensures !Holds(b, n, addresses[j])
        {
          if j > 0 { assert addresses[j] == addresses[1..][j - 1]; }
        }
      }
    } else if addresses != [] {
      assert Holds(b, FirstHolder(b, addresses).value, addresses[0]);
    }
  }

  // The computed subject is the one and only subject the rules give.
  lemma SubjectByTheRules(b: Book, obs: Observation, c: NameClaim, s: Subject)
    ensures IsSubject(b, obs, c, s) <==> s == SubjectOf(b, obs, c)
  {
    hide SenderUses, Forfeits, SpeaksForOthers, Holds, FirstHolder, SenderAddresses;
    MatchesIs(b, obs, c);
    ForfeitsIs(b, obs);
    FirstHolderIs(b, c.addresses);
    if s.Other? && IsSubject(b, obs, c, s) {
      HolderUnique(b, obs, c, s.mac);
    }
  }

  lemma HolderUnique(b: Book, obs: Observation, c: NameClaim, m: Mac)
    requires exists i :: 0 <= i < |c.addresses| && Holds(b, m, c.addresses[i])
                         && forall j, n :: 0 <= j < i ==> !Holds(b, n, c.addresses[j])
    ensures FirstHolder(b, c.addresses) == Some(m)
  {
    FirstHolderIs(b, c.addresses);
    var i :| 0 <= i < |c.addresses| && Holds(b, m, c.addresses[i])
             && forall j, n :: 0 <= j < i ==> !Holds(b, n, c.addresses[j]);
    var h := FirstHolder(b, c.addresses);
    assert c.addresses[i] in c.addresses;
    var k :| 0 <= k < |c.addresses| && Holds(b, h.value, c.addresses[k])
             && forall j, n :: 0 <= j < k ==> !Holds(b, n, c.addresses[j]);
    assert i == k;
  }

  // A claim that names none of the sender's addresses is never found to be held
  // by the sender: the arm of the loop that would say so cannot be reached.
  lemma SenderArmUnreachable(b: Book, obs: Observation, c: NameClaim)
    requires !c.Matches(SenderAddresses(b, obs))
    ensures FirstHolder(b, c.addresses) != Some(obs.mac)
  {
    MatchesIs(b, obs, c);
    FirstHolderIs(b, c.addresses);
    if FirstHolder(b, c.addresses).Some? {
      var i :| 0 <= i < |c.addresses| && Holds(b, FirstHolder(b, c.addresses).value, c.addresses[i]);
      assert c.addresses[i] in c.addresses;
    }
  }

  // The non-blank claims about one subject, in the order the frame lists them.
  function ShareOf(b: Book, obs: Observation, claims: seq<NameClaim>, s: Subject): seq<Signal> {
    if claims == [] then []
    else
      var c := claims[|claims| - 1];
      ShareOf(b, obs, claims[..|claims| - 1], s)
      + (if !IsBlank(c.signal.value) && SubjectOf(b, obs, c) == s then [c.signal] else [])
  }

  function About(others: seq<(Mac, Signal)>, m: Mac): seq<Signal> {
    if others == [] then []
    else
      About(others[..|others| - 1], m)
      + (if others[|others| - 1].0 == m then [others[|others| - 1].1] else [])
  }

  function NonBlankClaims(claims: seq<NameClaim>): nat {
    if claims == [] then 0
    else NonBlankClaims(claims[..|claims| - 1]) + (if IsBlank(claims[|claims| - 1].signal.value) then 0 else 1)
  }

  lemma AboutAppend(others: seq<(Mac, Signal)>, last: (Mac, Signal), m: Mac)
    ensures About(others + [last], m) == About(others, m) + (if last.0 == m then [last.1] else [])
  {
    assert (others + [last])[..|others|] == others;
  }

  // One claim goes where its subject says.
  lemma OneClaimSorted(b: Book, obs: Observation, c: NameClaim, sofar: Attributed)
    ensures AttributeOne(b, obs, c, sofar)
         == if IsBlank(c.signal.value) then sofar
            else match SubjectOf(b, obs, c)
                 case Sender => sofar.(mine := sofar.mine + [c.signal])
                 case Other(m) => sofar.(others := sofar.others + [(m, c.signal)])
                 case Nobody => sofar.(unattributed := sofar.unattributed + 1)
  {
    hide IsBlank, SpeaksForOthers, FirstHolder, SenderAddresses;
    if !c.Matches(SenderAddresses(b, obs)) {
      SenderArmUnreachable(b, obs, c);
    }
  }

  // The loop sorts the claims by subject, loses none and invents none.
  lemma {:induction false} ClaimsSorted(b: Book, obs: Observation, claims: seq<NameClaim>)
    ensures var att := AttributeAll(b, obs, claims);
            && att.mine == ShareOf(b, obs, claims, Sender)
            && att.unattributed == |ShareOf(b, obs, claims, Nobody)|
            && (forall m: Mac :: About(att.others, m) == ShareOf(b, obs, claims, Other(m)))
            && |att.mine| + |att.others| + att.unattributed == NonBlankClaims(claims)
  {
    hide IsBlank, SubjectOf, AttributeOne;
    if claims != [] {
      var most, c := claims[..|claims| - 1], claims[|claims| - 1];
      ClaimsSorted(b, obs, most);
      OneClaimSorted(b, obs, c, AttributeAll(b, obs, most));
      var before := AttributeAll(b, obs, most);
      var att := AttributeAll(b, obs, claims);
      forall m: Mac
        ensures About(att.others, m) == ShareOf(b, obs, claims, Other(m))
      {
        assert About(before.others, m) == ShareOf(b, obs, most, Other(m));
        if att.others != before.others {
          AboutAppend(before.others, att.others[|att.others| - 1], m);
        }
      }
    }
  }

  // ---------- what an observation records, and on whom ----------

  ghost predicate Claimed(b: Book, obs: Observation, s: Signal, who: Subject) {
    exists c :: c in obs.claims && c.signal == s && !IsBlank(s.value) && IsSubject(b, obs, c, who)
  }

  lemma {:induction false} ShareMembers(b: Book, obs: Observation, claims: seq<NameClaim>, who: Subject, s: Signal)
    ensures s in ShareOf(b, obs, claims, who) <==>
            exists c :: c in claims && c.signal == s && !IsBlank(s.value) && IsSubject(b, obs, c, who)
  {
    hide IsBlank, SubjectOf, IsSubject;
    if claims != [] {
      var most, last := claims[..|claims| - 1], claims[|claims| - 1];
      assert claims == most + [last];
      ShareMembers(b, obs, most, who, s);
      SubjectByTheRules(b, obs, last, who);
    }
  }

  lemma {:induction false} AboutMembers(others: seq<(Mac, Signal)>, m: Mac, s: Signal)
    ensures s in About(others, m) <==> (m, s) in others
  {
    if others != [] {
      AboutMembers(others[..|others| - 1], m, s);
      assert others == others[..|others| - 1] + [others[|others| - 1]];
    }
  }

  // One device's evidence in a stretch of effects.
  predicate Records(effects: seq<Effect>, m: Mac, s: Signal) {
    exists e :: e in effects && e.Evidence? && e.subject == m && e.signal == s
  }

  lemma RecordsAppend(first: seq<Effect>, next: seq<Effect>, m: Mac, s: Signal)
    ensures Records(first + next, m, s) <==> Records(first, m, s) || Records(next, m, s)
  {
    forall e
      ensures e in first + next <==> e in first || e in next
    {}
  }

  lemma {:induction false} LearnsRecord(env: Env, b: Book, others: seq<(Mac, Signal)>, at: int, m: Mac, s: Signal)
    requires forall o :: o in others ==> !IsBlank(o.1.value) && o.0 in b.devices
    ensures Records(PerformAll(env, b, Learns(others, at)).effects, m, s) <==> (m, s) in others
    ensures PerformAll(env, b, Learns(others, at)).book.devices.Keys == b.devices.Keys
  {
    hide PerformLearn, IsBlank;
    if others != [] {
      var most, last := others[..|others| - 1], others[|others| - 1];
      assert others == most + [last];
      LearnsRecord(env, b, most, at, m, s);
      var ops := Learns(others, at);
      assert ops[..|ops| - 1] == Learns(most, at);
      var before := PerformAll(env, b, Learns(most, at));
      LearnRecords(env, before.book, last.0, last.1, at, m, s);
      RecordsAppend(before.effects, PerformLearn(env, before.book, last.0, last.1, at).effects, m, s);
      assert last in others;
    }
  }

  lemma LearnRecords(env: Env, b: Book, mac: Mac, signal: Signal, at: int, m: Mac, s: Signal)
    requires !IsBlank(signal.value) && mac in b.devices
    ensures Records(PerformLearn(env, b, mac, signal, at).effects, m, s) <==> m == mac && s == signal
    ensures PerformLearn(env, b, mac, signal, at).book.devices.Keys == b.devices.Keys
  {
    hide IsBlank, Merged, Consider, Resolve, Changes, EventFor;
    var o := PerformLearn(env, b, mac, signal, at);
    assert o.effects[0] == Evidence(mac, signal, at);
    assert forall e :: e in o.effects[1..] ==> e.Event? by {
      EventsOnly(env, b, mac, signal, at);
    }
    assert o.effects == [o.effects[0]] + o.effects[1..];
    RecordsAppend([o.effects[0]], o.effects[1..], m, s);
  }

  lemma EventsOnly(env: Env, b: Book, mac: Mac, signal: Signal, at: int)
    requires !IsBlank(signal.value) && mac in b.devices
    ensures forall e :: e in PerformLearn(env, b, mac, signal, at).effects[1..] ==> e.Event?
  {
    hide IsBlank, Merged, Consider, Resolve, Changes;
  }

  lemma HearingRecords(e: Entry, obs: Observation, mine: seq<Signal>, learning: bool, first: bool, m: Mac, s: Signal)
    ensures Records(HearingEffects(e, obs, mine, learning, first), m, s)
       <==> m == e.mac && (s in mine || s in NonBlank(obs.signals))
  {
    hide IsBlank, Consider, Resolve, Heard, IsRecordable, Rescored, NonBlank, BestOf;
    var at := obs.observedAt;
    var usable := NonBlank(obs.signals) + mine;
    var revival := RevivalEffects(Touched(e, at), obs, learning);
    var address := AddressEffects(Revived(Touched(e, at)), obs, learning);
    var evidence := EvidenceEffects(e.mac, usable, at);
    var name := NameEffects(Heard(e, obs, mine), Rescored(Heard(e, obs, mine), at), Some(obs.interface), at, learning, first);
    assert !Records(revival, m, s);
    assert !Records(address, m, s);
    assert !Records(name, m, s);
    RecordsAppend(revival, address, m, s);
    RecordsAppend(revival + address, evidence, m, s);
    RecordsAppend(revival + address + evidence, name, m, s);
    if m == e.mac && s in usable {
      var i :| 0 <= i < |usable| && usable[i] == s;
      assert evidence[i] in evidence;
    }
  }

  lemma DiscoveryRecords(env: Env, b: Book, obs: Observation, m: Mac, s: Signal)
    ensures Records(PerformAll(env, b, Arrival(b, obs)).effects, m, s) ==> m == obs.mac && s.kind == Vendor && m !in b.devices
  {
    hide IsBlank, Resolve, BestOf, Ipv4Of, IsRecordable;
    ArrivalKnows(env, b, obs);
  }

  // Evidence recorded on a device other than the sender is exactly the claims
  // whose subject it is; a claim is recorded on the sender only when the sender
  // is its subject.  `mid` is the table once the sender is known and indexed.
  lemma EvidenceProvenance(env: Env, b: Book, obs: Observation, m: Mac, s: Signal)
    requires Sound(b) && IsDevice(obs.mac)
    ensures var mid := PerformAll(env, b, Arrival(b, obs)).book;
            var effects := Apply(env, b, Observe(obs)).effects;
            && (m != obs.mac ==> (Records(effects, m, s) <==> Claimed(mid, obs, s, Other(m))))
            && (m == obs.mac && Records(effects, m, s) ==>
                  || Claimed(mid, obs, s, Sender)
                  || s in NonBlank(obs.signals)
                  || (s.kind == Vendor && m !in b.devices))
            && (m == obs.mac && (Claimed(mid, obs, s, Sender) || s in NonBlank(obs.signals)) ==> Records(effects, m, s))
  {
    hide Arrival, Attribute, HearingEffects, IsSubject, Records, IsBlank, Claimed, Plan, Perform, IsGroup;
    var arrival := PerformAll(env, b, Arrival(b, obs));
    var mid := arrival.book;
    var att := Attribute(mid, obs);
    ArrivalKnows(env, b, obs);
    PerformAllSound(env, b, Arrival(b, obs));
    SortedForObserve(mid, obs, m, s);
    var hear := Hear(obs, att.mine, att.unattributed, obs.mac !in b.devices);
    HearIs(env, mid, obs, att, obs.mac !in b.devices);
    var heard := Perform(env, mid, hear);
    var learned := PerformAll(env, heard.book, Learns(att.others, obs.observedAt));
    ThreeParts(env, b, obs);
    HearingRecords(mid.devices[obs.mac], obs, att.mine, mid.learning, obs.mac !in b.devices, m, s);
    LearnsRecord(env, heard.book, att.others, obs.observedAt, m, s);
    DiscoveryRecords(env, b, obs, m, s);
    RecordsAppend(arrival.effects, heard.effects, m, s);
    RecordsAppend(arrival.effects + heard.effects, learned.effects, m, s);
  }

  lemma HearIs(env: Env, b: Book, obs: Observation, att: Attributed, first: bool)
    requires obs.mac in b.devices
    ensures var o := Perform(env, b, Hear(obs, att.mine, att.unattributed, first));
            && o.effects == HearingEffects(b.devices[obs.mac], obs, att.mine, b.learning, first)
            && o.book.devices.Keys == b.devices.Keys
  {
    hide HearingEffects, Heard, Rescored, Reclassified, Changes;
  }

  lemma SortedForObserve(b: Book, obs: Observation, m: Mac, s: Signal)
    ensures var att := Attribute(b, obs);
            && (s in att.mine <==> Claimed(b, obs, s, Sender))
            && ((m, s) in att.others <==> Claimed(b, obs, s, Other(m)))
            && (forall o :: o in att.others ==> !IsBlank(o.1.value) && o.0 in b.devices && o.0 != obs.mac)
  {
    hide IsBlank, AttributeAll, ShareOf, About, IsSubject;
    var att := Attribute(b, obs);
    ClaimsSorted(b, obs, obs.claims);
    ShareMembers(b, obs, obs.claims, Sender, s);
    AboutMembers(att.others, m, s);
    ShareMembers(b, obs, obs.claims, Other(m), s);
    forall o | o in att.others
      ensures !IsBlank(o.1.value) && o.0 in b.devices && o.0 != obs.mac
    {
      AboutMembers(att.others, o.0, o.1);
      ShareMembers(b, obs, obs.claims, Other(o.0), o.1);
      var c :| c in obs.claims && c.signal == o.1 && IsSubject(b, obs, c, Other(o.0));
      SubjectIsOther(b, obs, c, o.0);
    }
  }

  lemma SubjectIsOther(b: Book, obs: Observation, c: NameClaim, m: Mac)
    requires IsSubject(b, obs, c, Other(m))
    ensures m in b.devices && m != obs.mac && exists a :: a in c.addresses && b.devices[m].Holds(a)
  {
    var i :| 0 <= i < |c.addresses| && Holds(b, m, c.addresses[i]);
    assert c.addresses[i] in c.addresses;
  }
}
