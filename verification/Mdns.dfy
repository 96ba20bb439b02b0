/**
 Whose name is it: the evidence an mDNS message carries, each piece with the
 addresses the message itself proved for it.
 */
module Mdns {
  import opened Options
  import opened Types
  import opened Dns

  const TYPE_A: nat := 1
  const TYPE_PTR: nat := 12
  const TYPE_TXT: nat := 16
  const TYPE_AAAA: nat := 28
  const TYPE_SRV: nat := 33

  const MAX_NAME_LEN: nat := 96
  const MODEL_KEYS: seq<string> := ["model", "am", "ty", "usb_MDL"]

  // How label bytes become text, whatever the reader does with malformed ones.
  type Decoder = Dns.Text -> string

  // ---------- text ----------

  function LowerChar(c: char): char {
    if 'A' <= c <= 'Z' then c + 32 as char else c
  }

  function Lower(s: string): (t: string)
    ensures |t| == |s| && forall i :: 0 <= i < |s| ==> t[i] == LowerChar(s[i])
  {
    seq(|s|, i requires 0 <= i < |s| => LowerChar(s[i]))
  }

  predicate SameIgnoringCase(s: string, t: string) {
    Lower(s) == Lower(t)
  }

  predicate IsControl(c: char) {
    c <= '\U{1F}' || '\U{7F}' <= c <= '\U{9F}'
  }

  function TrimDots(s: string): string {
    if s != "" && s[|s| - 1] == '.' then TrimDots(s[..|s| - 1]) else s
  }

  // Not blank, not over-long, nothing unprintable.
  function Presentable(s: string): Option<string> {
    if s == "" || |s| > MAX_NAME_LEN || exists c :: c in s && IsControl(c) then None else Some(s)
  }

  // And not an address in disguise.
  function CleanName(raw: string): Option<string> {
    var name := Trim(TrimDots(Trim(raw)));
    if forall c :: c in name ==> '0' <= c <= '9' || c in "-_." then None else Presentable(name)
  }

  function CleanValue(raw: string): Option<string> {
    Presentable(Trim(raw))
  }

  predicate Underscored(s: string) {
    s != "" && s[0] == '_'
  }

  function Joined(labels: seq<string>): string {
    if labels == [] then ""
    else if |labels| == 1 then labels[0]
    else labels[0] + "." + Joined(labels[1..])
  }

  // What names are compared by: DNS names ignore case.
  function Key(labels: seq<string>): string {
    Lower(Joined(labels))
  }

  // ---------- owners and mentions ----------

  // Which host a piece of evidence belongs to, as the message named it.
  datatype Owner = Instance(key: string) | Host(key: string) | Sender

  type Owned = (string, Owner)

  datatype Group = Instances | Hosts | Services | Models

  // One value the message offers, and whose it says it is.
  datatype Mention = Mention(group: Group, value: string, owner: Owner)

  function Named(d: Decoder, labels: seq<Dns.Text>): seq<string> {
    seq(|labels|, i requires 0 <= i < |labels| => d(labels[i]))
  }

  function InstanceOwner(labels: seq<string>): Owner {
    if |labels| >= 4 && !Underscored(labels[0]) && Underscored(labels[1]) then Instance(Key(labels)) else Sender
  }

  function ServiceMentions(labels: seq<string>, owner: Owner): seq<Mention> {
    if |labels| < 2 || !Underscored(labels[0]) || !Underscored(labels[1]) || labels[0] == "_services" then []
    else [Mention(Services, labels[0] + "." + labels[1], owner)]
  }

  function InstanceMentions(labels: seq<string>): seq<Mention> {
    if |labels| < 4 || Underscored(labels[0]) then ServiceMentions(labels, Sender)
    else if !Underscored(labels[1]) then []
    else
      var owner := Instance(Key(labels));
      var name := CleanName(labels[0]);
      (if name.Some? then [Mention(Instances, name.value, owner)] else []) + ServiceMentions(labels[1..], owner)
  }

  function HostLabel(labels: seq<string>): Option<string> {
    if |labels| != 2 || !SameIgnoringCase(labels[1], "local") || Underscored(labels[0]) then None
    else CleanName(labels[0])
  }

  function HostMentions(labels: seq<string>, owner: Owner): seq<Mention> {
    var host := HostLabel(labels);
    if host.Some? then [Mention(Hosts, host.value, owner)] else []
  }

  // A text record's length-prefixed strings, as far as they are whole.
  function TxtFrom(rdata: seq<byte>, at: nat): seq<Dns.Text>
    requires at <= |rdata|
    decreases |rdata| - at
  {
    if at == |rdata| || at + 1 + rdata[at] > |rdata| then []
    else [rdata[at + 1..at + 1 + rdata[at]]] + TxtFrom(rdata, at + 1 + rdata[at])
  }

  // Where the first equals sign stands.
  function EqualsAt(s: string, from: nat): (at: Option<nat>)
    requires from <= |s|
    ensures match at
            case None => '=' !in s[from..]
            case Some(i) => from <= i < |s| && s[i] == '=' && '=' !in s[from..i]
    decreases |s| - from
  {
    if from == |s| then None else if s[from] == '=' then Some(from) else EqualsAt(s, from + 1)
  }

  predicate IsModelKey(key: string) {
    exists k :: k in MODEL_KEYS && SameIgnoringCase(k, Trim(key))
  }

  function ModelMention(entry: string, owner: Owner): seq<Mention> {
    var at := EqualsAt(entry, 0);
    if at.None? || !IsModelKey(entry[..at.value]) then []
    else
      var model := CleanValue(entry[at.value + 1..]);
      if model.Some? then [Mention(Models, model.value, owner)] else []
  }

  function ModelMentions(d: Decoder, entries: seq<Dns.Text>, owner: Owner): seq<Mention> {
    if entries == [] then [] else ModelMention(d(entries[0]), owner) + ModelMentions(d, entries[1..], owner)
  }

  // ---------- what a record says ----------

  function TargetAt(d: Decoder, buf: seq<byte>, at: nat): Option<seq<string>> {
    var name := ReadName(buf, at);
    if name.None? then None else Some(Named(d, name.value.0))
  }

  function PtrTarget(d: Decoder, buf: seq<byte>, r: Record): Option<seq<string>> {
    TargetAt(d, buf, r.rdataAt)
  }

  // Priority, weight and port come first.
  function SrvTarget(d: Decoder, buf: seq<byte>, r: Record): Option<seq<string>> {
    TargetAt(d, buf, r.rdataAt + 6)
  }

  function BigEndian(bytes: seq<byte>): nat {
    if bytes == [] then 0 else BigEndian(bytes[..|bytes| - 1]) * 0x100 + bytes[|bytes| - 1]
  }

  function Power256(k: nat): (p: nat)
    ensures p >= 1
  {
    if k == 0 then 1 else 0x100 * Power256(k - 1)
  }

  lemma {:induction false} BigEndianFits(bytes: seq<byte>)
    ensures BigEndian(bytes) < Power256(|bytes|)
  {
    if bytes != [] {
      BigEndianFits(bytes[..|bytes| - 1]);
    }
  }

  lemma AddressSizes()
    ensures Power256(4) == 0x1_0000_0000
    ensures Power256(16) == 0x1_0000_0000_0000_0000_0000_0000_0000_0000
  {
    assert Power256(4) == 0x1_0000_0000;
    assert Power256(8) == 0x1_0000_0000_0000_0000;
    assert Power256(12) == 0x1_0000_0000_0000_0000_0000_0000;
  }

  // A record whose data is not exactly an address names none.
  function RecordAddress(r: Record): Option<IpAddr> {
    if r.rtype == TYPE_A && |r.rdata| == 4 then
      BigEndianFits(r.rdata); AddressSizes();
      Some(V4(BigEndian(r.rdata)))
    else if r.rtype == TYPE_AAAA && |r.rdata| == 16 then
      BigEndianFits(r.rdata); AddressSizes();
      Some(V6(BigEndian(r.rdata)))
    else None
  }

  function RecordMentions(d: Decoder, buf: seq<byte>, r: Record): seq<Mention> {
    var name := Named(d, r.name);
    if r.rtype == TYPE_PTR then
      var target := PtrTarget(d, buf, r);
      (if target.Some? then InstanceMentions(target.value) else [])
      + ServiceMentions(name, if target.Some? then InstanceOwner(target.value) else Sender)
    else if r.rtype == TYPE_SRV then InstanceMentions(name)
    else if r.rtype == TYPE_TXT then InstanceMentions(name) + ModelMentions(d, TxtFrom(r.rdata, 0), InstanceOwner(name))
    else if r.rtype == TYPE_A || r.rtype == TYPE_AAAA then HostMentions(name, Host(Key(name)))
    else []
  }

  function QuestionMentions(d: Decoder, question: seq<Dns.Text>): seq<Mention> {
    var name := Named(d, question);
    InstanceMentions(name) + HostMentions(name, Sender)
  }

  function FromRecords(d: Decoder, buf: seq<byte>, records: seq<Record>): seq<Mention> {
    if records == [] then []
    else FromRecords(d, buf, records[..|records| - 1]) + RecordMentions(d, buf, records[|records| - 1])
  }

  function FromQuestions(d: Decoder, questions: seq<seq<Dns.Text>>): seq<Mention> {
    if questions == [] then []
    else FromQuestions(d, questions[..|questions| - 1]) + QuestionMentions(d, questions[|questions| - 1])
  }

  // Everything the message offers, in order.  A response's questions are
  // nobody's claim.
  function Mentions(d: Decoder, buf: seq<byte>, m: Message): seq<Mention> {
    FromRecords(d, buf, m.records) + if m.isResponse then [] else FromQuestions(d, m.questions)
  }

  // ---------- collecting ----------

  datatype Collected = Collected(instances: seq<Owned>, hosts: seq<Owned>, services: seq<Owned>, models: seq<Owned>) {
    function In(g: Group): seq<Owned> {
      match g
      case Instances => instances
      case Hosts => hosts
      case Services => services
      case Models => models
    }

    function With(g: Group, owned: seq<Owned>): Collected {
      match g
      case Instances => this.(instances := owned)
      case Hosts => this.(hosts := owned)
      case Services => this.(services := owned)
      case Models => this.(models := owned)
    }
  }

  const NOTHING := Collected([], [], [], [])

  predicate Holds(owned: seq<Owned>, value: string) {
    exists i :: 0 <= i < |owned| && owned[i].0 == value
  }

  // A value already there keeps its first owner.
  function Pushed(owned: seq<Owned>, value: string, owner: Owner): seq<Owned> {
    if Holds(owned, value) then owned else owned + [(value, owner)]
  }

  function PushOne(c: Collected, m: Mention): Collected {
    c.With(m.group, Pushed(c.In(m.group), m.value, m.owner))
  }

  function PushAll(c: Collected, ms: seq<Mention>): Collected {
    if ms == [] then c else PushOne(PushAll(c, ms[..|ms| - 1]), ms[|ms| - 1])
  }

  lemma PushAllMore(c: Collected, ms: seq<Mention>, m: Mention)
    ensures PushAll(c, ms + [m]) == PushOne(PushAll(c, ms), m)
  {
    hide PushOne;
    assert (ms + [m])[..|ms|] == ms;
  }

  lemma LastApart<T>(s: seq<T>)
    requires s != []
    ensures s[..|s| - 1] + [s[|s| - 1]] == s
  {}

  lemma Reassociate<T>(a: seq<T>, most: seq<T>, last: T)
    ensures (a + most) + [last] == a + (most + [last])
  {}

  lemma {:induction false} PushAllApart(c: Collected, a: seq<Mention>, b: seq<Mention>)
    ensures PushAll(c, a + b) == PushAll(PushAll(c, a), b)
  {
    if b == [] {
      assert a + b == a;
    } else {
      hide PushOne, PushAll;
      var most, last := b[..|b| - 1], b[|b| - 1];
      PushAllApart(c, a, most);
      PushAllMore(c, a + most, last);
      PushAllMore(PushAll(c, a), most, last);
      LastApart(b);
      Reassociate(a, most, last);
    }
  }

  lemma PushedInto(c: Collected, m: Mention, g: Group)
    ensures PushOne(c, m).In(g) == if m.group == g then Pushed(c.In(g), m.value, m.owner) else c.In(g)
  {
    hide Pushed;
  }

  // The first mention of a value in its group.
  ghost predicate FirstMention(ms: seq<Mention>, i: nat) {
    i < |ms| && forall j :: 0 <= j < i && ms[j].group == ms[i].group ==> ms[j].value != ms[i].value
  }

  ghost predicate Led(ms: seq<Mention>, g: Group, o: Owned) {
    exists k: nat :: k < |ms| && FirstMention(ms, k) && ms[k] == Mention(g, o.0, o.1)
  }

  // A group holds each of its values once, with the owner it was first mentioned
  // under, and nothing else.
  ghost predicate HoldsFirstMentions(owned: seq<Owned>, ms: seq<Mention>, g: Group) {
    && (forall i, j :: 0 <= i < j < |owned| ==> owned[i].0 != owned[j].0)
    && (forall i :: 0 <= i < |owned| ==> Led(ms, g, owned[i]))
    && (forall k :: 0 <= k < |ms| && ms[k].group == g ==> Holds(owned, ms[k].value))
  }

  lemma {:induction false} FirstMentionWins(ms: seq<Mention>, g: Group)
    ensures HoldsFirstMentions(PushAll(NOTHING, ms).In(g), ms, g)
  {
    if ms == [] {
      assert PushAll(NOTHING, ms).In(g) == [];
    } else {
      hide HoldsFirstMentions, Pushed, PushOne, PushAll, Collected.In;
      var most, last := ms[..|ms| - 1], ms[|ms| - 1];
      FirstMentionWins(most, g);
      LastApart(ms);
      PushAllMore(NOTHING, most, last);
      PushedInto(PushAll(NOTHING, most), last, g);
      if last.group == g {
        MentionPushed(PushAll(NOTHING, most).In(g), most, last);
      } else {
        OtherMention(PushAll(NOTHING, most).In(g), most, last, g);
      }
    }
  }

  lemma StillLed(most: seq<Mention>, last: Mention, g: Group, o: Owned)
    requires Led(most, g, o)
    ensures Led(most + [last], g, o)
  {
    var k: nat :| k < |most| && FirstMention(most, k) && most[k] == Mention(g, o.0, o.1);
    assert FirstMention(most + [last], k) && (most + [last])[k] == most[k];
  }

  lemma OtherMention(owned: seq<Owned>, most: seq<Mention>, last: Mention, g: Group)
    requires HoldsFirstMentions(owned, most, g) && last.group != g
    ensures HoldsFirstMentions(owned, most + [last], g)
  {
    hide Led, Holds;
    forall i | 0 <= i < |owned|
      ensures Led(most + [last], g, owned[i])
    {
      StillLed(most, last, g, owned[i]);
    }
  }

  lemma MentionPushed(owned: seq<Owned>, most: seq<Mention>, last: Mention)
    requires HoldsFirstMentions(owned, most, last.group)
    ensures HoldsFirstMentions(Pushed(owned, last.value, last.owner), most + [last], last.group)
  {
    var ms := most + [last];
    forall i | 0 <= i < |owned|
      ensures Led(ms, last.group, owned[i])
    {
      StillLed(most, last, last.group, owned[i]);
    }
    if !Holds(owned, last.value) {
      LedByLast(owned, most, last);
      hide Led;
      var after := owned + [(last.value, last.owner)];
      assert forall i :: 0 <= i < |owned| ==> after[i] == owned[i] && owned[i].0 != last.value;
      forall k | 0 <= k < |ms| && ms[k].group == last.group
        ensures Holds(after, ms[k].value)
      {
        if k < |most| {
          var i :| 0 <= i < |owned| && owned[i].0 == most[k].value;
          assert after[i] == owned[i];
        } else {
          assert after[|owned|].0 == last.value;
        }
      }
    }
  }

  lemma LedByLast(owned: seq<Owned>, most: seq<Mention>, last: Mention)
    requires HoldsFirstMentions(owned, most, last.group) && !Holds(owned, last.value)
    ensures Led(most + [last], last.group, (last.value, last.owner))
  {
    assert forall j :: 0 <= j < |most| && most[j].group == last.group ==> Holds(owned, most[j].value);
    assert FirstMention(most + [last], |most|);
  }

  // ---------- whose address ----------

  // Every address published under one name.
  function AddressesOf(addresses: seq<(string, IpAddr)>, host: string): seq<IpAddr> {
    if addresses == [] then []
    else
      var last := addresses[|addresses| - 1];
      AddressesOf(addresses[..|addresses| - 1], host) + if last.0 == host then [last.1] else []
  }

  function FirstTarget(targets: seq<(string, string)>, instance: string): Option<string> {
    if targets == [] then None
    else if targets[0].0 == instance then Some(targets[0].1)
    else FirstTarget(targets[1..], instance)
  }

  function ResolvedIn(addresses: seq<(string, IpAddr)>, targets: seq<(string, string)>, owner: Owner): seq<IpAddr> {
    match owner
    case Sender => []
    case Host(host) => AddressesOf(addresses, host)
    case Instance(instance) =>
      var host := FirstTarget(targets, instance);
      if host.None? then [] else AddressesOf(addresses, host.value)
  }

  function Published(d: Decoder, records: seq<Record>): seq<(string, IpAddr)> {
    if records == [] then []
    else
      var r := records[|records| - 1];
      var address := RecordAddress(r);
      Published(d, records[..|records| - 1]) + if address.Some? then [(Key(Named(d, r.name)), address.value)] else []
  }

  function Located(d: Decoder, buf: seq<byte>, records: seq<Record>): seq<(string, string)> {
    if records == [] then []
    else
      var r := records[|records| - 1];
      var target := SrvTarget(d, buf, r);
      Located(d, buf, records[..|records| - 1])
      + if r.rtype == TYPE_SRV && target.Some? then [(Key(Named(d, r.name)), Key(target.value))] else []
  }

  function AddressesFor(d: Decoder, buf: seq<byte>, m: Message, owner: Owner): seq<IpAddr> {
    ResolvedIn(Published(d, m.records), Located(d, buf, m.records), owner)
  }

  function KindOf(g: Group): SignalKind {
    match g
    case Instances => MdnsName
    case Hosts => MdnsName
    case Services => MdnsService
    case Models => MdnsModel
  }

  function ClaimsOf(d: Decoder, buf: seq<byte>, m: Message, g: Group, owned: seq<Owned>): seq<NameClaim> {
    seq(|owned|, i requires 0 <= i < |owned| =>
        NameClaim(Signal(KindOf(g), owned[i].0), AddressesFor(d, buf, m, owned[i].1)))
  }

  // Instance names first: the scorer breaks ties by order and a human chose them.
  function Claims(d: Decoder, buf: seq<byte>, m: Message): seq<NameClaim> {
    var c := PushAll(NOTHING, Mentions(d, buf, m));
    ClaimsOf(d, buf, m, Instances, c.instances) + ClaimsOf(d, buf, m, Hosts, c.hosts)
    + ClaimsOf(d, buf, m, Services, c.services) + ClaimsOf(d, buf, m, Models, c.models)
  }

  // ---------- provenance ----------

  // An address record publishes the address under the name.
  ghost predicate PublishedBy(d: Decoder, records: seq<Record>, host: string, a: IpAddr) {
    exists r :: r in records && RecordAddress(r) == Some(a) && Key(Named(d, r.name)) == host
  }

  // The record says where the instance lives.
  predicate Locates(d: Decoder, buf: seq<byte>, r: Record, instance: string) {
    r.rtype == TYPE_SRV && SrvTarget(d, buf, r).Some? && Key(Named(d, r.name)) == instance
  }

  // Record `k` is the first to say so, and names the host.
  ghost predicate LocatedFirst(d: Decoder, buf: seq<byte>, records: seq<Record>, k: nat, instance: string, host: string) {
    && k < |records|
    && Locates(d, buf, records[k], instance)
    && Key(SrvTarget(d, buf, records[k]).value) == host
    && forall j :: 0 <= j < k ==> !Locates(d, buf, records[j], instance)
  }

  lemma {:induction false} AddressesArePublished(d: Decoder, records: seq<Record>, host: string, a: IpAddr)
    ensures a in AddressesOf(Published(d, records), host) <==> PublishedBy(d, records, host, a)
  {
    hide RecordAddress, Key, Named;
    if records != [] {
      var most, r := records[..|records| - 1], records[|records| - 1];
      AddressesArePublished(d, most, host, a);
      assert records == most + [r];
      var before, all := Published(d, most), Published(d, records);
      if RecordAddress(r).Some? {
        assert all == before + [(Key(Named(d, r.name)), RecordAddress(r).value)];
        assert all[..|all| - 1] == before;
      } else {
        assert all == before;
      }
      if PublishedBy(d, most, host, a) {
        var q :| q in most && RecordAddress(q) == Some(a) && Key(Named(d, q.name)) == host;
        assert q in records;
      }
    }
  }

  lemma {:induction false} FirstTargetMore(targets: seq<(string, string)>, last: (string, string), instance: string)
    ensures FirstTarget(targets + [last], instance)
         == if FirstTarget(targets, instance).Some? then FirstTarget(targets, instance)
            else if last.0 == instance then Some(last.1) else None
  {
    if targets != [] {
      FirstTargetMore(targets[1..], last, instance);
      assert (targets + [last])[1..] == targets[1..] + [last];
    }
  }

  // The target found is the first locating record's; there is none exactly when
  // no record locates the instance.
  lemma {:induction false} FirstTargetIsLocated(d: Decoder, buf: seq<byte>, records: seq<Record>, instance: string)
    returns (k: nat)
    ensures var target := FirstTarget(Located(d, buf, records), instance);
            if target.Some? then LocatedFirst(d, buf, records, k, instance, target.value)
            else forall r :: r in records ==> !Locates(d, buf, r, instance)
  {
    hide SrvTarget, Key, Named;
    k := 0;
    if records != [] {
      var most, r := records[..|records| - 1], records[|records| - 1];
      k := FirstTargetIsLocated(d, buf, most, instance);
      assert records == most + [r];
      var before := Located(d, buf, most);
      if r.rtype == TYPE_SRV && SrvTarget(d, buf, r).Some? {
        FirstTargetMore(before, (Key(Named(d, r.name)), Key(SrvTarget(d, buf, r).value)), instance);
        if FirstTarget(before, instance).None? {
          k := |most|;
        }
      } else {
        assert Located(d, buf, records) == before;
      }
    }
  }

  // What the message itself proves about an owner's addresses.
  ghost predicate Proved(d: Decoder, buf: seq<byte>, records: seq<Record>, owner: Owner, a: IpAddr) {
    match owner
    case Sender => false
    case Host(host) => PublishedBy(d, records, host, a)
    case Instance(instance) =>
      exists k: nat, host :: LocatedFirst(d, buf, records, k, instance, host) && PublishedBy(d, records, host, a)
  }

  // An owner is given exactly the addresses the message proves for it: those its
  // host's address records carry, an instance's host being the one its first
  // service record names.
  lemma AddressesAreProved(d: Decoder, buf: seq<byte>, m: Message, owner: Owner, a: IpAddr)
    ensures a in AddressesFor(d, buf, m, owner) <==> Proved(d, buf, m.records, owner, a)
  {
    hide PublishedBy, Published, Located, AddressesOf, FirstTarget, Locates, Key;
    match owner
    case Sender =>
    case Host(host) => AddressesArePublished(d, m.records, host, a);
    case Instance(instance) =>
      var k := FirstTargetIsLocated(d, buf, m.records, instance);
      var target := FirstTarget(Located(d, buf, m.records), instance);
      if target.Some? {
        AddressesArePublished(d, m.records, target.value, a);
        assert forall j: nat, host :: LocatedFirst(d, buf, m.records, j, instance, host) ==> j == k;
      }
  }

  // The claim a mention makes.
  function ClaimFrom(d: Decoder, buf: seq<byte>, m: Message, mention: Mention): NameClaim {
    NameClaim(Signal(KindOf(mention.group), mention.value), AddressesFor(d, buf, m, mention.owner))
  }

  lemma ClaimsOfGroup(d: Decoder, buf: seq<byte>, m: Message, g: Group, c: NameClaim)
    ensures var ms := Mentions(d, buf, m);
            c in ClaimsOf(d, buf, m, g, PushAll(NOTHING, ms).In(g)) <==>
            exists k: nat :: k < |ms| && FirstMention(ms, k) && ms[k].group == g && c == ClaimFrom(d, buf, m, ms[k])
  {
    hide Mentions, AddressesFor, PushAll, FirstMention;
    var ms := Mentions(d, buf, m);
    var owned := PushAll(NOTHING, ms).In(g);
    FirstMentionWins(ms, g);
    var claims := ClaimsOf(d, buf, m, g, owned);
    if c in claims {
      var i :| 0 <= i < |claims| && claims[i] == c;
      assert Led(ms, g, owned[i]);
      var k: nat :| k < |ms| && FirstMention(ms, k) && ms[k] == Mention(g, owned[i].0, owned[i].1);
      assert FirstMention(ms, k) && ms[k].group == g && c == ClaimFrom(d, buf, m, ms[k]);
    }
    forall k: nat | k < |ms| && FirstMention(ms, k) && ms[k].group == g && c == ClaimFrom(d, buf, m, ms[k])
      ensures c in claims
    {
      FirstOwnerStands(owned, ms, g, k);
      var i :| 0 <= i < |owned| && owned[i] == (ms[k].value, ms[k].owner);
      assert claims[i] == c;
    }
  }

  lemma FirstOwnerStands(owned: seq<Owned>, ms: seq<Mention>, g: Group, k: nat)
    requires HoldsFirstMentions(owned, ms, g) && k < |ms| && FirstMention(ms, k) && ms[k].group == g
    ensures exists i :: 0 <= i < |owned| && owned[i] == (ms[k].value, ms[k].owner)
  {
    assert Holds(owned, ms[k].value);
    var i :| 0 <= i < |owned| && owned[i].0 == ms[k].value;
    assert Led(ms, g, owned[i]);
    var j: nat :| j < |ms| && FirstMention(ms, j) && ms[j] == Mention(g, owned[i].0, owned[i].1);
    assert j == k;
  }

  // The claims are exactly the message's first mentions, each with the addresses
  // proved for the owner it was mentioned under.
  lemma ClaimsAreFirstMentions(d: Decoder, buf: seq<byte>, m: Message, c: NameClaim)
    ensures var ms := Mentions(d, buf, m);
            c in Claims(d, buf, m) <==> exists k: nat :: k < |ms| && FirstMention(ms, k) && c == ClaimFrom(d, buf, m, ms[k])
  {
    hide Mentions, ClaimFrom, PushAll, FirstMention, ClaimsOf;
    ClaimsOfGroup(d, buf, m, Instances, c);
    ClaimsOfGroup(d, buf, m, Hosts, c);
    ClaimsOfGroup(d, buf, m, Services, c);
    ClaimsOfGroup(d, buf, m, Models, c);
  }

  // Names compare the same however their letters are cased.
  lemma {:induction false} KeyIgnoresCase(a: seq<string>, b: seq<string>)
    requires |a| == |b| && forall i :: 0 <= i < |a| ==> SameIgnoringCase(a[i], b[i])
    ensures Key(a) == Key(b)
  {
    if |a| > 1 {
      KeyIgnoresCase(a[1..], b[1..]);
      LowerApart(a[0] + ".", Joined(a[1..]));
      LowerApart(b[0] + ".", Joined(b[1..]));
      LowerApart(a[0], ".");
      LowerApart(b[0], ".");
    }
  }

  lemma LowerApart(s: string, t: string)
    ensures Lower(s + t) == Lower(s) + Lower(t)
  {}

  // But a dot inside a label is not told from one between labels.
  lemma KeyForgetsBoundaries()
    ensures Key(["a.b", "local"]) == Key(["a", "b", "local"])
  {
    assert Joined(["a.b", "local"]) == "a.b.local" == Joined(["a", "b", "local"]);
  }

  // ---------- the extractor ----------

  method Push(c: Collected, m: Mention) returns (after: Collected)
    ensures after == PushOne(c, m)
  {
    var owned := c.In(m.group);
    var seen := false;
    for i := 0 to |owned|
      invariant seen <==> Holds(owned[..i], m.value)
    {
      assert owned[..i + 1] == owned[..i] + [owned[i]];
      if owned[i].0 == m.value {
        assert owned[..i + 1][i].0 == m.value;
        seen := true;
      } else if seen {
        var j :| 0 <= j < i && owned[..i][j].0 == m.value;
        assert owned[..i + 1][j].0 == m.value;
      }
    }
    assert owned[..|owned|] == owned;
    after := if seen then c else c.With(m.group, owned + [(m.value, m.owner)]);
  }

  method CollectAll(c: Collected, ms: seq<Mention>) returns (after: Collected)
    ensures after == PushAll(c, ms)
  {
    after := c;
    for i := 0 to |ms|
      invariant after == PushAll(c, ms[..i])
    {
      assert ms[..i + 1][..i] == ms[..i];
      after := Push(after, ms[i]);
    }
    assert ms[..|ms|] == ms;
  }

  method ExtractClaims(d: Decoder, buf: seq<byte>, m: Message) returns (claims: seq<NameClaim>)
    ensures claims == Claims(d, buf, m)
  {
    hide RecordMentions, QuestionMentions, PushAll, RecordAddress, SrvTarget, Key, Named;
    var c := NOTHING;
    var addresses: seq<(string, IpAddr)> := [];
    var targets: seq<(string, string)> := [];
    Nothing();
    for i := 0 to |m.records|
      invariant c == PushAll(NOTHING, FromRecords(d, buf, m.records[..i]))
      invariant addresses == Published(d, m.records[..i]) && targets == Located(d, buf, m.records[..i])
    {
      var r := m.records[i];
      assert m.records[..i + 1][..i] == m.records[..i];
      PushAllApart(NOTHING, FromRecords(d, buf, m.records[..i]), RecordMentions(d, buf, r));
      c := CollectAll(c, RecordMentions(d, buf, r));
      var address := RecordAddress(r);
      if address.Some? {
        addresses := addresses + [(Key(Named(d, r.name)), address.value)];
      }
      if r.rtype == TYPE_SRV {
        var target := SrvTarget(d, buf, r);
        if target.Some? {
          targets := targets + [(Key(Named(d, r.name)), Key(target.value))];
        }
      }
    }
    assert m.records[..|m.records|] == m.records;
    ghost var said := FromRecords(d, buf, m.records);
    assert said + [] == said;
    if !m.isResponse {
      for i := 0 to |m.questions|
        invariant c == PushAll(NOTHING, said + FromQuestions(d, m.questions[..i]))
      {
        var question := m.questions[i];
        assert m.questions[..i + 1][..i] == m.questions[..i];
        PushAllApart(NOTHING, said + FromQuestions(d, m.questions[..i]), QuestionMentions(d, question));
        assert said + FromQuestions(d, m.questions[..i + 1])
            == said + FromQuestions(d, m.questions[..i]) + QuestionMentions(d, question);
        c := CollectAll(c, QuestionMentions(d, question));
      }
      assert m.questions[..|m.questions|] == m.questions;
    }
    var instances := Resolve(d, buf, m, Instances, c.instances, addresses, targets);
    var hosts := Resolve(d, buf, m, Hosts, c.hosts, addresses, targets);
    var services := Resolve(d, buf, m, Services, c.services, addresses, targets);
    var models := Resolve(d, buf, m, Models, c.models, addresses, targets);
    claims := instances + hosts + services + models;
  }

  lemma Nothing()
    ensures PushAll(NOTHING, []) == NOTHING
  {}

  // The second pass: each owner's name becomes addresses.
  method Resolve(d: Decoder, buf: seq<byte>, m: Message, g: Group, owned: seq<Owned>,
                 addresses: seq<(string, IpAddr)>, targets: seq<(string, string)>)
    returns (claims: seq<NameClaim>)
    requires addresses == Published(d, m.records) && targets == Located(d, buf, m.records)
    ensures claims == ClaimsOf(d, buf, m, g, owned)
  {
    claims := [];
    for i := 0 to |owned|
      invariant claims == ClaimsOf(d, buf, m, g, owned)[..i]
    {
      var (value, owner) := owned[i];
      claims := claims + [NameClaim(Signal(KindOf(g), value), ResolvedIn(addresses, targets, owner))];
    }
  }
}
