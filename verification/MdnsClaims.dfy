/**
 From records to claims: what each record or question of a message offers, read
 straight off it, and that the claims are exactly the first offers.
 */
module MdnsClaims {
  import opened Options
  import opened Types
  import opened Dns
  import opened Mdns
  import Writer = DnsWriter

  // ---------- what a name offers ----------

  // instance._service._proto.local
  predicate Shaped(name: seq<string>) {
    |name| >= 4 && !Underscored(name[0]) && Underscored(name[1])
  }

  // _service._proto, but for the one that only enumerates others.
  ghost predicate StartsPair(name: seq<string>, pair: string) {
    |name| >= 2 && Underscored(name[0]) && Underscored(name[1]) && name[0] != "_services" && pair == name[0] + "." + name[1]
  }

  ghost function PairOffers(name: seq<string>, owner: Owner): seq<Owned> {
    if exists pair :: StartsPair(name, pair) then
      var pair :| StartsPair(name, pair);
      [(pair, owner)]
    else []
  }

  function InstanceOrSender(name: seq<string>): Owner {
    if Shaped(name) then Instance(Key(name)) else Sender
  }

  // What a name offers where an instance may stand.
  ghost function NameOffers(g: Group, name: seq<string>): seq<Owned> {
    match g
    case Instances =>
      if Shaped(name) && CleanName(name[0]).Some? then [(CleanName(name[0]).value, Instance(Key(name)))] else []
    case Services =>
      if Shaped(name) then PairOffers(name[1..], Instance(Key(name)))
      else if |name| < 4 || Underscored(name[0]) then PairOffers(name, Sender)
      else []
    case _ => []
  }

  // host.local
  predicate HostShaped(name: seq<string>) {
    |name| == 2 && SameIgnoringCase(name[1], "local") && !Underscored(name[0])
  }

  ghost function HostOffers(name: seq<string>, owner: Owner): seq<Owned> {
    if HostShaped(name) && CleanName(name[0]).Some? then [(CleanName(name[0]).value, owner)] else []
  }

  // key=value, the key one that carries a model.
  ghost predicate AssignsModel(entry: string, key: string, value: string, model: string) {
    && entry == key + "=" + value && '=' !in key
    && (exists k :: k in {"model", "am", "ty", "usb_MDL"} && SameIgnoringCase(k, Trim(key)))
    && CleanValue(value) == Some(model)
  }

  ghost predicate GivesModel(entry: string, model: string) {
    exists key, value :: AssignsModel(entry, key, value, model)
  }

  ghost function EntryOffers(entry: string, owner: Owner): (offers: seq<Owned>)
    ensures offers == [] || exists model :: GivesModel(entry, model) && offers == [(model, owner)]
    ensures offers == [] ==> forall model :: !GivesModel(entry, model)
  {
    if exists model :: GivesModel(entry, model) then
      var model :| GivesModel(entry, model);
      [(model, owner)]
    else []
  }

  ghost function EntriesOffer(d: Decoder, entries: seq<Dns.Text>, owner: Owner): seq<Owned> {
    if entries == [] then [] else EntryOffers(d(entries[0]), owner) + EntriesOffer(d, entries[1..], owner)
  }

  // ---------- what a record or a question offers ----------

  ghost function RecordOffers(d: Decoder, buf: seq<byte>, r: Record, g: Group): seq<Owned> {
    var name := Named(d, r.name);
    if r.rtype == 12 then
      var target := PtrTarget(d, buf, r);
      (if target.Some? then NameOffers(g, target.value) else [])
      + (if g == Services then PairOffers(name, if target.Some? then InstanceOrSender(target.value) else Sender) else [])
    else if r.rtype == 33 then NameOffers(g, name)
    else if r.rtype == 16 then
      NameOffers(g, name) + (if g == Models then EntriesOffer(d, TxtFrom(r.rdata, 0), InstanceOrSender(name)) else [])
    else if r.rtype == 1 || r.rtype == 28 then
      if g == Hosts then HostOffers(name, Host(Key(name))) else []
    else []
  }

  ghost function QuestionOffers(d: Decoder, question: seq<Dns.Text>, g: Group): seq<Owned> {
    var name := Named(d, question);
    NameOffers(g, name) + (if g == Hosts then HostOffers(name, Sender) else [])
  }

  // The records, then the questions of a query.
  function Items(m: Message): nat {
    |m.records| + if m.isResponse then 0 else |m.questions|
  }

  ghost function ItemOffers(d: Decoder, buf: seq<byte>, m: Message, g: Group, k: nat): seq<Owned>
    requires k < Items(m)
  {
    if k < |m.records| then RecordOffers(d, buf, m.records[k], g)
    else QuestionOffers(d, m.questions[k - |m.records|], g)
  }

  // Item `k` is the first to offer the value, as its `j`th.
  ghost predicate OfferedFirst(d: Decoder, buf: seq<byte>, m: Message, g: Group, k: nat, j: nat, o: Owned) {
    && k < Items(m) && j < |ItemOffers(d, buf, m, g, k)| && ItemOffers(d, buf, m, g, k)[j] == o
    && (forall i: nat :: i < j ==> ItemOffers(d, buf, m, g, k)[i].0 != o.0)
    && (forall n: nat, i: nat :: n < k && i < |ItemOffers(d, buf, m, g, n)| ==> ItemOffers(d, buf, m, g, n)[i].0 != o.0)
  }

  function KindTold(g: Group): SignalKind {
    match g
    case Instances => MdnsName
    case Hosts => MdnsName
    case Services => MdnsService
    case Models => MdnsModel
  }

  // The claim says the value, and has exactly the addresses the records prove
  // for its owner.
  ghost predicate Says(d: Decoder, buf: seq<byte>, m: Message, c: NameClaim, g: Group, o: Owned) {
    && c.signal == Signal(KindTold(g), o.0)
    && forall a :: a in c.addresses <==> Proved(d, buf, m.records, o.1, a)
  }

  // ---------- mentions are offers ----------

  function OfGroup(ms: seq<Mention>, g: Group): seq<Owned> {
    if ms == [] then []
    else
      var last := ms[|ms| - 1];
      OfGroup(ms[..|ms| - 1], g) + (if last.group == g then [(last.value, last.owner)] else [])
  }

  lemma {:induction false} OfGroupApart(a: seq<Mention>, b: seq<Mention>, g: Group)
    ensures OfGroup(a + b, g) == OfGroup(a, g) + OfGroup(b, g)
  {
    if b == [] {
      assert a + b == a;
    } else {
      OfGroupApart(a, b[..|b| - 1], g);
      assert (a + b)[..|a + b| - 1] == a + b[..|b| - 1];
    }
  }

  lemma OfGroupOne(x: Mention, g: Group)
    ensures OfGroup([x], g) == (if x.group == g then [(x.value, x.owner)] else []) && OfGroup([], g) == []
  {
    assert [x][..0] == [];
  }

  lemma ServiceMentionsOffer(name: seq<string>, owner: Owner, g: Group)
    ensures OfGroup(ServiceMentions(name, owner), g) == if g == Services then PairOffers(name, owner) else []
  {
    OfGroupOne(Mention(Services, "", owner), g);
    if |name| >= 2 && Underscored(name[0]) && Underscored(name[1]) && name[0] != "_services" {
      var pair := name[0] + "." + name[1];
      assert StartsPair(name, pair);
      OfGroupOne(Mention(Services, pair, owner), g);
    }
  }

  lemma InstanceMentionsOffer(name: seq<string>, g: Group)
    ensures OfGroup(InstanceMentions(name), g) == NameOffers(g, name)
  {
    hide CleanName, Key, ServiceMentions, PairOffers;
    OfGroupOne(Mention(Services, "", Sender), g);
    if |name| < 4 || Underscored(name[0]) {
      ServiceMentionsOffer(name, Sender, g);
    } else if Underscored(name[1]) {
      var owner := Instance(Key(name));
      var first := if CleanName(name[0]).Some? then [Mention(Instances, CleanName(name[0]).value, owner)] else [];
      OfGroupApart(first, ServiceMentions(name[1..], owner), g);
      ServiceMentionsOffer(name[1..], owner, g);
      if first != [] { OfGroupOne(first[0], g); }
    }
  }

  lemma HostMentionsOffer(name: seq<string>, owner: Owner, g: Group)
    ensures OfGroup(HostMentions(name, owner), g) == if g == Hosts then HostOffers(name, owner) else []
  {
    hide CleanName, Lower;
    OfGroupOne(Mention(Hosts, "", owner), g);
    if HostLabel(name).Some? { OfGroupOne(Mention(Hosts, HostLabel(name).value, owner), g); }
  }

  // The first equals sign is where the key ends.
  lemma AssignsAt(entry: string, key: string, value: string)
    requires entry == key + "=" + value && '=' !in key
    ensures EqualsAt(entry, 0) == Some(|key|) && entry[..|key|] == key && entry[|key| + 1..] == value
  {
    assert entry[|key|] == '=' && entry[..|key|] == key == entry[0..|key|] && entry[|key| + 1..] == value;
    EqualsFound(entry, 0, |key|);
  }

  lemma {:induction false} EqualsFound(s: string, from: nat, at: nat)
    requires from <= at < |s| && s[at] == '=' && '=' !in s[from..at]
    ensures EqualsAt(s, from) == Some(at)
    decreases at - from
  {
    if from < at {
      assert s[from] == s[from..at][0] && s[from + 1..at] == s[from..at][1..];
      EqualsFound(s, from + 1, at);
    }
  }

  lemma GivenIsMentioned(entry: string, owner: Owner, model: string)
    requires GivesModel(entry, model)
    ensures ModelMention(entry, owner) == [Mention(Models, model, owner)]
  {
    hide CleanValue, SameIgnoringCase, Trim;
    var key, value :| AssignsModel(entry, key, value, model);
    AssignsAt(entry, key, value);
    KeysListed(key);
  }

  lemma MentionedIsGiven(entry: string, owner: Owner)
    requires ModelMention(entry, owner) != []
    ensures GivesModel(entry, ModelMention(entry, owner)[0].value)
  {
    hide CleanValue, SameIgnoringCase, Trim, IsModelKey;
    var at := EqualsAt(entry, 0).value;
    var key, value := entry[..at], entry[at + 1..];
    assert entry == key + "=" + value && key == entry[0..at];
    KeysListed(key);
    assert AssignsModel(entry, key, value, ModelMention(entry, owner)[0].value);
  }

  lemma ModelMentionOffers(entry: string, owner: Owner, g: Group)
    ensures OfGroup(ModelMention(entry, owner), g) == if g == Models then EntryOffers(entry, owner) else []
  {
    hide ModelMention, GivesModel, EntryOffers;
    if EntryOffers(entry, owner) != [] {
      var model :| GivesModel(entry, model) && EntryOffers(entry, owner) == [(model, owner)];
      GivenIsMentioned(entry, owner, model);
      OfGroupOne(Mention(Models, model, owner), g);
    } else if ModelMention(entry, owner) != [] {
      MentionedIsGiven(entry, owner);
    }
    OfGroupOne(Mention(Models, "", owner), g);
  }

  lemma KeysListed(key: string)
    ensures IsModelKey(key) <==> exists k :: k in {"model", "am", "ty", "usb_MDL"} && SameIgnoringCase(k, Trim(key))
  {
    assert forall k :: k in MODEL_KEYS <==> k in {"model", "am", "ty", "usb_MDL"};
  }

  lemma {:induction false} ModelMentionsOffer(d: Decoder, entries: seq<Dns.Text>, owner: Owner, g: Group)
    ensures OfGroup(ModelMentions(d, entries, owner), g) == if g == Models then EntriesOffer(d, entries, owner) else []
  {
    hide ModelMention, EntryOffers;
    OfGroupOne(Mention(Models, "", owner), g);
    if entries != [] {
      ModelMentionsOffer(d, entries[1..], owner, g);
      ModelMentionOffers(d(entries[0]), owner, g);
      OfGroupApart(ModelMention(d(entries[0]), owner), ModelMentions(d, entries[1..], owner), g);
    }
  }

  lemma OwnersAgree(name: seq<string>)
    ensures InstanceOwner(name) == InstanceOrSender(name)
  {}

  lemma RecordMentionsOffer(d: Decoder, buf: seq<byte>, r: Record, g: Group)
    ensures OfGroup(RecordMentions(d, buf, r), g) == RecordOffers(d, buf, r, g)
  {
    hide InstanceMentions, ServiceMentions, HostMentions, ModelMentions, NameOffers, PairOffers, HostOffers, EntriesOffer,
         PtrTarget, Named, Key, TxtFrom, InstanceOwner, InstanceOrSender;
    var name := Named(d, r.name);
    OfGroupOne(Mention(Models, "", Sender), g);
    OwnersAgree(name);
    if r.rtype == TYPE_PTR {
      var target := PtrTarget(d, buf, r);
      if target.Some? {
        OwnersAgree(target.value);
        InstanceMentionsOffer(target.value, g);
      }
      var owner := if target.Some? then InstanceOwner(target.value) else Sender;
      ServiceMentionsOffer(name, owner, g);
      OfGroupApart(if target.Some? then InstanceMentions(target.value) else [], ServiceMentions(name, owner), g);
    } else if r.rtype == TYPE_SRV {
      InstanceMentionsOffer(name, g);
    } else if r.rtype == TYPE_TXT {
      InstanceMentionsOffer(name, g);
      ModelMentionsOffer(d, TxtFrom(r.rdata, 0), InstanceOwner(name), g);
      OfGroupApart(InstanceMentions(name), ModelMentions(d, TxtFrom(r.rdata, 0), InstanceOwner(name)), g);
    } else {
      HostMentionsOffer(name, Host(Key(name)), g);
    }
  }

  lemma QuestionMentionsOffer(d: Decoder, q: seq<Dns.Text>, g: Group)
    ensures OfGroup(QuestionMentions(d, q), g) == QuestionOffers(d, q, g)
  {
    hide InstanceMentions, HostMentions, NameOffers, HostOffers, Named;
    InstanceMentionsOffer(Named(d, q), g);
    HostMentionsOffer(Named(d, q), Sender, g);
    OfGroupApart(InstanceMentions(Named(d, q)), HostMentions(Named(d, q), Sender), g);
  }

  // ---------- offers in a row ----------

  // Everything the first `n` items offer.
  ghost function FlatOffers(d: Decoder, buf: seq<byte>, m: Message, g: Group, n: nat): seq<Owned>
    requires n <= Items(m)
  {
    if n == 0 then [] else FlatOffers(d, buf, m, g, n - 1) + ItemOffers(d, buf, m, g, n - 1)
  }

  lemma {:induction false} RecordsOffer(d: Decoder, buf: seq<byte>, m: Message, g: Group, n: nat)
    requires n <= |m.records|
    ensures OfGroup(FromRecords(d, buf, m.records[..n]), g) == FlatOffers(d, buf, m, g, n)
  {
    hide RecordMentions, RecordOffers;
    if n > 0 {
      RecordsOffer(d, buf, m, g, n - 1);
      assert m.records[..n][..n - 1] == m.records[..n - 1];
      OfGroupApart(FromRecords(d, buf, m.records[..n - 1]), RecordMentions(d, buf, m.records[n - 1]), g);
      RecordMentionsOffer(d, buf, m.records[n - 1], g);
    }
  }

  lemma Associate<T>(a: seq<T>, b: seq<T>, c: seq<T>)
    ensures a + (b + c) == (a + b) + c
  {}

  lemma QuestionsMore(d: Decoder, questions: seq<seq<Dns.Text>>, n: nat)
    requires 0 < n <= |questions|
    ensures FromQuestions(d, questions[..n]) == FromQuestions(d, questions[..n - 1]) + QuestionMentions(d, questions[n - 1])
    ensures FromQuestions(d, questions[..0]) == []
  {
    hide QuestionMentions;
    assert questions[..n][..n - 1] == questions[..n - 1];
  }

  lemma FlatQuestion(d: Decoder, buf: seq<byte>, m: Message, g: Group, n: nat)
    requires !m.isResponse && 0 < n <= |m.questions|
    ensures FlatOffers(d, buf, m, g, |m.records| + n)
         == FlatOffers(d, buf, m, g, |m.records| + n - 1) + QuestionOffers(d, m.questions[n - 1], g)
  {
    hide QuestionOffers, RecordOffers;
  }

  lemma NoQuestions(d: Decoder, buf: seq<byte>, m: Message, g: Group)
    requires !m.isResponse
    ensures OfGroup(FromRecords(d, buf, m.records) + FromQuestions(d, m.questions[..0]), g) == FlatOffers(d, buf, m, g, |m.records|)
  {
    hide FromRecords, OfGroup, FlatOffers;
    RecordsOffer(d, buf, m, g, |m.records|);
    assert m.records[..|m.records|] == m.records && m.questions[..0] == [];
    assert FromRecords(d, buf, m.records) + [] == FromRecords(d, buf, m.records);
  }

  lemma {:induction false} QuestionsOffer(d: Decoder, buf: seq<byte>, m: Message, g: Group, n: nat)
    requires !m.isResponse && n <= |m.questions|
    ensures OfGroup(FromRecords(d, buf, m.records) + FromQuestions(d, m.questions[..n]), g)
         == FlatOffers(d, buf, m, g, |m.records| + n)
  {
    hide QuestionMentions, QuestionOffers, FromRecords, FromQuestions, OfGroup, FlatOffers, ItemOffers;
    if n == 0 {
      NoQuestions(d, buf, m, g);
    } else {
      QuestionsOffer(d, buf, m, g, n - 1);
      var said, q, before := FromRecords(d, buf, m.records), m.questions[n - 1], FromQuestions(d, m.questions[..n - 1]);
      QuestionsMore(d, m.questions, n);
      FlatQuestion(d, buf, m, g, n);
      Associate(said, before, QuestionMentions(d, q));
      OfGroupApart(said + before, QuestionMentions(d, q), g);
      QuestionMentionsOffer(d, q, g);
    }
  }

  lemma MentionsOffer(d: Decoder, buf: seq<byte>, m: Message, g: Group)
    ensures OfGroup(Mentions(d, buf, m), g) == FlatOffers(d, buf, m, g, Items(m))
  {
    hide FromRecords, FromQuestions, FlatOffers, OfGroup;
    assert m.records[..|m.records|] == m.records && m.questions[..|m.questions|] == m.questions;
    if m.isResponse {
      RecordsOffer(d, buf, m, g, |m.records|);
      assert FromRecords(d, buf, m.records) + [] == FromRecords(d, buf, m.records);
    } else {
      QuestionsOffer(d, buf, m, g, |m.questions|);
    }
  }

  lemma {:induction false} FlatGrows(d: Decoder, buf: seq<byte>, m: Message, g: Group, k: nat, n: nat)
    requires k <= n <= Items(m)
    ensures FlatOffers(d, buf, m, g, k) <= FlatOffers(d, buf, m, g, n)
  {
    hide ItemOffers;
    if k < n {
      FlatGrows(d, buf, m, g, k, n - 1);
    }
  }

  // Where an item's offer stands in the row.
  lemma FlatAt(d: Decoder, buf: seq<byte>, m: Message, g: Group, n: nat, k: nat, j: nat) returns (i: nat)
    requires k < n <= Items(m) && j < |ItemOffers(d, buf, m, g, k)|
    ensures i == |FlatOffers(d, buf, m, g, k)| + j < |FlatOffers(d, buf, m, g, k + 1)| <= |FlatOffers(d, buf, m, g, n)|
    ensures FlatOffers(d, buf, m, g, n)[i] == ItemOffers(d, buf, m, g, k)[j]
  {
    hide ItemOffers;
    FlatGrows(d, buf, m, g, k + 1, n);
    i := |FlatOffers(d, buf, m, g, k)| + j;
  }

  // Whose offer stands somewhere in the row.
  lemma {:induction false} FlatFrom(d: Decoder, buf: seq<byte>, m: Message, g: Group, n: nat, i: nat) returns (k: nat, j: nat)
    requires n <= Items(m) && i < |FlatOffers(d, buf, m, g, n)|
    ensures k < n && j < |ItemOffers(d, buf, m, g, k)| && i == |FlatOffers(d, buf, m, g, k)| + j
    ensures FlatOffers(d, buf, m, g, n)[i] == ItemOffers(d, buf, m, g, k)[j]
  {
    hide ItemOffers;
    if i < |FlatOffers(d, buf, m, g, n - 1)| {
      k, j := FlatFrom(d, buf, m, g, n - 1, i);
    } else {
      k, j := n - 1, i - |FlatOffers(d, buf, m, g, n - 1)|;
    }
  }

  ghost predicate FirstIn(offers: seq<Owned>, i: nat, o: Owned) {
    i < |offers| && offers[i] == o && forall j :: 0 <= j < i ==> offers[j].0 != o.0
  }

  // The first in the row is the first in the message.
  lemma FirstIsOfferedFirst(d: Decoder, buf: seq<byte>, m: Message, g: Group, o: Owned)
    ensures (exists i: nat :: FirstIn(FlatOffers(d, buf, m, g, Items(m)), i, o))
       <==> exists k: nat, j: nat :: OfferedFirst(d, buf, m, g, k, j, o)
  {
    hide ItemOffers, FlatOffers;
    var n := Items(m);
    var offers := FlatOffers(d, buf, m, g, n);
    if i: nat :| FirstIn(offers, i, o) {
      var k, j := FlatFrom(d, buf, m, g, n, i);
      forall x: nat | x < j
        ensures ItemOffers(d, buf, m, g, k)[x].0 != o.0
      {
        var at := FlatAt(d, buf, m, g, n, k, x);
      }
      forall y: nat, x: nat | y < k && x < |ItemOffers(d, buf, m, g, y)|
        ensures ItemOffers(d, buf, m, g, y)[x].0 != o.0
      {
        var at := FlatAt(d, buf, m, g, n, y, x);
        FlatGrows(d, buf, m, g, y + 1, k);
      }
      assert OfferedFirst(d, buf, m, g, k, j, o);
    }
    if k: nat, j: nat :| OfferedFirst(d, buf, m, g, k, j, o) {
      var i := FlatAt(d, buf, m, g, n, k, j);
      forall x: nat | x < i
        ensures offers[x].0 != o.0
      {
        var y, z := FlatFrom(d, buf, m, g, n, x);
        if y > k {
          FlatGrows(d, buf, m, g, k + 1, y);
        }
      }
      assert FirstIn(offers, i, o);
    }
  }

  // ---------- gathering ----------

  function Gathered(offers: seq<Owned>): seq<Owned> {
    if offers == [] then []
    else Pushed(Gathered(offers[..|offers| - 1]), offers[|offers| - 1].0, offers[|offers| - 1].1)
  }

  lemma GatheredMore(offers: seq<Owned>, o: Owned)
    ensures Gathered(offers + [o]) == Pushed(Gathered(offers), o.0, o.1)
  {
    hide Pushed;
    assert (offers + [o])[..|offers|] == offers;
  }

  lemma {:induction false} PushAllGathers(ms: seq<Mention>, g: Group)
    ensures PushAll(NOTHING, ms).In(g) == Gathered(OfGroup(ms, g))
  {
    if ms == [] {
      assert PushAll(NOTHING, ms).In(g) == [];
    } else {
      hide Pushed, PushAll, PushOne, Collected.In, Gathered;
      var most, last := ms[..|ms| - 1], ms[|ms| - 1];
      PushAllGathers(most, g);
      LastApart(ms);
      PushAllMore(NOTHING, most, last);
      PushedInto(PushAll(NOTHING, most), last, g);
      if last.group == g {
        GatheredMore(OfGroup(most, g), (last.value, last.owner));
      } else {
        assert OfGroup(most, g) + [] == OfGroup(most, g);
      }
    }
  }

  lemma {:induction false} GatheredFirsts(offers: seq<Owned>, o: Owned)
    ensures Holds(Gathered(offers), o.0) <==> exists i :: 0 <= i < |offers| && offers[i].0 == o.0
    ensures o in Gathered(offers) <==> exists i: nat :: FirstIn(offers, i, o)
  {
    if offers != [] {
      hide Holds;
      var most, last := offers[..|offers| - 1], offers[|offers| - 1];
      assert offers == most + [last];
      GatheredFirsts(most, o);
      GatheredFirsts(most, last);
      HoldsMore(Gathered(most), last, o.0);
      OfferedMore(most, last, o.0);
      FirstMore(most, last, o);
      OfferedMore(most, last, last.0);
    }
  }

  lemma HoldsMore(owned: seq<Owned>, last: Owned, value: string)
    ensures Holds(owned + [last], value) <==> Holds(owned, value) || last.0 == value
  {
    var all := owned + [last];
    assert all[|owned|] == last;
    if Holds(owned, value) {
      var i :| 0 <= i < |owned| && owned[i].0 == value;
      assert all[i].0 == value;
    }
  }

  ghost predicate Offered(offers: seq<Owned>, value: string) {
    exists i :: 0 <= i < |offers| && offers[i].0 == value
  }

  lemma OfferedMore(most: seq<Owned>, last: Owned, value: string)
    ensures Offered(most + [last], value) <==> Offered(most, value) || last.0 == value
  {
    var all := most + [last];
    assert all[|most|] == last;
    if Offered(most, value) {
      var i :| 0 <= i < |most| && most[i].0 == value;
      assert all[i].0 == value;
    }
  }

  lemma FirstMore(most: seq<Owned>, last: Owned, o: Owned)
    ensures (exists i: nat :: FirstIn(most + [last], i, o))
       <==> (exists i: nat :: FirstIn(most, i, o)) || (last == o && !Offered(most, o.0))
  {
    var all := most + [last];
    assert all[|most|] == last && forall j :: 0 <= j < |most| ==> all[j] == most[j];
    if i: nat :| FirstIn(most, i, o) {
      assert FirstIn(all, i, o);
    }
    if last == o && !Offered(most, o.0) {
      assert FirstIn(all, |most|, o);
    }
    if i: nat :| FirstIn(all, i, o) {
      if i < |most| { assert FirstIn(most, i, o); }
    }
  }

  // ---------- the result ----------

  lemma GroupIsOffered(d: Decoder, buf: seq<byte>, m: Message, g: Group, o: Owned)
    ensures o in PushAll(NOTHING, Mentions(d, buf, m)).In(g) <==> exists k: nat, j: nat :: OfferedFirst(d, buf, m, g, k, j, o)
  {
    hide Mentions, PushAll, FlatOffers, OfGroup, Gathered, OfferedFirst, FirstIn, Collected.In;
    PushAllGathers(Mentions(d, buf, m), g);
    MentionsOffer(d, buf, m, g);
    GatheredFirsts(FlatOffers(d, buf, m, g, Items(m)), o);
    FirstIsOfferedFirst(d, buf, m, g, o);
  }

  function ClaimOn(d: Decoder, buf: seq<byte>, m: Message, g: Group, o: Owned): NameClaim {
    NameClaim(Signal(KindOf(g), o.0), AddressesFor(d, buf, m, o.1))
  }

  lemma ClaimOnSays(d: Decoder, buf: seq<byte>, m: Message, g: Group, o: Owned)
    ensures Says(d, buf, m, ClaimOn(d, buf, m, g, o), g, o)
  {
    hide AddressesFor, Proved;
    forall a
      ensures a in AddressesFor(d, buf, m, o.1) <==> Proved(d, buf, m.records, o.1, a)
    {
      AddressesAreProved(d, buf, m, o.1, a);
    }
  }

  lemma InClaimsOf(d: Decoder, buf: seq<byte>, m: Message, g: Group, owned: seq<Owned>, c: NameClaim)
    ensures c in ClaimsOf(d, buf, m, g, owned) <==> exists o :: o in owned && c == ClaimOn(d, buf, m, g, o)
  {
    hide AddressesFor, KindOf;
    var claims := ClaimsOf(d, buf, m, g, owned);
    if c in claims {
      var i :| 0 <= i < |claims| && claims[i] == c;
      assert owned[i] in owned && c == ClaimOn(d, buf, m, g, owned[i]);
    }
    if o :| o in owned && c == ClaimOn(d, buf, m, g, o) {
      var i :| 0 <= i < |owned| && owned[i] == o;
      assert claims[i] == c;
    }
  }

  lemma InClaims(d: Decoder, buf: seq<byte>, m: Message, c: NameClaim)
    ensures c in Claims(d, buf, m) <==>
            exists g: Group, o: Owned :: o in PushAll(NOTHING, Mentions(d, buf, m)).In(g) && c == ClaimOn(d, buf, m, g, o)
  {
    hide Mentions, PushAll, ClaimsOf, ClaimOn;
    var all := PushAll(NOTHING, Mentions(d, buf, m));
    InClaimsOf(d, buf, m, Instances, all.instances, c);
    InClaimsOf(d, buf, m, Hosts, all.hosts, c);
    InClaimsOf(d, buf, m, Services, all.services, c);
    InClaimsOf(d, buf, m, Models, all.models, c);
    assert all.In(Instances) == all.instances && all.In(Hosts) == all.hosts;
    assert all.In(Services) == all.services && all.In(Models) == all.models;
  }

  // Whatever is offered first is claimed, with exactly the addresses the records
  // prove for its owner.
  lemma OffersAreClaimed(d: Decoder, buf: seq<byte>, m: Message, g: Group, k: nat, j: nat, o: Owned) returns (c: NameClaim)
    requires OfferedFirst(d, buf, m, g, k, j, o)
    ensures c in Claims(d, buf, m) && Says(d, buf, m, c, g, o)
  {
    hide Mentions, PushAll, ClaimOn, OfferedFirst, Says, Claims, Collected.In;
    c := ClaimOn(d, buf, m, g, o);
    GroupIsOffered(d, buf, m, g, o);
    InClaims(d, buf, m, c);
    ClaimOnSays(d, buf, m, g, o);
  }

  // And every claim is of something offered first.
  lemma ClaimsAreOffered(d: Decoder, buf: seq<byte>, m: Message, c: NameClaim) returns (g: Group, k: nat, j: nat, o: Owned)
    requires c in Claims(d, buf, m)
    ensures OfferedFirst(d, buf, m, g, k, j, o) && Says(d, buf, m, c, g, o)
  {
    hide Mentions, PushAll, ClaimOn, OfferedFirst, Says, Claims, Collected.In;
    InClaims(d, buf, m, c);
    g, o :| o in PushAll(NOTHING, Mentions(d, buf, m)).In(g) && c == ClaimOn(d, buf, m, g, o);
    GroupIsOffered(d, buf, m, g, o);
    k, j :| OfferedFirst(d, buf, m, g, k, j, o);
    ClaimOnSays(d, buf, m, g, o);
  }

  // ---------- instances and hosts, spelled out ----------

  // Where an instance may stand: what a pointer points at, what a service or
  // text record is about, what a question asks for.
  ghost predicate Bears(d: Decoder, buf: seq<byte>, m: Message, k: nat, name: seq<string>) {
    && k < Items(m)
    && if k < |m.records| then
         var r := m.records[k];
         if r.rtype == 12 then PtrTarget(d, buf, r) == Some(name)
         else (r.rtype == 33 || r.rtype == 16) && Named(d, r.name) == name
       else Named(d, m.questions[k - |m.records|]) == name
  }

  ghost predicate BearsInstance(d: Decoder, buf: seq<byte>, m: Message, k: nat, name: seq<string>, value: string) {
    Bears(d, buf, m, k, name) && Shaped(name) && CleanName(name[0]) == Some(value)
  }

  lemma ItemInstances(d: Decoder, buf: seq<byte>, m: Message, k: nat)
    requires k < Items(m)
    ensures var offers := ItemOffers(d, buf, m, Instances, k);
            && |offers| <= 1
            && (offers != [] ==> exists name :: BearsInstance(d, buf, m, k, name, offers[0].0))
            && forall name, value :: BearsInstance(d, buf, m, k, name, value) ==> offers == [(value, Instance(Key(name)))]
  {
    hide CleanName, Key, PtrTarget, Named, EntriesOffer, PairOffers;
    var offers := ItemOffers(d, buf, m, Instances, k);
    if offers != [] {
      if k < |m.records| {
        var r := m.records[k];
        var name := if r.rtype == 12 then PtrTarget(d, buf, r).value else Named(d, r.name);
        assert BearsInstance(d, buf, m, k, name, offers[0].0);
      } else {
        assert BearsInstance(d, buf, m, k, Named(d, m.questions[k - |m.records|]), offers[0].0);
      }
    }
  }

  // The first instance of a name is claimed, with exactly the addresses of the
  // host its first service record names.
  lemma InstanceIsClaimed(d: Decoder, buf: seq<byte>, m: Message, k: nat, name: seq<string>, value: string)
    returns (c: NameClaim)
    requires BearsInstance(d, buf, m, k, name, value)
    requires forall n: nat, other :: n < k ==> !BearsInstance(d, buf, m, n, other, value)
    ensures c in Claims(d, buf, m) && c.signal == Signal(MdnsName, value)
    ensures forall a :: a in c.addresses <==>
              exists j: nat, host :: LocatedFirst(d, buf, m.records, j, Key(name), host) && PublishedBy(d, m.records, host, a)
  {
    hide BearsInstance, ItemOffers, Claims, Key, LocatedFirst, PublishedBy, Items;
    BearerIsItem(d, buf, m, k, name, value);
    ItemInstances(d, buf, m, k);
    forall n: nat | n < k
      ensures n < Items(m) && forall i: nat :: i < |ItemOffers(d, buf, m, Instances, n)| ==>
                                                 ItemOffers(d, buf, m, Instances, n)[i].0 != value
    {
      ItemInstances(d, buf, m, n);
    }
    var o := (value, Instance(Key(name)));
    assert OfferedFirst(d, buf, m, Instances, k, 0, o);
    c := OffersAreClaimed(d, buf, m, Instances, k, 0, o);
  }

  lemma BearerIsItem(d: Decoder, buf: seq<byte>, m: Message, k: nat, name: seq<string>, value: string)
    requires BearsInstance(d, buf, m, k, name, value)
    ensures k < Items(m)
  {}

  // An address record about host.local.
  ghost predicate GivesHost(d: Decoder, m: Message, k: nat, name: seq<string>, value: string) {
    && k < |m.records| && (m.records[k].rtype == 1 || m.records[k].rtype == 28)
    && Named(d, m.records[k].name) == name
    && HostShaped(name) && CleanName(name[0]) == Some(value)
  }

  lemma ItemHosts(d: Decoder, buf: seq<byte>, m: Message, k: nat)
    requires k < |m.records|
    ensures var offers := ItemOffers(d, buf, m, Hosts, k);
            && |offers| <= 1
            && (offers != [] ==> exists name :: GivesHost(d, m, k, name, offers[0].0))
            && forall name, value :: GivesHost(d, m, k, name, value) ==> offers == [(value, Host(Key(name)))]
  {
    hide CleanName, Key, PtrTarget, Named, EntriesOffer, PairOffers, HostShaped;
    var offers := ItemOffers(d, buf, m, Hosts, k);
    if offers != [] {
      assert GivesHost(d, m, k, Named(d, m.records[k].name), offers[0].0);
    }
  }

  // The first host of a name is claimed, with exactly the addresses published
  // under it.
  lemma HostIsClaimed(d: Decoder, buf: seq<byte>, m: Message, k: nat, name: seq<string>, value: string)
    returns (c: NameClaim)
    requires GivesHost(d, m, k, name, value)
    requires forall n: nat, other :: n < k ==> !GivesHost(d, m, n, other, value)
    ensures c in Claims(d, buf, m) && c.signal == Signal(MdnsName, value)
    ensures forall a :: a in c.addresses <==> PublishedBy(d, m.records, Key(name), a)
  {
    assert k < |m.records|;
    hide GivesHost, ItemOffers, Claims, Key, PublishedBy;
    ItemHosts(d, buf, m, k);
    forall n: nat | n < k
      ensures forall i: nat :: i < |ItemOffers(d, buf, m, Hosts, n)| ==> ItemOffers(d, buf, m, Hosts, n)[i].0 != value
    {
      ItemHosts(d, buf, m, n);
    }
    var o := (value, Host(Key(name)));
    assert OfferedFirst(d, buf, m, Hosts, k, 0, o);
    c := OffersAreClaimed(d, buf, m, Hosts, k, 0, o);
  }

  // ---------- the parts read off a record ----------

  // A pointer's target is the name its data spells.
  lemma PointerReadsBack(d: Decoder, buf: seq<byte>, r: Record, name: seq<Dns.Text>)
    requires Writer.NameFits(name) && Stands(buf, r.rdataAt, Writer.NameBytes(name))
    ensures PtrTarget(d, buf, r) == Some(Named(d, name))
  {
    Writer.NameReads(buf, r.rdataAt, name);
  }

  // A service's is the name behind its priority, weight and port.
  lemma ServiceReadsBack(d: Decoder, buf: seq<byte>, r: Record, priority: Writer.word, weight: Writer.word, port: Writer.word,
                         name: seq<Dns.Text>)
    requires Writer.NameFits(name)
    requires Stands(buf, r.rdataAt, Writer.Word(priority) + Writer.Word(weight) + Writer.Word(port) + Writer.NameBytes(name))
    ensures SrvTarget(d, buf, r) == Some(Named(d, name))
  {
    var front := Writer.Word(priority) + Writer.Word(weight) + Writer.Word(port);
    var bytes := front + Writer.NameBytes(name);
    assert |front| == 6;
    assert bytes[6..] == Writer.NameBytes(name);
    assert Stands(buf, r.rdataAt + 6, Writer.NameBytes(name)) by {
      assert buf[r.rdataAt..r.rdataAt + |bytes|][6..] == buf[r.rdataAt + 6..r.rdataAt + |bytes|];
    }
    Writer.NameReads(buf, r.rdataAt + 6, name);
  }

  // A text record's strings, each behind its length, are read back.
  function TxtBytes(strings: seq<Dns.Text>): seq<byte>
    requires forall t :: t in strings ==> |t| < 0x100
  {
    if strings == [] then [] else [|strings[0]|] + strings[0] + TxtBytes(strings[1..])
  }

  lemma {:induction false} TxtReadsBack(rdata: seq<byte>, at: nat, strings: seq<Dns.Text>)
    requires forall t :: t in strings ==> |t| < 0x100
    requires Stands(rdata, at, TxtBytes(strings)) && at + |TxtBytes(strings)| == |rdata|
    ensures TxtFrom(rdata, at) == strings
    decreases strings
  {
    if strings != [] {
      hide Stands;
      var t, rest := strings[0], strings[1..];
      StandsApart(rdata, at, [|t|] + t, TxtBytes(rest));
      StringStands(rdata, at, t);
      TxtReadsBack(rdata, at + 1 + |t|, rest);
    }
  }

  lemma StringStands(rdata: seq<byte>, at: nat, t: Dns.Text)
    requires |t| < 0x100 && Stands(rdata, at, [|t|] + t)
    ensures at + 1 + |t| <= |rdata| && rdata[at] == |t| && rdata[at + 1..at + 1 + |t|] == t
  {
    StandsApart(rdata, at, [|t|], t);
    assert rdata[at..at + 1][0] == rdata[at];
  }

  // Addresses are read most significant byte first, and only when whole.
  lemma {:induction false} AddressBytes(bytes: seq<byte>, i: nat)
    requires i < |bytes|
    ensures BigEndian(bytes) / Power256(|bytes| - 1 - i) % 0x100 == bytes[i]
  {
    var most, last: nat := bytes[..|bytes| - 1], bytes[|bytes| - 1];
    assert BigEndian(bytes) == BigEndian(most) * 0x100 + last;
    if i < |most| {
      assert Power256(|bytes| - 1 - i) == 0x100 * Power256(|most| - 1 - i);
      assert most[i] == bytes[i];
      AddressBytes(most, i);
      hide BigEndian, Power256;
      DropByte(BigEndian(most), last, Power256(|most| - 1 - i));
    } else {
      assert Power256(0) == 1;
      hide BigEndian, Power256;
      LastByte(BigEndian(most), last);
    }
  }

  lemma LastByte(high: nat, low: nat)
    requires low < 0x100
    ensures (high * 0x100 + low) / 1 % 0x100 == low
  {}

  lemma DropByte(high: nat, low: nat, p: nat)
    requires low < 0x100 && p >= 1
    ensures (high * 0x100 + low) / (0x100 * p) == high / p
  {
    var q, r := high / p, high % p;
    assert high == q * p + r;
    Scaled(high, q, p, r);
    Quotient(high * 0x100 + low, q, 0x100 * p, r * 0x100 + low);
  }

  lemma Scaled(n: nat, q: nat, p: nat, r: nat)
    requires n == q * p + r
    ensures n * 0x100 == q * (0x100 * p) + r * 0x100
  {}

  lemma Quotient(n: nat, q: nat, p: nat, r: nat)
    requires r < p && n == q * p + r
    ensures n / p == q
  {
    var d := n / p;
    if d < q {
      Gap(d, q, p);
    } else if q < d {
      Gap(q, d, p);
    }
  }

  lemma Gap(a: nat, b: nat, p: nat)
    requires a < b
    ensures b * p >= a * p + p
  {
    assert (b - a - 1) * p >= 0;
    assert b * p == a * p + (b - a - 1) * p + p;
  }

  lemma AddressIsWhole(r: Record)
    ensures match RecordAddress(r)
            case Some(V4(a)) => r.rtype == 1 && |r.rdata| == 4 && a == BigEndian(r.rdata)
            case Some(V6(a)) => r.rtype == 28 && |r.rdata| == 16 && a == BigEndian(r.rdata)
            case None => !(r.rtype == 1 && |r.rdata| == 4) && !(r.rtype == 28 && |r.rdata| == 16)
  {}
}
