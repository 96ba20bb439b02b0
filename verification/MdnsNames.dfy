/**
 Which names the extractor's keys tell apart, and so whose addresses a claim is
 given.
 */
module MdnsNames {
  import opened Options
  import opened Types
  import opened Dns
  import opened Mdns

  // ---------- what a key tells apart ----------

  // The same labels, but for the case of their ASCII letters.
  predicate SameName(a: seq<string>, b: seq<string>) {
    |a| == |b| && forall i :: 0 <= i < |a| ==> SameIgnoringCase(a[i], b[i])
  }

  // A text cut at its dots.
  function Split(s: string): (pieces: seq<string>)
    ensures pieces != []
  {
    if s == "" then [""]
    else
      var rest := Split(s[1..]);
      if s[0] == '.' then [""] + rest else [[s[0]] + rest[0]] + rest[1..]
  }

  // A name's labels, each cut at its own dots.
  function Pieces(labels: seq<string>): seq<string> {
    if labels == [] then [""]
    else if |labels| == 1 then Split(labels[0])
    else Split(labels[0]) + Pieces(labels[1..])
  }

  // Labels as the wire mostly has them: not empty, and without a dot.
  predicate Plain(labels: seq<string>) {
    forall l :: l in labels ==> l != "" && '.' !in l
  }

  function LowerAll(labels: seq<string>): seq<string> {
    seq(|labels|, i requires 0 <= i < |labels| => Lower(labels[i]))
  }

  lemma {:induction false} JoinedSplit(s: string)
    ensures Joined(Split(s)) == s
  {
    if s != "" {
      JoinedSplit(s[1..]);
      var rest := Split(s[1..]);
      if s[0] == '.' {
        assert ([""] + rest)[1..] == rest;
      } else {
        var first := [s[0]] + rest[0];
        assert ([first] + rest[1..])[1..] == rest[1..];
        if |rest| > 1 {
          assert first + "." + Joined(rest[1..]) == [s[0]] + (rest[0] + "." + Joined(rest[1..]));
        }
      }
    }
  }

  lemma SplitCons(c: char, s: string)
    ensures Split([c] + s) == if c == '.' then [""] + Split(s) else [[c] + Split(s)[0]] + Split(s)[1..]
  {
    assert ([c] + s)[1..] == s;
  }

  // Cutting a text at a dot cuts its two sides.
  lemma {:induction false} SplitApart(a: string, b: string)
    ensures Split(a + "." + b) == Split(a) + Split(b)
  {
    if a == "" {
      assert a + "." + b == ['.'] + b;
      SplitCons('.', b);
    } else {
      hide Split;
      var c, t := a[0], a[1..];
      SplitApart(t, b);
      assert a == [c] + t && a + "." + b == [c] + (t + "." + b);
      SplitCons(c, t + "." + b);
      SplitCons(c, t);
      PrependApart(c, Split(t), Split(b));
    }
  }

  lemma PrependApart(c: char, x: seq<string>, y: seq<string>)
    requires x != []
    ensures [[c] + (x + y)[0]] + (x + y)[1..] == ([[c] + x[0]] + x[1..]) + y
    ensures [""] + (x + y) == ([""] + x) + y
  {}

  lemma {:induction false} PiecesAreSplit(labels: seq<string>)
    ensures Split(Joined(labels)) == Pieces(labels)
  {
    if |labels| > 1 {
      PiecesAreSplit(labels[1..]);
      SplitApart(labels[0], Joined(labels[1..]));
    }
  }

  lemma {:induction false} SplitLower(s: string)
    ensures Split(Lower(s)) == LowerAll(Split(s))
  {
    if s != "" {
      SplitLower(s[1..]);
      assert Lower(s)[0] == LowerChar(s[0]) && Lower(s)[1..] == Lower(s[1..]);
      var rest := Split(s[1..]);
      if s[0] != '.' {
        LowerApart([s[0]], rest[0]);
        assert Lower([s[0]]) == [LowerChar(s[0])];
      }
    }
  }

  lemma SameNameIsLower(a: seq<string>, b: seq<string>)
    ensures SameName(a, b) <==> LowerAll(a) == LowerAll(b)
  {
    if LowerAll(a) == LowerAll(b) {
      assert |a| == |LowerAll(a)| == |LowerAll(b)| == |b|;
      forall i | 0 <= i < |a|
        ensures Lower(a[i]) == Lower(b[i])
      {
        assert LowerAll(a)[i] == LowerAll(b)[i];
      }
    }
  }

  // Two names have one key exactly when, cut at every dot there is, they are the
  // same pieces but for case.
  lemma KeysAgreeExactly(a: seq<string>, b: seq<string>)
    ensures Key(a) == Key(b) <==> SameName(Pieces(a), Pieces(b))
  {
    hide Lower, Joined, Split, SameName, Pieces, LowerAll;
    PiecesAreSplit(a);
    PiecesAreSplit(b);
    SplitLower(Joined(a));
    SplitLower(Joined(b));
    JoinedSplit(Key(a));
    JoinedSplit(Key(b));
    SameNameIsLower(Pieces(a), Pieces(b));
  }

  lemma {:induction false} PlainIsWhole(s: string)
    requires '.' !in s
    ensures Split(s) == [s]
  {
    if s != "" {
      PlainIsWhole(s[1..]);
      assert s[0] in s && [s[0]] + s[1..] == s;
    }
  }

  lemma {:induction false} PlainPieces(labels: seq<string>)
    requires Plain(labels)
    ensures Pieces(labels) == if labels == [] then [""] else labels
  {
    if labels != [] {
      PlainIsWhole(labels[0]);
      if |labels| > 1 {
        forall l | l in labels[1..]
          ensures l in labels
        {}
        PlainPieces(labels[1..]);
        assert labels == [labels[0]] + labels[1..];
      }
    }
  }

  // Where no label is empty or holds a dot, one key means one name.
  lemma KeyExactly(a: seq<string>, b: seq<string>)
    requires Plain(a) && Plain(b)
    ensures Key(a) == Key(b) <==> SameName(a, b)
  {
    hide Key, Pieces;
    KeysAgreeExactly(a, b);
    PlainPieces(a);
    PlainPieces(b);
    if |a| == 0 < |b| || |b| == 0 < |a| {
      EmptyPiece(if a == [] then b else a);
    }
  }

  lemma EmptyPiece(labels: seq<string>)
    requires Plain(labels) && labels != []
    ensures !SameName([""], labels) && !SameName(labels, [""])
  {
    assert labels[0] in labels;
    assert |Lower(labels[0])| > 0 && |Lower("")| == 0;
  }

  // ---------- whose addresses a claim is given ----------

  // The message names it: as a record's owner, as a pointer's target, or in a
  // question.
  ghost predicate NamedIn(d: Decoder, buf: seq<byte>, m: Message, name: seq<string>) {
    || (exists r :: r in m.records && Named(d, r.name) == name)
    || (exists r :: r in m.records && r.rtype == TYPE_PTR && PtrTarget(d, buf, r) == Some(name))
    || (exists q :: q in m.questions && Named(d, q) == name)
  }

  ghost predicate TargetsPlain(d: Decoder, buf: seq<byte>, m: Message) {
    forall r :: r in m.records && r.rtype == TYPE_SRV && SrvTarget(d, buf, r).Some? ==> Plain(SrvTarget(d, buf, r).value)
  }

  // No name in the message has an empty label or one with a dot in it.
  ghost predicate PlainMessage(d: Decoder, buf: seq<byte>, m: Message) {
    && (forall name :: NamedIn(d, buf, m, name) ==> Plain(name))
    && TargetsPlain(d, buf, m)
  }

  // An address record for that very name carries the address.
  ghost predicate PublishedUnder(d: Decoder, records: seq<Record>, name: seq<string>, a: IpAddr) {
    exists r :: r in records && RecordAddress(r) == Some(a) && SameName(Named(d, r.name), name)
  }

  predicate LocatesName(d: Decoder, buf: seq<byte>, r: Record, name: seq<string>) {
    r.rtype == TYPE_SRV && SrvTarget(d, buf, r).Some? && SameName(Named(d, r.name), name)
  }

  // Record `k` is the first service record for that very name, and names the
  // host.
  ghost predicate LivesOn(d: Decoder, buf: seq<byte>, records: seq<Record>, k: nat, name: seq<string>, host: seq<string>) {
    && k < |records|
    && LocatesName(d, buf, records[k], name)
    && SrvTarget(d, buf, records[k]) == Some(host)
    && forall j :: 0 <= j < k ==> !LocatesName(d, buf, records[j], name)
  }

  lemma OwnerNamesPlain(d: Decoder, buf: seq<byte>, m: Message, r: Record)
    requires PlainMessage(d, buf, m) && r in m.records
    ensures Plain(Named(d, r.name))
  {
    hide Plain, Named;
    assert NamedIn(d, buf, m, Named(d, r.name));
  }

  lemma PublishedByName(d: Decoder, buf: seq<byte>, m: Message, name: seq<string>, a: IpAddr)
    requires PlainMessage(d, buf, m) && Plain(name)
    ensures PublishedBy(d, m.records, Key(name), a) <==> PublishedUnder(d, m.records, name, a)
  {
    hide Key, SameName, Plain, PlainMessage, RecordAddress, Named;
    forall r | r in m.records
      ensures Key(Named(d, r.name)) == Key(name) <==> SameName(Named(d, r.name), name)
    {
      OwnerNamesPlain(d, buf, m, r);
      KeyExactly(Named(d, r.name), name);
    }
  }

  // In any message, plain or not: a host is given exactly the addresses of the
  // records whose names come to the same pieces.
  lemma HostAddressesExactly(d: Decoder, buf: seq<byte>, m: Message, name: seq<string>, a: IpAddr)
    ensures a in AddressesFor(d, buf, m, Host(Key(name))) <==>
            exists r :: r in m.records && RecordAddress(r) == Some(a) && SameName(Pieces(Named(d, r.name)), Pieces(name))
  {
    hide Key, SameName, Pieces, RecordAddress, Named, AddressesFor;
    AddressesAreProved(d, buf, m, Host(Key(name)), a);
    forall r | r in m.records
      ensures Key(Named(d, r.name)) == Key(name) <==> SameName(Pieces(Named(d, r.name)), Pieces(name))
    {
      KeysAgreeExactly(Named(d, r.name), name);
    }
  }

  lemma LocatedByName(d: Decoder, buf: seq<byte>, m: Message, name: seq<string>, k: nat)
    requires PlainMessage(d, buf, m) && Plain(name) && k < |m.records|
    ensures Locates(d, buf, m.records[k], Key(name)) <==> LocatesName(d, buf, m.records[k], name)
  {
    hide Key, SameName, Plain, PlainMessage, SrvTarget, Named;
    OwnerNamesPlain(d, buf, m, m.records[k]);
    KeyExactly(Named(d, m.records[k].name), name);
  }

  // A plain host is given exactly the addresses published under its own name.
  lemma HostAddressesByName(d: Decoder, buf: seq<byte>, m: Message, name: seq<string>, a: IpAddr)
    requires PlainMessage(d, buf, m) && Plain(name)
    ensures a in AddressesFor(d, buf, m, Host(Key(name))) <==> PublishedUnder(d, m.records, name, a)
  {
    hide Key, Plain, PlainMessage, PublishedUnder, PublishedBy, AddressesFor;
    AddressesAreProved(d, buf, m, Host(Key(name)), a);
    PublishedByName(d, buf, m, name, a);
  }

  // A plain instance is given exactly the addresses published under the name its
  // own first service record gives for its host.
  lemma InstanceAddressesByName(d: Decoder, buf: seq<byte>, m: Message, name: seq<string>, a: IpAddr)
    requires PlainMessage(d, buf, m) && Plain(name)
    ensures a in AddressesFor(d, buf, m, Instance(Key(name))) <==>
            exists k: nat, host :: LivesOn(d, buf, m.records, k, name, host) && PublishedUnder(d, m.records, host, a)
  {
    hide Key, Plain, PublishedUnder, PublishedBy, AddressesFor, Locates, LocatesName, SrvTarget, NamedIn;
    var instance := Key(name);
    AddressesAreProved(d, buf, m, Instance(instance), a);
    forall k: nat | k < |m.records|
      ensures Locates(d, buf, m.records[k], instance) <==> LocatesName(d, buf, m.records[k], name)
    {
      LocatedByName(d, buf, m, name, k);
    }
    forall k: nat | k < |m.records| && LocatesName(d, buf, m.records[k], name)
      ensures SrvTarget(d, buf, m.records[k]).Some?
      ensures var host := SrvTarget(d, buf, m.records[k]).value;
              PublishedBy(d, m.records, Key(host), a) <==> PublishedUnder(d, m.records, host, a)
    {
      TargetIsPlain(d, buf, m, name, k);
      PublishedByName(d, buf, m, SrvTarget(d, buf, m.records[k]).value, a);
    }
    if Proved(d, buf, m.records, Instance(instance), a) {
      var k: nat, host :| LocatedFirst(d, buf, m.records, k, instance, host) && PublishedBy(d, m.records, host, a);
      assert LivesOn(d, buf, m.records, k, name, SrvTarget(d, buf, m.records[k]).value);
    }
    if k: nat, host :| LivesOn(d, buf, m.records, k, name, host) && PublishedUnder(d, m.records, host, a) {
      assert LocatedFirst(d, buf, m.records, k, instance, Key(host));
    }
  }

  lemma TargetIsPlain(d: Decoder, buf: seq<byte>, m: Message, name: seq<string>, k: nat)
    requires PlainMessage(d, buf, m) && k < |m.records| && LocatesName(d, buf, m.records[k], name)
    ensures SrvTarget(d, buf, m.records[k]).Some? && Plain(SrvTarget(d, buf, m.records[k]).value)
  {
    hide NamedIn, Plain, SrvTarget, SameName, Named;
    assert m.records[k] in m.records;
  }

  // The mention's owner is that name, which for a host or an instance is also
  // what its value was read off.
  ghost predicate Offers(name: seq<string>, mention: Mention) {
    match mention.owner
    case Sender => false
    case Host(key) => key == Key(name) && HostLabel(name) == Some(mention.value)
    case Instance(key) =>
      && key == Key(name)
      && |name| >= 4
      && (mention.group == Instances ==> CleanName(name[0]) == Some(mention.value))
  }

  ghost predicate Offered(d: Decoder, buf: seq<byte>, m: Message, name: seq<string>, mention: Mention) {
    NamedIn(d, buf, m, name) && Offers(name, mention)
  }

  lemma {:induction false} RecordsMention(d: Decoder, buf: seq<byte>, records: seq<Record>, x: Mention) returns (r: Record)
    requires x in FromRecords(d, buf, records)
    ensures r in records && x in RecordMentions(d, buf, r)
  {
    hide RecordMentions;
    var most, last := records[..|records| - 1], records[|records| - 1];
    if x in RecordMentions(d, buf, last) {
      r := last;
    } else {
      r := RecordsMention(d, buf, most, x);
    }
  }

  lemma {:induction false} QuestionsMention(d: Decoder, questions: seq<seq<Dns.Text>>, x: Mention) returns (q: seq<Dns.Text>)
    requires x in FromQuestions(d, questions)
    ensures q in questions && x in QuestionMentions(d, q)
  {
    hide QuestionMentions;
    var most, last := questions[..|questions| - 1], questions[|questions| - 1];
    if x in QuestionMentions(d, last) {
      q := last;
    } else {
      q := QuestionsMention(d, most, x);
    }
  }

  lemma InstanceOffers(name: seq<string>, x: Mention)
    requires x in InstanceMentions(name) && x.owner != Sender
    ensures Offers(name, x)
  {
    hide Key, CleanName, HostLabel;
  }

  lemma {:induction false} ModelsOwned(d: Decoder, entries: seq<Dns.Text>, owner: Owner, x: Mention)
    requires x in ModelMentions(d, entries, owner)
    ensures x.owner == owner && x.group == Models
  {
    hide IsModelKey, CleanValue;
    if x !in ModelMention(d(entries[0]), owner) {
      ModelsOwned(d, entries[1..], owner, x);
    }
  }

  // Whatever is not the sender's is mentioned under a name the message gives.
  lemma RecordOffers(d: Decoder, buf: seq<byte>, m: Message, r: Record, x: Mention) returns (name: seq<string>)
    requires r in m.records && x in RecordMentions(d, buf, r) && x.owner != Sender
    ensures Offered(d, buf, m, name, x)
  {
    hide Key, CleanName, HostLabel, InstanceMentions, ModelMentions, Offers, PtrTarget, Named, TxtFrom;
    name := Named(d, r.name);
    if r.rtype == TYPE_PTR {
      if PtrTarget(d, buf, r).Some? {
        name := PtrTarget(d, buf, r).value;
        if x in InstanceMentions(name) {
          InstanceOffers(name, x);
        } else {
          OthersOffer(name, x);
        }
      }
    } else if r.rtype == TYPE_SRV {
      InstanceOffers(name, x);
    } else if r.rtype == TYPE_TXT {
      if x in InstanceMentions(name) {
        InstanceOffers(name, x);
      } else {
        ModelsOwned(d, TxtFrom(r.rdata, 0), InstanceOwner(name), x);
        OthersOffer(name, x);
      }
    } else {
      HostOffers(name, x);
    }
  }

  lemma OthersOffer(name: seq<string>, x: Mention)
    requires x.owner == InstanceOwner(name) != Sender && x.group != Instances
    ensures Offers(name, x)
  {}

  lemma HostOffers(name: seq<string>, x: Mention)
    requires x in HostMentions(name, Host(Key(name)))
    ensures Offers(name, x)
  {
    hide HostLabel, Key;
  }

  lemma QuestionOffers(d: Decoder, buf: seq<byte>, m: Message, q: seq<Dns.Text>, x: Mention)
    requires q in m.questions && x in QuestionMentions(d, q) && x.owner != Sender
    ensures Offered(d, buf, m, Named(d, q), x)
  {
    hide Key, CleanName, HostLabel, InstanceMentions, Offers, Named;
    InstanceOffers(Named(d, q), x);
  }

  lemma MentionOffered(d: Decoder, buf: seq<byte>, m: Message, x: Mention) returns (name: seq<string>)
    requires x in Mentions(d, buf, m) && x.owner != Sender
    ensures Offered(d, buf, m, name, x)
  {
    hide FromRecords, FromQuestions, Offered;
    if x in FromRecords(d, buf, m.records) {
      var r := RecordsMention(d, buf, m.records, x);
      name := RecordOffers(d, buf, m, r, x);
    } else {
      var q := QuestionsMention(d, m.questions, x);
      name := Named(d, q);
      QuestionOffers(d, buf, m, q, x);
    }
  }

  // The record that gave the address is the name's own, or that of the host its
  // own first service record gives.
  ghost predicate OwnAddress(d: Decoder, buf: seq<byte>, m: Message, name: seq<string>, owner: Owner, a: IpAddr) {
    match owner
    case Sender => false
    case Host(_) => PublishedUnder(d, m.records, name, a)
    case Instance(_) =>
      exists k: nat, host :: LivesOn(d, buf, m.records, k, name, host) && PublishedUnder(d, m.records, host, a)
  }

  // In a message of plain names, every address given to a claim comes from a
  // record of the claim's own host, by name and not only by key.
  lemma ClaimAddressesAreItsOwn(d: Decoder, buf: seq<byte>, m: Message, c: NameClaim, a: IpAddr)
    returns (mention: Mention, name: seq<string>)
    requires PlainMessage(d, buf, m) && c in Claims(d, buf, m) && a in c.addresses
    ensures mention in Mentions(d, buf, m) && c == ClaimFrom(d, buf, m, mention)
    ensures Offered(d, buf, m, name, mention) && OwnAddress(d, buf, m, name, mention.owner, a)
  {
    hide Mentions, Claims, Key, PublishedUnder, LivesOn, FirstMention, Plain, AddressesFor;
    ClaimsAreFirstMentions(d, buf, m, c);
    var ms := Mentions(d, buf, m);
    var k: nat :| k < |ms| && FirstMention(ms, k) && c == ClaimFrom(d, buf, m, ms[k]);
    mention := ms[k];
    NothingForSender(d, buf, m);
    name := MentionOffered(d, buf, m, mention);
    match mention.owner
    case Host(_) => HostAddressesByName(d, buf, m, name, a);
    case Instance(_) => InstanceAddressesByName(d, buf, m, name, a);
    case Sender =>
  }

  lemma NothingForSender(d: Decoder, buf: seq<byte>, m: Message)
    ensures AddressesFor(d, buf, m, Sender) == []
  {}

  // ---------- where it fails ----------

  function Ascii(text: Dns.Text): string {
    seq(|text|, i requires 0 <= i < |text| => text[i] as char)
  }

  // "a.b" as one label, and as two.
  const DOTTED: seq<Dns.Text> := [[97, 46, 98], [108, 111, 99, 97, 108]]
  const PARTED: seq<Dns.Text> := [[97], [98], [108, 111, 99, 97, 108]]

  function AddressRecord(name: seq<Dns.Text>, last: byte): Record {
    Record(name, TYPE_A, 1, true, 120, 0, [10, 0, 0, last])
  }

  lemma DottedNames()
    ensures Named(Ascii, DOTTED) == ["a.b", "local"] && Named(Ascii, PARTED) == ["a", "b", "local"]
    ensures Key(["a.b", "local"]) == Key(["a", "b", "local"])
  {
    assert Ascii([97, 46, 98]) == "a.b" && Ascii([108, 111, 99, 97, 108]) == "local";
    assert Ascii([97]) == "a" && Ascii([98]) == "b";
    KeyForgetsBoundaries();
  }

  lemma DottedIsClean()
    ensures CleanName("a.b") == Some("a.b")
  {
    assert !IsSpace('a') && !IsSpace('b');
    assert Trim("a.b") == "a.b" && TrimDots("a.b") == "a.b";
    assert 'a' in "a.b";
    assert !IsControl('a') && !IsControl('.') && !IsControl('b');
  }

  lemma DottedMention(m: Message)
    requires m == Message(true, true, [], [AddressRecord(DOTTED, 1), AddressRecord(PARTED, 2)])
    ensures Mentions(Ascii, [], m) == [Mention(Hosts, "a.b", Host(Key(["a.b", "local"])))]
  {
    hide Key, CleanName, Named;
    DottedNames();
    DottedIsClean();
    var r, q := AddressRecord(DOTTED, 1), AddressRecord(PARTED, 2);
    assert HostLabel(["a.b", "local"]) == Some("a.b");
    assert RecordMentions(Ascii, [], r) == [Mention(Hosts, "a.b", Host(Key(["a.b", "local"])))];
    assert RecordMentions(Ascii, [], q) == [];
    assert m.records[..1] == [r] && [r][..0] == [];
    assert FromRecords(Ascii, [], [r]) == RecordMentions(Ascii, [], r);
  }

  lemma DottedAddress(last: byte)
    ensures RecordAddress(AddressRecord(DOTTED, last)) == Some(V4(0x0A00_0000 + last))
    ensures RecordAddress(AddressRecord(PARTED, last)) == Some(V4(0x0A00_0000 + last))
  {
    var bytes: seq<byte> := [10, 0, 0, last];
    assert bytes[..3] == [10, 0, 0] && bytes[..3][..2] == [10, 0] && bytes[..2][..1] == [10] && bytes[..1][..0] == [];
    assert BigEndian([10]) == 10;
    assert BigEndian([10, 0]) == 0xA00;
    assert BigEndian([10, 0, 0]) == 0xA_0000;
    assert BigEndian(bytes) == 0xA00_0000 + last;
  }

  // With a dot in a label the bound is lost: a response giving two hosts one
  // address each makes one claim, about the dotted host, that is given both.
  lemma DottedHostGetsBoth()
    ensures var m := Message(true, true, [], [AddressRecord(DOTTED, 1), AddressRecord(PARTED, 2)]);
            var claims := Claims(Ascii, [], m);
            && (exists c :: c in claims && c.signal == Signal(MdnsName, "a.b")
                            && V4(0x0A00_0001) in c.addresses && V4(0x0A00_0002) in c.addresses)
            && !SameName(Named(Ascii, DOTTED), Named(Ascii, PARTED))
  {
    hide Key, Named, RecordAddress, Mentions, Claims, AddressesFor;
    var r, q := AddressRecord(DOTTED, 1), AddressRecord(PARTED, 2);
    var m := Message(true, true, [], [r, q]);
    DottedNames();
    DottedMention(m);
    var x := Mention(Hosts, "a.b", Host(Key(["a.b", "local"])));
    var c := ClaimFrom(Ascii, [], m, x);
    assert Mentions(Ascii, [], m)[0] == x && FirstMention(Mentions(Ascii, [], m), 0);
    ClaimsAreFirstMentions(Ascii, [], m, c);
    DottedAddress(1);
    DottedAddress(2);
    assert r in m.records && q in m.records;
    AddressesAreProved(Ascii, [], m, x.owner, V4(0x0A00_0001));
    AddressesAreProved(Ascii, [], m, x.owner, V4(0x0A00_0002));
  }
}
