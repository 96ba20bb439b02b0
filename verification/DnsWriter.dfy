/**
 A message written out as section 4.1 of RFC 1035 lays it out, and read back.
 */
module DnsWriter {
  import opened Options
  import opened Dns

  type word = n: nat | n < 0x1_0000
  type double = n: nat | n < 0x1_0000_0000

  // Most significant byte first.
  function Word(n: word): seq<byte> {
    [n / 0x100, n % 0x100]
  }

  function Double(n: double): seq<byte> {
    [n / 0x100_0000, n / 0x1_0000 % 0x100, n / 0x100 % 0x100, n % 0x100]
  }

  // ---------- what is written ----------

  datatype Question = Question(name: seq<Text>, qtype: word, qclass: word)

  datatype Answer = Answer(name: seq<Text>, rtype: word, rclass: word, cacheFlush: bool, ttl: double, rdata: seq<byte>)

  // The header's flags: response, four bits of opcode, authoritative, and ten
  // more bits nobody here reads.
  datatype Flags = Flags(isResponse: bool, opcode: nat, authoritative: bool, others: nat)

  datatype Sent = Sent(
    id: word,
    flags: Flags,
    questions: seq<Question>,
    answers: seq<Answer>,
    authorities: seq<Answer>,
    additionals: seq<Answer>)
  {
    function All(): seq<Answer> {
      answers + authorities + additionals
    }
  }

  predicate NameFits(name: seq<Text>) {
    Writable(name) && |name| <= MAX_LABELS
  }

  predicate AnswerFits(r: Answer) {
    NameFits(r.name) && r.rclass < 0x8000 && |r.rdata| < 0x1_0000
  }

  predicate WellFormed(s: Sent) {
    && s.flags.opcode < 0x10 && s.flags.others < 0x400
    && |s.questions| < 0x1_0000 && |s.answers| < 0x1_0000 && |s.authorities| < 0x1_0000 && |s.additionals| < 0x1_0000
    && (forall q :: q in s.questions ==> NameFits(q.name))
    && (forall r :: r in s.All() ==> AnswerFits(r))
  }

  function NameBytes(name: seq<Text>): seq<byte>
    requires NameFits(name)
  {
    Written(name) + [0]
  }

  function QuestionBytes(q: Question): seq<byte>
    requires NameFits(q.name)
  {
    NameBytes(q.name) + (Word(q.qtype) + Word(q.qclass))
  }

  // The cache-flush bit is the class field's top bit.
  function FixedBytes(r: Answer): seq<byte>
    requires AnswerFits(r)
  {
    Word(r.rtype) + Word(r.rclass + if r.cacheFlush then 0x8000 else 0) + Double(r.ttl) + Word(|r.rdata|)
  }

  function AnswerBytes(r: Answer): seq<byte>
    requires AnswerFits(r)
  {
    NameBytes(r.name) + (FixedBytes(r) + r.rdata)
  }

  function FlagsWord(f: Flags): word
    requires f.opcode < 0x10 && f.others < 0x400
  {
    (if f.isResponse then 0x8000 else 0) + f.opcode * 0x800 + (if f.authoritative then 0x400 else 0) + f.others
  }

  function HeaderBytes(s: Sent): seq<byte>
    requires WellFormed(s)
  {
    Word(s.id) + Word(FlagsWord(s.flags)) + Word(|s.questions|)
    + Word(|s.answers|) + Word(|s.authorities|) + Word(|s.additionals|)
  }

  function QuestionsBytes(qs: seq<Question>): seq<byte>
    requires forall q :: q in qs ==> NameFits(q.name)
  {
    if qs == [] then [] else QuestionBytes(qs[0]) + QuestionsBytes(qs[1..])
  }

  function AnswersBytes(rs: seq<Answer>): seq<byte>
    requires forall r :: r in rs ==> AnswerFits(r)
  {
    if rs == [] then [] else AnswerBytes(rs[0]) + AnswersBytes(rs[1..])
  }

  function Encoded(s: Sent): seq<byte>
    requires WellFormed(s)
  {
    HeaderBytes(s) + (QuestionsBytes(s.questions) + AnswersBytes(s.All()))
  }

  // ---------- what reading them back should give ----------

  // The record as read from where it stands.
  function Standing(r: Answer, at: nat): Record
    requires AnswerFits(r)
  {
    Record(r.name, r.rtype, r.rclass, r.cacheFlush, r.ttl, at + |NameBytes(r.name)| + 10, r.rdata)
  }

  function AllStanding(rs: seq<Answer>, at: nat): seq<Record>
    requires forall r :: r in rs ==> AnswerFits(r)
  {
    if rs == [] then [] else [Standing(rs[0], at)] + AllStanding(rs[1..], at + |AnswerBytes(rs[0])|)
  }

  function Names(qs: seq<Question>): seq<seq<Text>> {
    seq(|qs|, i requires 0 <= i < |qs| => qs[i].name)
  }

  function Received(s: Sent): Message
    requires WellFormed(s)
  {
    Message(s.flags.isResponse, s.flags.authoritative, Names(s.questions),
            AllStanding(s.All(), HEADER + |QuestionsBytes(s.questions)|))
  }

  // ---------- reading them back ----------

  lemma WordReads(buf: seq<byte>, at: nat, n: word)
    requires Stands(buf, at, Word(n))
    ensures U16(buf, at) == n
  {
    var bytes := buf[at..at + 2];
    assert bytes[0] == buf[at] && bytes[1] == buf[at + 1];
  }

  lemma DoubleReads(buf: seq<byte>, at: nat, n: double)
    requires Stands(buf, at, Double(n))
    ensures U16(buf, at) * 0x1_0000 + U16(buf, at + 2) == n
  {
    var high: word, low: word := n / 0x1_0000, n % 0x1_0000;
    assert Double(n) == Word(high) + Word(low) by {
      assert n / 0x100_0000 == high / 0x100 && n / 0x1_0000 % 0x100 == high % 0x100;
      assert n / 0x100 % 0x100 == low / 0x100 && n % 0x100 == low % 0x100;
    }
    StandsApart(buf, at, Word(high), Word(low));
    WordReads(buf, at, high);
    WordReads(buf, at + 2, low);
  }

  lemma NameReads(buf: seq<byte>, at: nat, name: seq<Text>)
    requires NameFits(name) && Stands(buf, at, NameBytes(name))
    ensures ReadName(buf, at) == Some((name, at + |NameBytes(name)|))
  {
    ReadsBack(buf, at, name);
  }

  lemma FixedReads(buf: seq<byte>, at: nat, r: Answer)
    requires AnswerFits(r) && Stands(buf, at, FixedBytes(r))
    ensures at + 10 <= |buf|
    ensures U16(buf, at) == r.rtype
    ensures U16(buf, at + 2) % 0x8000 == r.rclass && (U16(buf, at + 2) >= 0x8000 <==> r.cacheFlush)
    ensures U16(buf, at + 4) * 0x1_0000 + U16(buf, at + 6) == r.ttl
    ensures U16(buf, at + 8) == |r.rdata|
  {
    hide U16, Stands, Word, Double;
    WordSize(r.rtype);
    var rclass := r.rclass + if r.cacheFlush then 0x8000 else 0;
    WordSize(rclass);
    WordSize(|r.rdata|);
    DoubleSize(r.ttl);
    StandsWithin(buf, at, FixedBytes(r));
    StandsApart(buf, at, Word(r.rtype) + Word(rclass) + Double(r.ttl), Word(|r.rdata|));
    StandsApart(buf, at, Word(r.rtype) + Word(rclass), Double(r.ttl));
    StandsApart(buf, at, Word(r.rtype), Word(rclass));
    WordReads(buf, at, r.rtype);
    WordReads(buf, at + 2, rclass);
    DoubleReads(buf, at + 4, r.ttl);
    WordReads(buf, at + 8, |r.rdata|);
  }

  lemma WordSize(n: word)
    ensures |Word(n)| == 2
  {}

  lemma DoubleSize(n: double)
    ensures |Double(n)| == 4
  {}

  lemma StandsWithin(buf: seq<byte>, at: nat, bytes: seq<byte>)
    requires Stands(buf, at, bytes)
    ensures at + |bytes| <= |buf| && buf[at..at + |bytes|] == bytes
  {}

  // A record written anywhere in a buffer is read from there, every field of it.
  lemma RecordReadsBack(buf: seq<byte>, at: nat, r: Answer)
    requires AnswerFits(r) && Stands(buf, at, AnswerBytes(r))
    ensures ReadRecord(buf, at) == Some((Standing(r, at), at + |AnswerBytes(r)|))
  {
    hide ReadName, U16, Stands, NameBytes, FixedBytes;
    var after := at + |NameBytes(r.name)|;
    StandsApart(buf, at, NameBytes(r.name), FixedBytes(r) + r.rdata);
    StandsApart(buf, after, FixedBytes(r), r.rdata);
    FixedSize(r);
    NameReads(buf, at, r.name);
    FixedReads(buf, after, r);
    StandsWithin(buf, after + 10, r.rdata);
  }

  lemma FixedSize(r: Answer)
    requires AnswerFits(r)
    ensures |FixedBytes(r)| == 10
  {}

  lemma {:induction false} RecordsReadBack(buf: seq<byte>, at: nat, rs: seq<Answer>)
    requires (forall r :: r in rs ==> AnswerFits(r)) && Stands(buf, at, AnswersBytes(rs))
    ensures RecordsAt(buf, at, |rs|) == AllStanding(rs, at)
    decreases rs
  {
    hide ReadRecord, Stands, AnswerBytes, AnswerFits;
    if rs != [] {
      StandsApart(buf, at, AnswerBytes(rs[0]), AnswersBytes(rs[1..]));
      RecordReadsBack(buf, at, rs[0]);
      RecordsReadBack(buf, at + |AnswerBytes(rs[0])|, rs[1..]);
    }
  }

  lemma {:induction false} QuestionsReadBack(buf: seq<byte>, at: nat, qs: seq<Question>)
    requires (forall q :: q in qs ==> NameFits(q.name)) && Stands(buf, at, QuestionsBytes(qs))
    ensures QuestionsAt(buf, at, |qs|) == Some((Names(qs), at + |QuestionsBytes(qs)|))
    decreases qs
  {
    hide ReadName, Stands, NameFits, NameBytes, Word;
    if qs != [] {
      var q, rest := qs[0], qs[1..];
      var tail := Word(q.qtype) + Word(q.qclass);
      WordSize(q.qtype);
      WordSize(q.qclass);
      StandsApart(buf, at, QuestionBytes(q), QuestionsBytes(rest));
      StandsApart(buf, at, NameBytes(q.name), tail);
      NameReads(buf, at, q.name);
      var after := at + |NameBytes(q.name)|;
      StandsWithin(buf, after, tail);
      QuestionsReadBack(buf, after + 4, rest);
      assert Names(qs) == [q.name] + Names(rest);
    }
  }

  lemma HeaderReads(buf: seq<byte>, s: Sent)
    requires WellFormed(s) && Stands(buf, 0, HeaderBytes(s))
    ensures HEADER <= |buf| && |HeaderBytes(s)| == HEADER
    ensures U16(buf, 2) == FlagsWord(s.flags) && U16(buf, 4) == |s.questions|
    ensures U16(buf, 6) == |s.answers| && U16(buf, 8) == |s.authorities| && U16(buf, 10) == |s.additionals|
  {
    hide U16, Stands, Word, FlagsWord;
    var a, b, c := Word(s.id), Word(FlagsWord(s.flags)), Word(|s.questions|);
    var d, e, f := Word(|s.answers|), Word(|s.authorities|), Word(|s.additionals|);
    WordSize(s.id);
    WordSize(FlagsWord(s.flags));
    WordSize(|s.questions|);
    WordSize(|s.answers|);
    WordSize(|s.authorities|);
    WordSize(|s.additionals|);
    StandsWithin(buf, 0, HeaderBytes(s));
    StandsApart(buf, 0, a + b + c + d + e, f);
    StandsApart(buf, 0, a + b + c + d, e);
    StandsApart(buf, 0, a + b + c, d);
    StandsApart(buf, 0, a + b, c);
    StandsApart(buf, 0, a, b);
    WordReads(buf, 2, FlagsWord(s.flags));
    WordReads(buf, 4, |s.questions|);
    WordReads(buf, 6, |s.answers|);
    WordReads(buf, 8, |s.authorities|);
    WordReads(buf, 10, |s.additionals|);
  }

  lemma FlagsRead(f: Flags)
    requires f.opcode < 0x10 && f.others < 0x400
    ensures var n := FlagsWord(f);
            (n >= 0x8000 <==> f.isResponse) && ((n / 0x400) % 2 == 1 <==> f.authoritative)
  {}

  // What stands at the start of a buffer is received as it was sent, whatever
  // follows it: flags, questions, and every record of the three sections with
  // its name, type, class, flush bit, lifetime, data and place.
  lemma MessageReadsBack(buf: seq<byte>, s: Sent)
    requires WellFormed(s) && Stands(buf, 0, Encoded(s))
    ensures Parsed(buf) == Some(Received(s))
  {
    hide U16, Stands, QuestionsAt, RecordsAt, FlagsWord, HeaderBytes, QuestionsBytes, AnswersBytes, AllStanding, Names, NameFits,
         AnswerFits;
    var questions, answers := QuestionsBytes(s.questions), AnswersBytes(s.All());
    StandsApart(buf, 0, HeaderBytes(s), questions + answers);
    HeaderReads(buf, s);
    FlagsRead(s.flags);
    StandsApart(buf, HEADER, questions, answers);
    QuestionsReadBack(buf, HEADER, s.questions);
    RecordsReadBack(buf, HEADER + |questions|, s.All());
  }

  // In particular the round trip.
  lemma RoundTrip(s: Sent)
    requires WellFormed(s)
    ensures Parsed(Encoded(s)) == Some(Received(s))
  {
    hide Encoded, Received, Parsed, WellFormed;
    var bytes := Encoded(s);
    assert bytes[0..0 + |bytes|] == bytes;
    MessageReadsBack(bytes, s);
  }
}
