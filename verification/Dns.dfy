/**
 The message walker: names compressed as section 4.1.4 of RFC 1035 allows, the
 records made of them, and what a truncated capture of a message still yields.
 */
module Dns {
  import opened Options

  type byte = b: nat | b < 0x100

  // Raw label bytes; turning them into text is the reader's business.
  type Text = seq<byte>

  const MAX_POINTERS: nat := 16
  const MAX_LABELS: nat := 64
  const HEADER: nat := 12

  // ---------- what bytes denote a name ----------

  // How a name is spelled: a run of labels that ends at the root or continues
  // elsewhere in the message.
  datatype Name = Root | Label(text: Text, rest: Name) | Pointer(target: nat, elsewhere: Name) {
    function Labels(): seq<Text> {
      match this
      case Root => []
      case Label(text, rest) => [text] + rest.Labels()
      case Pointer(_, elsewhere) => elsewhere.Labels()
    }

    function Pointers(): nat {
      match this
      case Root => 0
      case Label(_, rest) => rest.Pointers()
      case Pointer(_, elsewhere) => 1 + elsewhere.Pointers()
    }

    // Just past the name where it started: a pointer ends it there.
    function End(at: nat): nat {
      match this
      case Root => at + 1
      case Label(text, rest) => rest.End(at + 1 + |text|)
      case Pointer(_, _) => at + 2
    }

    // Just past the last byte read, wherever that was.
    function Extent(at: nat): nat {
      match this
      case Root => at + 1
      case Label(text, rest) => rest.Extent(at + 1 + |text|)
      case Pointer(target, elsewhere) => Max(at + 2, elsewhere.Extent(target))
    }
  }

  function Max(a: nat, b: nat): nat {
    if a >= b then a else b
  }

  // Two bytes with the top bits set point to an offset.
  function Target(hi: byte, lo: byte): nat
    requires hi >= 0xc0
  {
    (hi - 0xc0) * 0x100 + lo
  }

  // The bytes at an offset spell a name.  A pointer must go backwards from where
  // it stands; 0x40 and 0x80 start nothing.
  predicate Spells(buf: seq<byte>, at: nat, n: Name)
    decreases n
  {
    at < |buf|
    && match n
       case Root => buf[at] == 0
       case Label(text, rest) =>
         && 1 <= buf[at] < 0x40
         && at + 1 + buf[at] <= |buf|
         && text == buf[at + 1..at + 1 + buf[at]]
         && Spells(buf, at + 1 + |text|, rest)
       case Pointer(target, elsewhere) =>
         && buf[at] >= 0xc0
         && at + 1 < |buf|
         && target == Target(buf[at], buf[at + 1]) < at
         && Spells(buf, target, elsewhere)
  }

  lemma {:induction false} OneSpelling(buf: seq<byte>, at: nat, n: Name, m: Name)
    requires Spells(buf, at, n) && Spells(buf, at, m)
    ensures n == m
    decreases n
  {
    match n
    case Root =>
    case Label(text, rest) => OneSpelling(buf, at + 1 + |text|, rest, m.rest);
    case Pointer(target, elsewhere) => OneSpelling(buf, target, elsewhere, m.elsewhere);
  }

  // A spelling depends only on the bytes up to its extent: it is there in a
  // prefix exactly when the prefix reaches that far.
  lemma {:induction false} SpellsInPrefix(buf: seq<byte>, k: nat, at: nat, n: Name)
    requires k <= |buf|
    ensures Spells(buf[..k], at, n) <==> Spells(buf, at, n) && n.Extent(at) <= k
    ensures n.End(at) <= n.Extent(at) && at < n.Extent(at)
    decreases n
  {
    match n
    case Root =>
    case Label(text, rest) =>
      SpellsInPrefix(buf, k, at + 1 + |text|, rest);
      if at < k && at + 1 + buf[at] <= k {
        assert buf[..k][at + 1..at + 1 + buf[at]] == buf[at + 1..at + 1 + buf[at]];
      }
    case Pointer(target, elsewhere) =>
      SpellsInPrefix(buf, k, target, elsewhere);
  }

  lemma {:induction false} NameEndsAfterStart(buf: seq<byte>, at: nat, n: Name)
    requires Spells(buf, at, n)
    ensures at < n.End(at) <= |buf| && n.Extent(at) <= |buf|
    decreases n
  {
    match n
    case Root =>
    case Label(text, rest) => NameEndsAfterStart(buf, at + 1 + |text|, rest);
    case Pointer(target, elsewhere) => NameEndsAfterStart(buf, target, elsewhere);
  }

  // ---------- reading a name ----------

  // The labels and the offset just past the name in its original position, with
  // so many more labels and pointers allowed.
  function NameAt(buf: seq<byte>, at: nat, room: nat, hops: nat): Option<(seq<Text>, nat)>
    decreases hops, |buf| - at
  {
    if at >= |buf| then None
    else if buf[at] == 0 then Some(([], at + 1))
    else if buf[at] < 0x40 then
      var to := at + 1 + buf[at];
      if to > |buf| || room == 0 then None
      else
        var rest := NameAt(buf, to, room - 1, hops);
        if rest.None? then None else Some(([buf[at + 1..to]] + rest.value.0, rest.value.1))
    else if buf[at] >= 0xc0 then
      if at + 1 >= |buf| || Target(buf[at], buf[at + 1]) >= at || hops == 0 then None
      else
        var elsewhere := NameAt(buf, Target(buf[at], buf[at + 1]), room, hops - 1);
        if elsewhere.None? then None else Some((elsewhere.value.0, at + 2))
    else None
  }

  function ReadName(buf: seq<byte>, start: nat): Option<(seq<Text>, nat)> {
    NameAt(buf, start, MAX_LABELS, MAX_POINTERS)
  }

  // The walk: it terminates because each pointer uses up an allowance and each
  // label moves towards the end of the buffer, even when pointers loop.
  method Walk(buf: seq<byte>, start: nat) returns (r: Option<(seq<Text>, nat)>)
    ensures r == ReadName(buf, start)
  {
    var labels: seq<Text> := [];
    var offset: nat, pointers: nat := start, 0;
    var endOfName: Option<nat> := None;
    OnwardNothing(ReadName(buf, start));
    while true
      invariant |labels| <= MAX_LABELS && pointers <= MAX_POINTERS
      invariant ReadName(buf, start)
             == Onward(labels, endOfName, NameAt(buf, offset, MAX_LABELS - |labels|, MAX_POINTERS - pointers))
      decreases MAX_POINTERS - pointers, |buf| - offset
    {
      if offset >= |buf| {
        return None;
      }
      var len := buf[offset];
      if len < 0x40 {
        if len == 0 {
          assert labels + [] == labels;
          return Some((labels, endOfName.GetOr(offset + 1)));
        }
        var from := offset + 1;
        var to := from + len;
        if to > |buf| {
          return None;
        }
        ghost var before := labels;
        labels := labels + [buf[from..to]];
        if |labels| > MAX_LABELS {
          return None;
        }
        OnwardLabel(before, buf[from..to], endOfName, NameAt(buf, to, MAX_LABELS - |labels|, MAX_POINTERS - pointers));
        offset := to;
      } else if len >= 0xc0 {
        if offset + 1 >= |buf| {
          return None;
        }
        var target := Target(len, buf[offset + 1]);
        if target >= offset {
          return None;
        }
        pointers := pointers + 1;
        if pointers > MAX_POINTERS {
          return None;
        }
        endOfName := Some(endOfName.GetOr(offset + 2));
        offset := target;
      } else {
        return None;
      }
    }
  }

  // The whole result, given what has been read and what is read from here on.
  function Onward(labels: seq<Text>, end: Option<nat>, rest: Option<(seq<Text>, nat)>): Option<(seq<Text>, nat)> {
    if rest.None? then None else Some((labels + rest.value.0, end.GetOr(rest.value.1)))
  }

  lemma OnwardNothing(rest: Option<(seq<Text>, nat)>)
    ensures Onward([], None, rest) == rest
  {
    if rest.Some? { assert [] + rest.value.0 == rest.value.0; }
  }

  lemma OnwardLabel(labels: seq<Text>, text: Text, end: Option<nat>, rest: Option<(seq<Text>, nat)>)
    ensures Onward(labels + [text], end, rest)
         == Onward(labels, end, if rest.None? then None else Some(([text] + rest.value.0, rest.value.1)))
  {
    if rest.Some? {
      assert (labels + [text]) + rest.value.0 == labels + ([text] + rest.value.0);
    }
  }

  // The spelling that was read.
  lemma {:induction false} NameAtSound(buf: seq<byte>, at: nat, room: nat, hops: nat) returns (n: Name)
    requires NameAt(buf, at, room, hops).Some?
    ensures Spells(buf, at, n) && |n.Labels()| <= room && n.Pointers() <= hops
    ensures NameAt(buf, at, room, hops) == Some((n.Labels(), n.End(at)))
    decreases hops, |buf| - at
  {
    if buf[at] == 0 {
      n := Root;
    } else if buf[at] < 0x40 {
      var to := at + 1 + buf[at];
      var rest := NameAtSound(buf, to, room - 1, hops);
      n := Label(buf[at + 1..to], rest);
    } else {
      var elsewhere := NameAtSound(buf, Target(buf[at], buf[at + 1]), room, hops - 1);
      n := Pointer(Target(buf[at], buf[at + 1]), elsewhere);
    }
  }

  lemma {:induction false} NameAtComplete(buf: seq<byte>, at: nat, n: Name, room: nat, hops: nat)
    requires Spells(buf, at, n) && |n.Labels()| <= room && n.Pointers() <= hops
    ensures NameAt(buf, at, room, hops) == Some((n.Labels(), n.End(at)))
    decreases n
  {
    match n
    case Root =>
    case Label(text, rest) => NameAtComplete(buf, at + 1 + |text|, rest, room - 1, hops);
    case Pointer(target, elsewhere) => NameAtComplete(buf, target, elsewhere, room, hops - 1);
  }

  // The name at an offset is spelled there within the bounds, and read so.
  ghost predicate Denotes(buf: seq<byte>, at: nat, n: Name, labels: seq<Text>, end: nat) {
    && Spells(buf, at, n)
    && n.Labels() == labels && |labels| <= MAX_LABELS
    && n.Pointers() <= MAX_POINTERS
    && n.End(at) == end
  }

  // Reading succeeds with exactly the labels the bytes denote, using at most 16
  // pointers and 64 labels, and the name lies inside the buffer.
  lemma ReadNameExactly(buf: seq<byte>, start: nat, labels: seq<Text>, end: nat)
    ensures ReadName(buf, start) == Some((labels, end)) <==> exists n :: Denotes(buf, start, n, labels, end)
    ensures ReadName(buf, start) == Some((labels, end)) ==> start < end <= |buf|
  {
    if ReadName(buf, start) == Some((labels, end)) {
      var n := NameAtSound(buf, start, MAX_LABELS, MAX_POINTERS);
      assert Denotes(buf, start, n, labels, end);
      NameEndsAfterStart(buf, start, n);
    }
    forall n | Denotes(buf, start, n, labels, end)
      ensures ReadName(buf, start) == Some((labels, end))
    {
      NameAtComplete(buf, start, n, MAX_LABELS, MAX_POINTERS);
    }
  }

  // ---------- writing names ----------

  predicate Writable(labels: seq<Text>) {
    forall l :: l in labels ==> 1 <= |l| < 0x40
  }

  function Written(labels: seq<Text>): seq<byte>
    requires Writable(labels)
  {
    if labels == [] then [] else [|labels[0]|] + labels[0] + Written(labels[1..])
  }

  function PointerTo(target: nat): seq<byte>
    requires target < 0x4000
  {
    [0xc0 + target / 0x100, target % 0x100]
  }

  function Prepended(labels: seq<Text>, n: Name): Name {
    if labels == [] then n else Label(labels[0], Prepended(labels[1..], n))
  }

  lemma {:induction false} PrependedIs(labels: seq<Text>, n: Name, at: nat)
    requires Writable(labels)
    ensures Prepended(labels, n).Labels() == labels + n.Labels()
    ensures Prepended(labels, n).Pointers() == n.Pointers()
    ensures Prepended(labels, n).End(at) == n.End(at + |Written(labels)|)
  {
    if labels != [] {
      PrependedIs(labels[1..], n, at + 1 + |labels[0]|);
    }
  }

  // The bytes stand in the buffer at an offset.
  predicate Stands(buf: seq<byte>, at: nat, bytes: seq<byte>) {
    at + |bytes| <= |buf| && buf[at..at + |bytes|] == bytes
  }

  lemma StandsApart(buf: seq<byte>, at: nat, a: seq<byte>, b: seq<byte>)
    requires Stands(buf, at, a + b)
    ensures Stands(buf, at, a) && Stands(buf, at + |a|, b)
  {
    var whole := buf[at..at + |a + b|];
    assert whole[..|a|] == a && whole[|a|..] == b;
    assert buf[at..at + |a|] == whole[..|a|];
    assert buf[at + |a|..at + |a| + |b|] == whole[|a|..];
  }

  lemma LabelSpells(buf: seq<byte>, at: nat, text: Text, n: Name)
    requires 1 <= |text| < 0x40 && Stands(buf, at, [|text|] + text) && Spells(buf, at + 1 + |text|, n)
    ensures Spells(buf, at, Label(text, n))
  {
    StandsApart(buf, at, [|text|], text);
    assert buf[at..at + 1][0] == buf[at];
  }

  // Labels written in front of a spelling spell the longer name.
  lemma {:induction false} WrittenSpells(buf: seq<byte>, at: nat, labels: seq<Text>, n: Name)
    requires Writable(labels) && Stands(buf, at, Written(labels)) && Spells(buf, at + |Written(labels)|, n)
    ensures Spells(buf, at, Prepended(labels, n))
    decreases labels
  {
    if labels != [] {
      hide Spells, Stands;
      var text, rest := labels[0], labels[1..];
      StandsApart(buf, at, [|text|] + text, Written(rest));
      WrittenSpells(buf, at + 1 + |text|, rest, n);
      LabelSpells(buf, at, text, Prepended(rest, n));
    }
  }

  // A name written out in full is read back, wherever it stands.
  lemma ReadsBack(buf: seq<byte>, at: nat, labels: seq<Text>)
    requires Writable(labels) && |labels| <= MAX_LABELS
    requires Stands(buf, at, Written(labels) + [0])
    ensures ReadName(buf, at) == Some((labels, at + |Written(labels)| + 1))
  {
    var end := at + |Written(labels)|;
    StandsApart(buf, at, Written(labels), [0]);
    assert buf[end..end + 1][0] == buf[end];
    WrittenSpells(buf, at, labels, Root);
    PrependedIs(labels, Root, at);
    assert labels + [] == labels;
    NameAtComplete(buf, at, Prepended(labels, Root), MAX_LABELS, MAX_POINTERS);
  }

  // So is one that ends by pointing back at a name already spelled: compression
  // preserves meaning.
  lemma ReadsBackCompressed(buf: seq<byte>, at: nat, labels: seq<Text>, target: nat, n: Name)
    requires Writable(labels) && target < 0x4000 && target < at + |Written(labels)|
    requires Stands(buf, at, Written(labels) + PointerTo(target)) && Spells(buf, target, n)
    requires |labels| + |n.Labels()| <= MAX_LABELS && n.Pointers() < MAX_POINTERS
    ensures ReadName(buf, at) == Some((labels + n.Labels(), at + |Written(labels)| + 2))
  {
    var pointer, end := Pointer(target, n), at + |Written(labels)|;
    StandsApart(buf, at, Written(labels), PointerTo(target));
    assert buf[end..end + 2][0] == buf[end] && buf[end..end + 2][1] == buf[end + 1];
    WrittenSpells(buf, at, labels, pointer);
    PrependedIs(labels, pointer, at);
    NameAtComplete(buf, at, Prepended(labels, pointer), MAX_LABELS, MAX_POINTERS);
  }

  // ---------- records and messages ----------

  datatype Record = Record(
    name: seq<Text>,
    rtype: nat,
    rclass: nat,
    cacheFlush: bool,
    ttl: nat,
    rdataAt: nat,
    rdata: seq<byte>)

  datatype Message = Message(isResponse: bool, authoritative: bool, questions: seq<seq<Text>>, records: seq<Record>)

  function U16(buf: seq<byte>, at: nat): nat
    requires at + 2 <= |buf|
  {
    var hi: nat, lo: nat := buf[at], buf[at + 1];
    hi * 0x100 + lo
  }

  // One record and the offset just past it.  The top bit of the class is the
  // cache-flush bit.
  function ReadRecord(buf: seq<byte>, offset: nat): Option<(Record, nat)> {
    var name := ReadName(buf, offset);
    if name.None? || name.value.1 + 10 > |buf| then None
    else
      var at := name.value.1;
      var rclass := U16(buf, at + 2);
      var end := at + 10 + U16(buf, at + 8);
      if end > |buf| then None
      else
        Some((Record(name.value.0, U16(buf, at), rclass % 0x8000, rclass >= 0x8000,
                     U16(buf, at + 4) * 0x1_0000 + U16(buf, at + 6), at + 10, buf[at + 10..end]),
              end))
  }

  // Every question must be whole.
  function QuestionsAt(buf: seq<byte>, offset: nat, count: nat): Option<(seq<seq<Text>>, nat)>
    decreases count
  {
    if count == 0 then Some(([], offset))
    else
      var name := ReadName(buf, offset);
      if name.None? || name.value.1 + 4 > |buf| then None
      else
        var rest := QuestionsAt(buf, name.value.1 + 4, count - 1);
        if rest.None? then None else Some(([name.value.0] + rest.value.0, rest.value.1))
  }

  // As many records as are whole.
  function RecordsAt(buf: seq<byte>, offset: nat, count: nat): seq<Record>
    decreases count
  {
    if count == 0 then []
    else
      var r := ReadRecord(buf, offset);
      if r.None? then [] else [r.value.0] + RecordsAt(buf, r.value.1, count - 1)
  }

  function QuestionCount(buf: seq<byte>): nat
    requires HEADER <= |buf|
  {
    U16(buf, 4)
  }

  function RecordCount(buf: seq<byte>): nat
    requires HEADER <= |buf|
  {
    U16(buf, 6) + U16(buf, 8) + U16(buf, 10)
  }

  function Parsed(buf: seq<byte>): Option<Message> {
    if |buf| < HEADER then None
    else
      var flags := U16(buf, 2);
      var questions := QuestionsAt(buf, HEADER, QuestionCount(buf));
      if questions.None? then None
      else
        Some(Message(flags >= 0x8000, (flags / 0x400) % 2 == 1, questions.value.0,
                     RecordsAt(buf, questions.value.1, RecordCount(buf))))
  }

  // One record, its name walked.
  method TakeRecord(buf: seq<byte>, offset: nat) returns (r: Option<(Record, nat)>)
    ensures r == ReadRecord(buf, offset)
  {
    hide NameAt;
    var name := Walk(buf, offset);
    if name.None? {
      return None;
    }
    var at := name.value.1;
    if at + 10 > |buf| {
      return None;
    }
    var rclass := U16(buf, at + 2);
    var start, end := at + 10, at + 10 + U16(buf, at + 8);
    if end > |buf| {
      return None;
    }
    r := Some((Record(name.value.0, U16(buf, at), rclass % 0x8000, rclass >= 0x8000,
                      U16(buf, at + 4) * 0x1_0000 + U16(buf, at + 6), start, buf[start..end]),
               end));
  }

  method ParseMessage(buf: seq<byte>) returns (message: Option<Message>)
    ensures message == Parsed(buf)
  {
    hide ReadName, ReadRecord;
    if |buf| < HEADER {
      return None;
    }
    var flags := U16(buf, 2);
    var asked, total := U16(buf, 4), U16(buf, 6) + U16(buf, 8) + U16(buf, 10);
    var offset: nat := HEADER;
    NothingAsked(QuestionsAt(buf, HEADER, asked));
    var questions: seq<seq<Text>> := [];
    for i := 0 to asked
      invariant QuestionsAt(buf, HEADER, asked) == AndThen(questions, QuestionsAt(buf, offset, asked - i))
    {
      var name := Walk(buf, offset);
      if name.None? {
        return None;
      }
      var next := name.value.1 + 4;
      if next > |buf| {
        return None;
      }
      AndThenOne(questions, name.value.0, QuestionsAt(buf, next, asked - i - 1));
      offset := next;
      questions := questions + [name.value.0];
    }
    assert questions + [] == questions;
    ghost var start := offset;
    var records: seq<Record> := [];
    var left: nat := total;
    while left > 0
      invariant RecordsAt(buf, start, total) == records + RecordsAt(buf, offset, left)
    {
      var r := TakeRecord(buf, offset);
      if r.None? {
        break;
      }
      OneRecordMore(records, r.value.0, RecordsAt(buf, r.value.1, left - 1));
      records := records + [r.value.0];
      offset := r.value.1;
      left := left - 1;
    }
    assert records + [] == records;
    message := Some(Message(flags >= 0x8000, (flags / 0x400) % 2 == 1, questions, records));
  }

  function AndThen(questions: seq<seq<Text>>, rest: Option<(seq<seq<Text>>, nat)>): Option<(seq<seq<Text>>, nat)> {
    if rest.None? then None else Some((questions + rest.value.0, rest.value.1))
  }

  lemma NothingAsked(rest: Option<(seq<seq<Text>>, nat)>)
    ensures AndThen([], rest) == rest
  {
    if rest.Some? { assert [] + rest.value.0 == rest.value.0; }
  }

  lemma OneRecordMore(records: seq<Record>, r: Record, rest: seq<Record>)
    ensures records + ([r] + rest) == (records + [r]) + rest
  {}

  lemma AndThenOne(questions: seq<seq<Text>>, name: seq<Text>, rest: Option<(seq<seq<Text>>, nat)>)
    ensures AndThen(questions + [name], rest)
         == AndThen(questions, if rest.None? then None else Some(([name] + rest.value.0, rest.value.1)))
  {
    if rest.Some? {
      assert (questions + [name]) + rest.value.0 == questions + ([name] + rest.value.0);
    }
  }

  // ---------- how much a message can hold ----------

  lemma RecordLies(buf: seq<byte>, offset: nat)
    requires ReadRecord(buf, offset).Some?
    ensures var (r, end) := ReadRecord(buf, offset).value;
            && offset + 11 + |r.rdata| <= end == r.rdataAt + |r.rdata| <= |buf|
            && r.rdata == buf[r.rdataAt..end]
  {
    hide ReadName;
    var name := ReadName(buf, offset).value;
    ReadNameExactly(buf, offset, name.0, name.1);
  }

  lemma {:induction false} QuestionsLie(buf: seq<byte>, offset: nat, count: nat)
    requires offset <= |buf| && QuestionsAt(buf, offset, count).Some?
    ensures var (questions, next) := QuestionsAt(buf, offset, count).value;
            |questions| == count && offset + 5 * count <= next <= |buf|
    decreases count
  {
    hide ReadName;
    if count > 0 {
      var name := ReadName(buf, offset).value;
      ReadNameExactly(buf, offset, name.0, name.1);
      QuestionsLie(buf, name.1 + 4, count - 1);
    }
  }

  lemma {:induction false} RecordsLie(buf: seq<byte>, offset: nat, count: nat)
    requires offset <= |buf|
    ensures |RecordsAt(buf, offset, count)| <= count
    ensures offset + 11 * |RecordsAt(buf, offset, count)| <= |buf|
    decreases count
  {
    hide ReadRecord;
    if count > 0 && ReadRecord(buf, offset).Some? {
      RecordLies(buf, offset);
      RecordsLie(buf, ReadRecord(buf, offset).value.1, count - 1);
    }
  }

  // Whatever the header claims, a message holds only what its bytes have room
  // for.
  lemma MessageFits(buf: seq<byte>)
    requires Parsed(buf).Some?
    ensures var m := Parsed(buf).value;
            && |m.questions| == QuestionCount(buf)
            && |m.records| <= RecordCount(buf)
            && HEADER + 5 * |m.questions| + 11 * |m.records| <= |buf|
  {
    hide QuestionsAt, RecordsAt;
    QuestionsLie(buf, HEADER, QuestionCount(buf));
    RecordsLie(buf, QuestionsAt(buf, HEADER, QuestionCount(buf)).value.1, RecordCount(buf));
  }

  // ---------- truncation ----------

  // How a name that was read is spelled.
  ghost function Spelling(buf: seq<byte>, at: nat): (n: Name)
    requires ReadName(buf, at).Some?
    ensures Denotes(buf, at, n, ReadName(buf, at).value.0, ReadName(buf, at).value.1)
  {
    hide ReadName, Denotes;
    ReadNameExactly(buf, at, ReadName(buf, at).value.0, ReadName(buf, at).value.1);
    var n :| Denotes(buf, at, n, ReadName(buf, at).value.0, ReadName(buf, at).value.1);
    n
  }

  // Just past the last byte a name needs, followed pointers included.
  ghost function NameReach(buf: seq<byte>, at: nat): nat
    requires ReadName(buf, at).Some?
  {
    Spelling(buf, at).Extent(at)
  }

  // A name is read from a truncated buffer exactly when every byte it needs is
  // still there.
  lemma ReadNameInPrefix(buf: seq<byte>, k: nat, at: nat)
    requires k <= |buf|
    ensures ReadName(buf[..k], at)
         == if ReadName(buf, at).Some? && NameReach(buf, at) <= k then ReadName(buf, at) else None
  {
    hide NameAt, Spells;
    if ReadName(buf, at).Some? {
      var n := Spelling(buf, at);
      SpellsInPrefix(buf, k, at, n);
      if n.Extent(at) <= k {
        NameAtComplete(buf[..k], at, n, MAX_LABELS, MAX_POINTERS);
      }
    }
    if ReadName(buf[..k], at).Some? {
      var m := Spelling(buf[..k], at);
      SpellsInPrefix(buf, k, at, m);
      NameAtComplete(buf, at, m, MAX_LABELS, MAX_POINTERS);
      OneSpelling(buf, at, m, Spelling(buf, at));
    }
  }

  ghost function RecordReach(buf: seq<byte>, offset: nat): nat
    requires ReadRecord(buf, offset).Some?
  {
    Max(NameReach(buf, offset), ReadRecord(buf, offset).value.1)
  }

  lemma ReadRecordInPrefix(buf: seq<byte>, k: nat, offset: nat)
    requires k <= |buf|
    ensures ReadRecord(buf[..k], offset)
         == if ReadRecord(buf, offset).Some? && RecordReach(buf, offset) <= k then ReadRecord(buf, offset) else None
  {
    hide ReadName, NameReach;
    ReadNameInPrefix(buf, k, offset);
    if ReadName(buf, offset).Some? {
      var at := ReadName(buf, offset).value.1;
      if at + 10 <= k {
        U16InPrefix(buf, k, at);
        U16InPrefix(buf, k, at + 2);
        U16InPrefix(buf, k, at + 4);
        U16InPrefix(buf, k, at + 6);
        U16InPrefix(buf, k, at + 8);
        var end := at + 10 + U16(buf, at + 8);
        if end <= k {
          assert buf[..k][at + 10..end] == buf[at + 10..end];
        }
      }
    }
  }

  lemma U16InPrefix(buf: seq<byte>, k: nat, at: nat)
    requires at + 2 <= k <= |buf|
    ensures U16(buf[..k], at) == U16(buf, at)
  {}

  // How far the questions reach.
  ghost function QuestionsReach(buf: seq<byte>, offset: nat, count: nat): nat
    requires QuestionsAt(buf, offset, count).Some?
    decreases count
  {
    if count == 0 then 0
    else
      var next := ReadName(buf, offset).value.1 + 4;
      Max(Max(NameReach(buf, offset), next), QuestionsReach(buf, next, count - 1))
  }

  // The records before the first that reaches past a bound.
  ghost function RecordsWithin(buf: seq<byte>, offset: nat, count: nat, k: nat): seq<Record>
    decreases count
  {
    if count == 0 || ReadRecord(buf, offset).None? || RecordReach(buf, offset) > k then []
    else [ReadRecord(buf, offset).value.0] + RecordsWithin(buf, ReadRecord(buf, offset).value.1, count - 1, k)
  }

  lemma {:induction false} QuestionsInPrefix(buf: seq<byte>, k: nat, offset: nat, count: nat)
    requires k <= |buf|
    ensures QuestionsAt(buf[..k], offset, count)
         == if QuestionsAt(buf, offset, count).Some? && QuestionsReach(buf, offset, count) <= k
            then QuestionsAt(buf, offset, count) else None
    decreases count
  {
    hide ReadName, NameReach;
    if count > 0 {
      ReadNameInPrefix(buf, k, offset);
      if ReadName(buf, offset).Some? {
        QuestionsInPrefix(buf, k, ReadName(buf, offset).value.1 + 4, count - 1);
      }
    }
  }

  lemma {:induction false} RecordsInPrefix(buf: seq<byte>, k: nat, offset: nat, count: nat)
    requires k <= |buf|
    ensures RecordsAt(buf[..k], offset, count) == RecordsWithin(buf, offset, count, k)
    ensures RecordsWithin(buf, offset, count, k) <= RecordsAt(buf, offset, count)
    decreases count
  {
    hide ReadRecord, RecordReach;
    if count > 0 {
      ReadRecordInPrefix(buf, k, offset);
      if ReadRecord(buf, offset).Some? {
        RecordsInPrefix(buf, k, ReadRecord(buf, offset).value.1, count - 1);
      }
    }
  }

  // A truncated message parses exactly when its header and questions are whole.
  // It then has the flags and questions of the full one, and exactly the records
  // before the first that needs a byte that is missing.
  lemma Truncation(buf: seq<byte>, k: nat)
    requires k <= |buf|
    ensures Parsed(buf[..k]).Some? <==>
              HEADER <= k && Parsed(buf).Some? && QuestionsReach(buf, HEADER, QuestionCount(buf)) <= k
    ensures Parsed(buf[..k]).Some? ==>
              var cut, whole := Parsed(buf[..k]).value, Parsed(buf).value;
              && cut == whole.(records := cut.records)
              && cut.records == RecordsWithin(buf, QuestionsAt(buf, HEADER, QuestionCount(buf)).value.1, RecordCount(buf), k)
              && cut.records <= whole.records
  {
    hide QuestionsAt, RecordsAt, QuestionsReach, RecordsWithin;
    if HEADER <= k {
      U16InPrefix(buf, k, 2);
      U16InPrefix(buf, k, 4);
      U16InPrefix(buf, k, 6);
      U16InPrefix(buf, k, 8);
      U16InPrefix(buf, k, 10);
      QuestionsInPrefix(buf, k, HEADER, QuestionCount(buf));
      if QuestionsAt(buf, HEADER, QuestionCount(buf)).Some? {
        RecordsInPrefix(buf, k, QuestionsAt(buf, HEADER, QuestionCount(buf)).value.1, RecordCount(buf));
      }
    }
  }
}
