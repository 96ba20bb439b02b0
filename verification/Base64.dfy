/**
 The base64 decoder behind SSDP descriptions: a 32-bit register shifting six
 bits in and eight bits out, against section 4 of RFC 4648.

 Only ASCII can be decoded, so text is taken character by character; the check
 that the decoded bytes are text is not part of this model.
 */
module Base64 {
  import opened Options
  import opened Types

  type byte = b: nat | b < 0x100
  type sextet = v: nat | v < 64

  const REGISTER: nat := 0x1_0000_0000

  // ---------- digits ----------

  function Pow(base: nat, k: nat): nat {
    if k == 0 then 1 else base * Pow(base, k - 1)
  }

  // The number a sequence of digits writes, most significant first.
  function Value(base: nat, digits: seq<nat>): nat {
    if digits == [] then 0 else Value(base, digits[..|digits| - 1]) * base + digits[|digits| - 1]
  }

  lemma Distribute(a: nat, b: nat, c: nat)
    ensures (a + b) * c == a * c + b * c
  {}

  lemma Regroup(a: nat, b: nat, c: nat)
    ensures (a * b) * c == a * (b * c) == a * (c * b)
  {}

  lemma Monotone(a: nat, b: nat, c: nat)
    requires a <= b
    ensures a * c <= b * c
  {
    Distribute(a, b - a, c);
  }

  lemma ValueMore(base: nat, digits: seq<nat>, d: nat)
    ensures Value(base, digits + [d]) == Value(base, digits) * base + d
  {
    assert (digits + [d])[..|digits|] == digits;
  }

  lemma OneDigitMore(x: nat, v: nat, p: nat, w: nat, base: nat, last: nat)
    requires x == v * p + w
    ensures x * base + last == v * (base * p) + (w * base + last)
  {
    Distribute(v * p, w, base);
    Regroup(v, p, base);
  }

  lemma {:induction false} ValueApart(base: nat, a: seq<nat>, b: seq<nat>)
    ensures Value(base, a + b) == Value(base, a) * Pow(base, |b|) + Value(base, b)
  {
    if b == [] {
      assert a + b == a;
    } else {
      var most, last := b[..|b| - 1], b[|b| - 1];
      ValueApart(base, a, most);
      ValueMore(base, a + most, last);
      assert (a + most) + [last] == a + b;
      ValueMore(base, most, last);
      assert most + [last] == b;
      assert Pow(base, |b|) == base * Pow(base, |most|);
      hide Value, Pow;
      OneDigitMore(Value(base, a + most), Value(base, a), Pow(base, |most|), Value(base, most), base, last);
    }
  }

  // Digits of one length writing one number are the same digits.
  lemma {:induction false} ValueInjective(base: nat, a: seq<nat>, b: seq<nat>)
    requires base >= 1 && |a| == |b| && Value(base, a) == Value(base, b)
    requires forall i :: 0 <= i < |a| ==> a[i] < base && b[i] < base
    ensures a == b
  {
    if a != [] {
      var k := |a| - 1;
      LastDigit(base, Value(base, a[..k]), a[k], Value(base, b[..k]), b[k]);
      ValueInjective(base, a[..k], b[..k]);
      assert a == a[..k] + [a[k]] && b == b[..k] + [b[k]];
    }
  }

  lemma LastDigit(base: nat, p: nat, c: nat, q: nat, d: nat)
    requires c < base && d < base && p * base + c == q * base + d
    ensures p == q && c == d
  {
    if p < q {
      Gap(base, p, q);
    } else if q < p {
      Gap(base, q, p);
    }
  }

  lemma Gap(base: nat, p: nat, q: nat)
    requires p < q
    ensures q * base >= p * base + base
  {
    Monotone(p + 1, q, base);
    Distribute(p, 1, base);
  }

  // ---------- the alphabet ----------

  function Sextet(c: char): Option<sextet> {
    if 'A' <= c <= 'Z' then Some((c - 'A') as nat)
    else if 'a' <= c <= 'z' then Some((c - 'a') as nat + 26)
    else if '0' <= c <= '9' then Some((c - '0') as nat + 52)
    else if c == '+' then Some(62)
    else if c == '/' then Some(63)
    else None
  }

  function Letter(v: sextet): (c: char)
    ensures Sextet(c) == Some(v)
  {
    if v < 26 then 'A' + v as char
    else if v < 52 then 'a' + (v - 26) as char
    else if v < 62 then '0' + (v - 52) as char
    else if v == 62 then '+'
    else '/'
  }

  predicate InAlphabet(s: string) {
    forall c :: c in s ==> Sextet(c).Some?
  }

  function Sextets(s: string): (vs: seq<nat>)
    requires InAlphabet(s)
    ensures |vs| == |s| && forall i :: 0 <= i < |s| ==> Sextet(s[i]) == Some(vs[i])
  {
    seq(|s|, i requires 0 <= i < |s| => Sextet(s[i]).value)
  }

  function WithoutPadding(s: string): string {
    if s != "" && s[|s| - 1] == '=' then WithoutPadding(s[..|s| - 1]) else s
  }

  // ---------- decoding ----------

  // The bytes are the whole bytes of the bits written, read as one number; bits
  // left over are dropped.
  ghost predicate Carries(s: string, out: seq<byte>)
    requires InAlphabet(s)
  {
    var n, m := |s|, |out|;
    && m == 6 * n / 8
    && Value(0x100, out) == Value(64, Sextets(s)) / Pow(2, 6 * n - 8 * m)
  }

  // What decoding promises of a text.
  ghost predicate Decodes(input: string, r: Option<seq<byte>>) {
    var s := WithoutPadding(Trim(input));
    if s == "" || |s| % 4 == 1 || !InAlphabet(s) then r == None
    else r.Some? && Carries(s, r.value)
  }

  // The promise leaves one answer.
  lemma DecodesOneWay(input: string, r: Option<seq<byte>>, q: Option<seq<byte>>)
    requires Decodes(input, r) && Decodes(input, q)
    ensures r == q
  {
    if r.Some? {
      ValueInjective(0x100, r.value, q.value);
    }
  }

  function PowerOfTwo(bits: nat): (p: nat)
    requires bits < 8
    ensures p == Pow(2, bits) && p in {1, 2, 4, 8, 16, 32, 64, 128}
  {
    assert Pow(2, 0) == 1;
    assert Pow(2, 1) == 2;
    assert Pow(2, 2) == 4;
    assert Pow(2, 3) == 8;
    assert Pow(2, 4) == 16;
    assert Pow(2, 5) == 32;
    assert Pow(2, 6) == 64;
    assert Pow(2, 7) == 128;
    [1, 2, 4, 8, 16, 32, 64, 128][bits]
  }

  // Six more bits enter the register; the high ones fall off.
  lemma ShiftIn(v: nat, register: nat, d: sextet)
    requires register == v % REGISTER
    ensures (register * 64) % REGISTER + d == (v * 64 + d) % REGISTER
  {
    var q := v / REGISTER;
    assert v == q * REGISTER + register;
    var r := register * 64;
    var high, low := r / REGISTER, r % REGISTER;
    assert low % 64 == 0 && low + d < REGISTER;
    assert v * 64 + d == (q * 64 + high) * REGISTER + (low + d);
    Remainder(q * 64 + high, low + d);
  }

  lemma Remainder(q: nat, r: nat)
    requires r < REGISTER
    ensures (q * REGISTER + r) % REGISTER == r
  {}

  // The byte taken out is the same as if nothing had fallen off.
  lemma ShiftOut(v: nat, p: nat)
    requires p in {1, 2, 4, 8, 16, 32, 64, 128}
    ensures ((v % REGISTER) / p) % 0x100 == (v / p) % 0x100
  {
    var q, r := v / REGISTER, v % REGISTER;
    assert v == q * REGISTER + r;
    if p == 1 { Above(q, r, 1, 0x100_0000); }
    else if p == 2 { Above(q, r, 2, 0x80_0000); }
    else if p == 4 { Above(q, r, 4, 0x40_0000); }
    else if p == 8 { Above(q, r, 8, 0x20_0000); }
    else if p == 16 { Above(q, r, 16, 0x10_0000); }
    else if p == 32 { Above(q, r, 32, 0x8_0000); }
    else if p == 64 { Above(q, r, 64, 0x4_0000); }
    else { Above(q, r, 128, 0x2_0000); }
  }

  lemma Above(q: nat, r: nat, p: nat, m: nat)
    requires p >= 1 && m * 0x100 * p == REGISTER
    ensures ((q * REGISTER + r) / p) % 0x100 == (r / p) % 0x100
  {
    var whole := q * m * 0x100;
    assert q * REGISTER == whole * p;
    Divide(whole, r, p);
    assert ((q * m) * 0x100 + r / p) % 0x100 == (r / p) % 0x100;
  }

  lemma Divide(k: nat, r: nat, p: nat)
    requires p >= 1
    ensures (k * p + r) / p == k + r / p
  {
    assert k * p + r == (k + r / p) * p + r % p;
    Quotient(k + r / p, r % p, p);
  }

  lemma Quotient(q: nat, r: nat, p: nat)
    requires r < p
    ensures (q * p + r) / p == q
  {
    var d := (q * p + r) / p;
    var e := (q * p + r) % p;
    LastDigit(p, d, e, q, r);
  }

  lemma DropSextet(v: nat, d: sextet, p: nat)
    requires p >= 1
    ensures (v * 64 + d) / (64 * p) == v / p
  {
    var q, r := v / p, v % p;
    assert v == q * p + r;
    assert r * 64 + d < 64 * p;
    assert v * 64 + d == q * (64 * p) + (r * 64 + d);
    Quotient(q, r * 64 + d, 64 * p);
  }

  lemma NextByte(w: nat, p: nat)
    requires p >= 1
    ensures w / (0x100 * p) * 0x100 + (w / p) % 0x100 == w / p
  {
    var q, r := w / p, w % p;
    var h, l := q / 0x100, q % 0x100;
    Parts(w, q, h, l, 0x100, p, r);
    Fits(l, 0x100, p, r);
    Quotient(h, l * p + r, 0x100 * p);
  }

  lemma Parts(w: nat, q: nat, h: nat, l: nat, k: nat, p: nat, r: nat)
    requires w == q * p + r && q == h * k + l
    ensures w == h * (k * p) + (l * p + r)
  {
    Distribute(h * k, l, p);
    Regroup(h, k, p);
  }

  lemma Fits(l: nat, k: nat, p: nat, r: nat)
    requires l < k && r < p
    ensures l * p + r < k * p
  {
    Gap(p, l, k);
  }

  method Base64Bytes(input: string) returns (r: Option<seq<byte>>)
    ensures Decodes(input, r)
  {
    hide Value, Pow, Trim, WithoutPadding, Sextet;
    var s := WithoutPadding(Trim(input));
    if s == "" || |s| % 4 == 1 {
      return None;
    }
    var out: seq<byte> := [];
    var register: nat, bits: nat := 0, 0;
    ghost var read: seq<nat> := [];
    Start();
    for i := 0 to |s|
      invariant |read| == i && forall j :: 0 <= j < i ==> Sextet(s[j]) == Some(read[j])
      invariant bits < 8 && bits == 6 * i - 8 * |out|
      invariant register == Value(64, read) % REGISTER
      invariant Value(0x100, out) == Value(64, read) / PowerOfTwo(bits)
    {
      var digit := Sextet(s[i]);
      if digit.None? {
        assert s[i] in s;
        return None;
      }
      var v := digit.value;
      ghost var before, p := Value(64, read), PowerOfTwo(bits);
      ShiftIn(before, register, v);
      ValueMore(64, read, v);
      DropSextet(before, v, p);
      read := read + [v];
      register := (register * 64) % REGISTER + v;
      bits := bits + 6;
      if bits >= 8 {
        bits := bits - 8;
        var octet := (register / PowerOfTwo(bits)) % 0x100;
        ShiftOut(Value(64, read), PowerOfTwo(bits));
        assert 64 * p == 0x100 * PowerOfTwo(bits);
        NextByte(Value(64, read), PowerOfTwo(bits));
        ValueMore(0x100, out, octet);
        out := out + [octet];
      } else {
        assert 64 * p == PowerOfTwo(bits);
      }
    }
    assert InAlphabet(s) && Sextets(s) == read;
    r := Some(out);
  }

  lemma Start()
    ensures Value(64, []) == 0 && Value(0x100, []) == 0
  {}

  // ---------- encoding, and the round trip ----------

  // Three bytes at a time as four letters; one or two bytes left over as two or
  // three.
  function Groups(bytes: seq<byte>): seq<sextet> {
    if bytes == [] then []
    else if |bytes| == 1 then [bytes[0] / 4, bytes[0] % 4 * 16]
    else if |bytes| == 2 then [bytes[0] / 4, bytes[0] % 4 * 16 + bytes[1] / 16, bytes[1] % 16 * 4]
    else
      [bytes[0] / 4, bytes[0] % 4 * 16 + bytes[1] / 16, bytes[1] % 16 * 4 + bytes[2] / 64, bytes[2] % 64]
      + Groups(bytes[3..])
  }

  function Padding(n: nat): string {
    if n % 3 == 1 then "==" else if n % 3 == 2 then "=" else ""
  }

  function Letters(vs: seq<sextet>): string {
    seq(|vs|, i requires 0 <= i < |vs| => Letter(vs[i]))
  }

  function Encoded(bytes: seq<byte>, padded: bool): string {
    Letters(Groups(bytes)) + if padded then Padding(|bytes|) else ""
  }

  // What the letters hold beyond the bytes: the bits that fill the last one.
  function Slack(n: nat): nat {
    if n % 3 == 0 then 1 else if n % 3 == 1 then 16 else 4
  }

  lemma {:induction false} GroupsSize(bytes: seq<byte>)
    ensures 6 * |Groups(bytes)| == 8 * |bytes| + (if |bytes| % 3 == 0 then 0 else if |bytes| % 3 == 1 then 4 else 2)
    ensures Pow(64, |Groups(bytes)|) == Pow(0x100, |bytes|) * Slack(|bytes|)
  {
    if |bytes| < 3 {
      SmallPowers();
    } else {
      var rest := bytes[3..];
      GroupsSize(rest);
      FourMore(|Groups(rest)|);
      ThreeMore(|rest|);
    }
  }

  lemma SmallPowers()
    ensures Pow(64, 0) == 1 && Pow(64, 2) == 0x1000 && Pow(64, 3) == 0x4_0000
    ensures Pow(0x100, 0) == 1 && Pow(0x100, 1) == 0x100 && Pow(0x100, 2) == 0x1_0000
  {
    assert Pow(64, 1) == 64;
  }

  lemma FourMore(k: nat)
    ensures Pow(64, k + 4) == 0x100_0000 * Pow(64, k)
  {
    assert Pow(64, k + 2) == 0x1000 * Pow(64, k);
  }

  lemma ThreeMore(k: nat)
    ensures Pow(0x100, k + 3) == 0x100_0000 * Pow(0x100, k)
  {
    assert Pow(0x100, k + 2) == 0x1_0000 * Pow(0x100, k);
  }

  lemma Digits4(a: nat, b: nat, c: nat, d: nat)
    ensures Value(64, [a, b, c, d]) == ((a * 64 + b) * 64 + c) * 64 + d
  {
    Digits3(64, a, b, c);
    ValueMore(64, [a, b, c], d);
    assert [a, b, c, d] == [a, b, c] + [d];
  }

  lemma Digits3(base: nat, a: nat, b: nat, c: nat)
    ensures Value(base, [a, b, c]) == (a * base + b) * base + c
  {
    Digits2(base, a, b);
    ValueMore(base, [a, b], c);
    assert [a, b, c] == [a, b] + [c];
  }

  lemma Digits2(base: nat, a: nat, b: nat)
    ensures Value(base, [a, b]) == a * base + b
    ensures Value(base, [a]) == a
  {
    Start();
    ValueMore(base, [], a);
    assert [] + [a] == [a];
    ValueMore(base, [a], b);
    assert [a, b] == [a] + [b];
  }

  // The letters write the bytes' number, with the slack below it.
  lemma {:induction false} GroupsValue(bytes: seq<byte>)
    ensures Value(64, Groups(bytes)) == Value(0x100, bytes) * Slack(|bytes|)
    decreases |bytes|, 1
  {
    hide Pow;
    if bytes == [] {
      Start();
    } else if |bytes| == 1 {
      Digits2(64, bytes[0] / 4, bytes[0] % 4 * 16);
      Digits2(0x100, bytes[0], 0);
      assert bytes == [bytes[0]];
    } else if |bytes| == 2 {
      Digits3(64, bytes[0] / 4, bytes[0] % 4 * 16 + bytes[1] / 16, bytes[1] % 16 * 4);
      Digits2(0x100, bytes[0], bytes[1]);
      assert bytes == [bytes[0], bytes[1]];
    } else {
      GroupsValueOn(bytes);
    }
  }

  lemma GroupsOn(bytes: seq<byte>)
    requires |bytes| >= 3
    ensures Groups(bytes) == GroupOf(bytes[0], bytes[1], bytes[2]) + Groups(bytes[3..])
  {}

  lemma SlackOn(n: nat)
    requires n >= 3
    ensures Slack(n) == Slack(n - 3)
  {}

  lemma GroupsValueOn(bytes: seq<byte>)
    requires |bytes| >= 3
    ensures Value(64, Groups(bytes)) == Value(0x100, bytes) * Slack(|bytes|)
    decreases |bytes|, 0
  {
    hide Value, Pow, Groups, Slack, GroupOf;
    var front: seq<nat>, rest := bytes[..3], bytes[3..];
    var group := GroupOf(bytes[0], bytes[1], bytes[2]);
    assert front == [bytes[0], bytes[1], bytes[2]] && front + rest == bytes;
    GroupsOn(bytes);
    SlackOn(|bytes|);
    GroupsValue(rest);
    GroupsSize(rest);
    GroupNumber(bytes[0], bytes[1], bytes[2]);
    ValueApart(64, group, Groups(rest));
    ValueApart(0x100, front, rest);
    Rearrange(Value(0x100, bytes), Value(64, group), Value(0x100, front), Pow(0x100, |rest|), Value(0x100, rest), Slack(|rest|),
              Pow(64, |Groups(rest)|), Value(64, Groups(rest)));
  }

  lemma Rearrange(total: nat, g: nat, v: nat, p: nat, w: nat, s: nat, q: nat, r: nat)
    requires g == v && q == p * s && r == w * s && total == v * p + w
    ensures g * q + r == total * s
  {
    Distribute(v * p, w, s);
    Regroup(v, p, s);
  }

  function GroupOf(a: byte, b: byte, c: byte): seq<nat> {
    [a / 4, a % 4 * 16 + b / 16, b % 16 * 4 + c / 64, c % 64]
  }

  lemma GroupNumber(a: byte, b: byte, c: byte)
    ensures Value(64, GroupOf(a, b, c)) == Value(0x100, [a, b, c])
  {
    Digits4(a / 4, a % 4 * 16 + b / 16, b % 16 * 4 + c / 64, c % 64);
    Digits3(0x100, a, b, c);
  }

  lemma LettersDecode(vs: seq<sextet>)
    ensures InAlphabet(Letters(vs)) && Sextets(Letters(vs)) == vs
  {}

  lemma AlphabetIsPlain(c: char)
    requires Sextet(c).Some?
    ensures !IsSpace(c) && c != '='
  {}

  lemma {:induction false} PaddingGoes(s: string, padding: string)
    requires s != "" && InAlphabet(s) && padding in {"", "=", "=="}
    ensures WithoutPadding(Trim(s + padding)) == s
  {
    hide IsSpace, Sextet;
    var whole := s + padding;
    assert s[0] in s && s[|s| - 1] in s;
    AlphabetIsPlain(s[0]);
    AlphabetIsPlain(s[|s| - 1]);
    assert whole[0] == s[0];
    assert TrimStart(whole) == whole;
    EqualsIsPlain();
    assert TrimEnd(whole) == whole;
    assert WithoutPadding(s) == s && s + "" == s;
    assert (s + "=")[..|s|] == s;
    assert WithoutPadding(s + "=") == s;
    assert (s + "==")[..|s| + 1] == s + "=";
    assert WithoutPadding(s + "==") == s;
  }

  lemma EqualsIsPlain()
    ensures !IsSpace('=')
  {}

  // Decoding the encoding of any bytes, padded or not, gives the bytes back.
  lemma RoundTrip(bytes: seq<byte>, padded: bool, r: Option<seq<byte>>)
    requires bytes != [] && Decodes(Encoded(bytes, padded), r)
    ensures r == Some(bytes)
  {
    hide Value, Pow, Groups, Letters, Trim, WithoutPadding;
    var vs := Groups(bytes);
    var s := Letters(vs);
    GroupsSize(bytes);
    GroupsValue(bytes);
    LettersDecode(vs);
    PaddingGoes(s, if padded then Padding(|bytes|) else "");
    var bits := 6 * |s| - 8 * |bytes|;
    assert PowerOfTwo(bits) == Slack(|bytes|);
    Quotient(Value(0x100, bytes), 0, Slack(|bytes|));
    ValueInjective(0x100, r.value, bytes);
  }
}
