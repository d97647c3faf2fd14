/** The UTF-8 encoding of text (RFC 3629, section 3), as `Buffer.from(text, "utf8")` produces it. */
module Utf8 {

  type Byte = n: nat | n < 256
  type Bytes = seq<Byte>

  /** The low groups of six bits of a code point, each in a continuation byte. */
  function Continuation(n: nat, count: nat): (bytes: Bytes)
    ensures |bytes| == count
  {
    if count == 0 then [] else Continuation(n / 0x40, count - 1) + [0x80 + n % 0x40]
  }

  /** Dafny characters are Unicode scalar values, so a lone surrogate cannot occur. */
  function EncodeChar(c: char): (bytes: Bytes)
    ensures bytes != []
  {
    var n := c as int;
    if n < 0x80 then [n]
    else if n < 0x800 then [0xC0 + n / 0x40] + Continuation(n, 1)
    else if n < 0x1_0000 then [0xE0 + n / 0x1000] + Continuation(n, 2)
    else [0xF0 + n / 0x4_0000] + Continuation(n, 3)
  }

  function Encode(text: string): Bytes {
    if text == "" then [] else EncodeChar(text[0]) + Encode(text[1..])
  }

  predicate IsContinuation(b: Byte) { 0x80 <= b < 0xC0 }

  /** The six bits in a continuation byte. */
  function Low(b: Byte): int { b as int - 0x80 }

  /** The byte sequences of RFC 3629, section 3, with the code point each of them holds. */
  predicate Holds(bytes: Bytes, n: nat) {
    if n < 0x80 then |bytes| == 1 && bytes[0] == n
    else if n < 0x800 then
      && |bytes| == 2 && 0xC0 <= bytes[0] < 0xE0 && IsContinuation(bytes[1])
      && n == (bytes[0] as int - 0xC0) * 0x40 + Low(bytes[1])
    else if n < 0x1_0000 then
      && |bytes| == 3 && 0xE0 <= bytes[0] < 0xF0 && IsContinuation(bytes[1]) && IsContinuation(bytes[2])
      && n == (bytes[0] as int - 0xE0) * 0x1000 + Low(bytes[1]) * 0x40 + Low(bytes[2])
    else
      && |bytes| == 4 && 0xF0 <= bytes[0] < 0xF8
      && IsContinuation(bytes[1]) && IsContinuation(bytes[2]) && IsContinuation(bytes[3])
      && n == (bytes[0] as int - 0xF0) * 0x4_0000 + Low(bytes[1]) * 0x1000 + Low(bytes[2]) * 0x40 + Low(bytes[3])
  }

  lemma {:induction false} ContinuationBytes(n: nat)
    ensures Continuation(n, 1) == [0x80 + n % 0x40]
    ensures Continuation(n, 2) == [0x80 + n / 0x40 % 0x40, 0x80 + n % 0x40]
    ensures Continuation(n, 3) == [0x80 + n / 0x40 / 0x40 % 0x40, 0x80 + n / 0x40 % 0x40, 0x80 + n % 0x40]
  {
    assert Continuation(n / 0x40, 0) == [] && Continuation(n / 0x40 / 0x40, 0) == [];
    assert Continuation(n / 0x40 / 0x40, 1) == [0x80 + n / 0x40 / 0x40 % 0x40];
    assert Continuation(n / 0x40, 1) == [0x80 + n / 0x40 % 0x40];
    assert Continuation(n / 0x40, 2) == [0x80 + n / 0x40 / 0x40 % 0x40, 0x80 + n / 0x40 % 0x40];
  }

  /** Every character is encoded as the standard says. */
  lemma {:induction false} EncodingIsStandard(c: char)
    ensures Holds(EncodeChar(c), c as int)
  {
    var n := c as int;
    ContinuationBytes(n);
    assert n / 0x40 / 0x40 == n / 0x1000 && n / 0x40 / 0x40 / 0x40 == n / 0x4_0000;
    assert n < 0x800 ==> n / 0x40 < 0x20;
    assert n < 0x1_0000 ==> n / 0x1000 < 0x10;
    assert n < 0x11_0000;
  }

  /** The number of bytes the first byte of a character announces. */
  function Announced(first: Byte): nat {
    if first < 0x80 then 1 else if first < 0xE0 then 2 else if first < 0xF0 then 3 else 4
  }

  lemma FirstByteAnnounces(c: char)
    ensures |EncodeChar(c)| == Announced(EncodeChar(c)[0])
  {
    var n := c as int;
    assert n < 0x800 ==> n / 0x40 < 0x20;
    assert n < 0x1_0000 ==> n / 0x1000 < 0x10;
  }

  /** The first byte and the continuation bytes together hold the whole code point. */
  lemma {:induction false} ContinuationKeeps(m: nat, n: nat, count: nat)
    requires Continuation(m, count) == Continuation(n, count) && High(m, count) == High(n, count)
    ensures m == n
    decreases count
  {
    if count > 0 {
      var a, b := Continuation(m, count), Continuation(n, count);
      assert a[count - 1] == 0x80 + m % 0x40 && b[count - 1] == 0x80 + n % 0x40;
      assert a[..count - 1] == Continuation(m / 0x40, count - 1) && b[..count - 1] == Continuation(n / 0x40, count - 1);
      ContinuationKeeps(m / 0x40, n / 0x40, count - 1);
    }
  }

  /** What is left of a code point above its continuation bytes. */
  function High(n: nat, count: nat): nat { if count == 0 then n else High(n / 0x40, count - 1) }

  lemma Highs(n: nat)
    ensures High(n, 1) == n / 0x40 && High(n, 2) == n / 0x1000 && High(n, 3) == n / 0x4_0000
  {
    assert High(n / 0x40, 1) == n / 0x40 / 0x40;
    assert High(n / 0x40 / 0x40, 1) == n / 0x40 / 0x40 / 0x40;
  }

  lemma EncodeCharInjective(a: char, b: char)
    requires EncodeChar(a) == EncodeChar(b)
    ensures a == b
  {
    var m, n := a as int, b as int;
    FirstByteAnnounces(a);
    FirstByteAnnounces(b);
    assert EncodeChar(a)[0] == EncodeChar(b)[0];
    var count := |EncodeChar(a)| - 1;
    if count > 0 {
      assert EncodeChar(a)[1..] == Continuation(m, count) && EncodeChar(b)[1..] == Continuation(n, count);
      Highs(m);
      Highs(n);
      ContinuationKeeps(m, n, count);
    }
  }

  /** The encoding is prefix-free: different characters part before either encoding ends. */
  lemma HeadsAgree(a: char, x: Bytes, b: char, y: Bytes)
    requires EncodeChar(a) + x == EncodeChar(b) + y
    ensures a == b && x == y
  {
    var ea, eb := EncodeChar(a), EncodeChar(b);
    assert (ea + x)[0] == ea[0] && (eb + y)[0] == eb[0];
    FirstByteAnnounces(a);
    FirstByteAnnounces(b);
    assert |ea| == |eb|;
    assert ea == (ea + x)[..|ea|] && eb == (eb + y)[..|eb|];
    assert x == (ea + x)[|ea|..] && y == (eb + y)[|eb|..];
    EncodeCharInjective(a, b);
  }

  /** No two texts share an encoding. */
  lemma {:induction false} EncodeInjective(s: string, t: string)
    requires Encode(s) == Encode(t)
    ensures s == t
  {
    if s != "" && t != "" {
      HeadsAgree(s[0], Encode(s[1..]), t[0], Encode(t[1..]));
      EncodeInjective(s[1..], t[1..]);
      assert s == [s[0]] + s[1..] && t == [t[0]] + t[1..];
    }
  }
}
