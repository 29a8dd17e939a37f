/** UTF-8 (RFC 3629): encoding, and decoding that puts U+FFFD for each malformed part. */
module Utf8 {

  type Byte = b: int | 0 <= b < 256

  const REPLACEMENT: char := '\U{fffd}'

  function EncodeChar(c: char): (b: seq<Byte>)
    ensures 1 <= |b| <= 4
  {
    var n := c as int;
    if n < 0x80 then [n]
    else if n < 0x800 then [0xC0 + n / 64, 0x80 + n % 64]
    else if n < 0x10000 then [0xE0 + n / 64 / 64, 0x80 + n / 64 % 64, 0x80 + n % 64]
    else [0xF0 + n / 64 / 64 / 64, 0x80 + n / 64 / 64 % 64, 0x80 + n / 64 % 64, 0x80 + n % 64]
  }

  function Encode(s: string): seq<Byte> {
    if s == [] then [] else EncodeChar(s[0]) + Encode(s[1..])
  }

  predicate IsTail(b: seq<Byte>, i: nat) {
    i < |b| && 0x80 <= b[i] < 0xC0
  }

  /** Whether the second byte can follow the lead byte: no overlong form, no surrogate, nothing past U+10FFFF. */
  predicate SecondFits(b: seq<Byte>)
    requires b != []
  {
    && IsTail(b, 1)
    && (b[0] == 0xE0 ==> b[1] >= 0xA0) && (b[0] == 0xED ==> b[1] < 0xA0)
    && (b[0] == 0xF0 ==> b[1] >= 0x90) && (b[0] == 0xF4 ==> b[1] < 0x90)
  }

  /** The six payload bits of a continuation byte. */
  function Tail(b: seq<Byte>, i: nat): (n: nat)
    requires IsTail(b, i)
    ensures n < 64
  {
    b[i] as int - 0x80
  }

  /** The first character of `b` and how many bytes it takes; a malformed part is replaced as a whole. */
  function DecodeChar(b: seq<Byte>): (r: (char, nat))
    requires b != []
    ensures 1 <= r.1 <= |b|
  {
    if b[0] < 0x80 then (b[0] as char, 1)
    else if 0xC2 <= b[0] < 0xE0 && SecondFits(b) then (((b[0] as int - 0xC0) * 64 + Tail(b, 1)) as char, 2)
    else if 0xE0 <= b[0] < 0xF0 && SecondFits(b) then
      if IsTail(b, 2) then ((((b[0] as int - 0xE0) * 64 + Tail(b, 1)) * 64 + Tail(b, 2)) as char, 3)
      else (REPLACEMENT, 2)
    else if 0xF0 <= b[0] < 0xF5 && SecondFits(b) then
      if !IsTail(b, 2) then (REPLACEMENT, 2)
      else if !IsTail(b, 3) then (REPLACEMENT, 3)
      else (((((b[0] as int - 0xF0) * 64 + Tail(b, 1)) * 64 + Tail(b, 2)) * 64 + Tail(b, 3)) as char, 4)
    else (REPLACEMENT, 1)
  }

  function Decode(b: seq<Byte>): string
    decreases |b|
  {
    if b == [] then []
    else
      var (c, n) := DecodeChar(b);
      [c] + Decode(b[n..])
  }

  lemma Digits(n: nat)
    ensures n == n / 64 * 64 + n % 64 && n / 64 == n / 64 / 64 * 64 + n / 64 % 64
    ensures n / 64 / 64 == n / 64 / 64 / 64 * 64 + n / 64 / 64 % 64
  {
  }

  /** One encoded character decodes to itself, whatever follows it. */
  lemma DecodeCharEncodeChar(c: char, rest: seq<Byte>)
    ensures DecodeChar(EncodeChar(c) + rest) == (c, |EncodeChar(c)|)
  {
    var n := c as int;
    var e := EncodeChar(c);
    var b := e + rest;
    assert forall i :: 0 <= i < |e| ==> b[i] == e[i];
    Digits(n);
    if n < 0x80 {
    } else if n < 0x800 {
      assert 2 <= n / 64 < 32;
    } else if n < 0x10000 {
      assert 0 <= n / 64 / 64 < 16;
    } else {
      assert 0 <= n / 64 / 64 / 64 < 5;
    }
  }

  lemma DecodeFirst(c: char, rest: seq<Byte>)
    ensures Decode(EncodeChar(c) + rest) == [c] + Decode(rest)
  {
    DecodeCharEncodeChar(c, rest);
    assert (EncodeChar(c) + rest)[|EncodeChar(c)|..] == rest;
  }

  /** Decoding undoes encoding up to any character boundary. */
  lemma {:induction false} DecodeEncode(s: string, rest: seq<Byte>)
    ensures Decode(Encode(s) + rest) == s + Decode(rest)
  {
    if s == [] {
      assert Encode(s) + rest == rest;
    } else {
      assert Encode(s) + rest == EncodeChar(s[0]) + (Encode(s[1..]) + rest);
      DecodeFirst(s[0], Encode(s[1..]) + rest);
      DecodeEncode(s[1..], rest);
      assert s + Decode(rest) == [s[0]] + (s[1..] + Decode(rest));
    }
  }

  /** How many bytes a character takes, and that ASCII, and only ASCII, is its own byte. */
  lemma EncodedShape(c: char)
    ensures |EncodeChar(c)| == if c < '\U{80}' then 1 else if c < '\U{800}' then 2 else if c < '\U{10000}' then 3 else 4
    ensures c < '\U{80}' ==> EncodeChar(c) == [c as int]
    ensures c >= '\U{80}' ==> EncodeChar(c)[0] >= 0xC2
    ensures forall i :: 0 < i < |EncodeChar(c)| ==> IsTail(EncodeChar(c), i)
  {
  }

  /** `n` replacement characters. */
  function Replaced(n: nat): (r: string)
    ensures |r| == n && forall i :: 0 <= i < n ==> r[i] == '\U{fffd}'
  {
    seq(n, _ => '\U{fffd}')
  }

  /** Continuation bytes without a lead byte are replaced one by one. */
  lemma {:induction false} DecodeTails(tails: seq<Byte>, rest: seq<Byte>)
    requires forall i :: 0 <= i < |tails| ==> 0x80 <= tails[i] < 0xC0
    ensures Decode(tails + rest) == Replaced(|tails|) + Decode(rest)
  {
    if tails == [] {
      assert tails + rest == rest && Replaced(0) + Decode(rest) == Decode(rest);
    } else {
      DecodeTails(tails[1..], rest);
      DecodeLoneTail(tails, rest);
      OneMore(|tails| - 1, Decode(rest));
    }
  }

  lemma DecodeLoneTail(tails: seq<Byte>, rest: seq<Byte>)
    requires tails != [] && 0x80 <= tails[0] < 0xC0
    ensures Decode(tails + rest) == ['\U{fffd}'] + Decode(tails[1..] + rest)
  {
    assert (tails + rest)[1..] == tails[1..] + rest;
  }

  lemma OneMore(n: nat, rest: string)
    ensures ['\U{fffd}'] + (Replaced(n) + rest) == Replaced(n + 1) + rest
  {
    assert ['\U{fffd}'] + Replaced(n) == Replaced(n + 1);
    assert (['\U{fffd}'] + Replaced(n)) + rest == ['\U{fffd}'] + (Replaced(n) + rest);
  }

  /** Text read from the middle of a character shows U+FFFD for each byte left of it, then the rest. */
  lemma DecodeFromTheMiddle(c: char, k: nat, s: string)
    requires 0 < k <= |EncodeChar(c)|
    ensures Decode(EncodeChar(c)[k..] + Encode(s)) == Replaced(|EncodeChar(c)| - k) + s
  {
    EncodedShape(c);
    DecodeTails(EncodeChar(c)[k..], Encode(s));
    DecodeEncode(s, []);
    assert Encode(s) + [] == Encode(s) && s + Decode([]) == s;
  }

  /** Text that ends in the middle of a character ends in one U+FFFD. */
  lemma DecodeCutOff(s: string, c: char, k: nat)
    requires 0 < k < |EncodeChar(c)|
    ensures Decode(Encode(s) + EncodeChar(c)[..k]) == s + ['\U{fffd}']
  {
    var b := EncodeChar(c)[..k];
    DecodeEncode(s, b);
    DecodePart(c, k);
    assert b[k..] == [] && Decode([]) == [];
  }

  /** The first k bytes of a longer character are one malformed part. */
  lemma DecodePart(c: char, k: nat)
    requires 0 < k < |EncodeChar(c)|
    ensures DecodeChar(EncodeChar(c)[..k]) == ('\U{fffd}', k)
  {
    var b := EncodeChar(c)[..k];
    EncodedShape(c);
    Digits(c as int);
    assert forall i :: 0 <= i < k ==> b[i] == EncodeChar(c)[i];
  }

  lemma {:induction false} EncodeAppends(s: string, t: string)
    ensures Encode(s + t) == Encode(s) + Encode(t)
  {
    if s == [] {
      assert s + t == t;
    } else {
      assert (s + t)[1..] == s[1..] + t;
      EncodeAppends(s[1..], t);
    }
  }
}
