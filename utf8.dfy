/**
 * UTF-8, the byte form `str::as_bytes` exposes: each Unicode scalar value is written as
 * one to four bytes, the lead byte announcing the length (RFC 3629, section 3).
 */
module Utf8 {
  import opened Base

  /** The bytes of one scalar value. */
  function EncodeChar(c: char): (b: seq<byte>)
    ensures 1 <= |b| <= 4
    ensures |b| == LeadLength(b[0])
    ensures forall k :: 1 <= k < |b| ==> 0x80 <= b[k] < 0xC0
  {
    var v := c as int;
    if v < 0x80 then [v as byte]
    else if v < 0x800 then [(0xC0 + v / 64) as byte, (0x80 + v % 64) as byte]
    else if v < 0x1_0000 then
      [(0xE0 + v / 4096) as byte, (0x80 + v / 64 % 64) as byte, (0x80 + v % 64) as byte]
    else
      [(0xF0 + v / 262144) as byte, (0x80 + v / 4096 % 64) as byte, (0x80 + v / 64 % 64) as byte,
       (0x80 + v % 64) as byte]
  }

  /** The length a lead byte announces; 0 for a byte that cannot lead. */
  function LeadLength(b: byte): (n: nat)
    ensures n <= 4
  {
    if b < 0x80 then 1
    else if b < 0xC0 then 0
    else if b < 0xE0 then 2
    else if b < 0xF0 then 3
    else if b < 0xF8 then 4
    else 0
  }

  /** The scalar value that `n` bytes starting with lead byte `b[0]` spell, unchecked. */
  function CodePoint(b: seq<byte>, n: nat): int
    requires 1 <= n <= 4 && n <= |b|
  {
    if n == 1 then b[0] as int
    else if n == 2 then (b[0] as int - 0xC0) * 64 + (b[1] as int - 0x80)
    else if n == 3 then (b[0] as int - 0xE0) * 4096 + (b[1] as int - 0x80) * 64 + (b[2] as int - 0x80)
    else (b[0] as int - 0xF0) * 262144 + (b[1] as int - 0x80) * 4096 + (b[2] as int - 0x80) * 64 + (b[3] as int - 0x80)
  }

  predicate IsScalar(v: int) {
    0 <= v < 0xD800 || 0xE000 <= v < 0x11_0000
  }

  /** The bytes of a whole string, character after character. */
  function Encode(s: string): (b: seq<byte>)
    ensures |b| >= |s|
    ensures s == [] <==> b == []
  {
    if s == [] then [] else EncodeChar(s[0]) + Encode(s[1..])
  }

  /** Reading a byte string back as characters; `None` when it is not what `Encode` writes. */
  function Decode(b: seq<byte>): (r: Option<string>)
    decreases |b|
  {
    if b == [] then Some([])
    else
      var n := LeadLength(b[0]);
      if n == 0 || n > |b| then None
      else
        var v := CodePoint(b, n);
        if !IsScalar(v) then None
        else
          match Decode(b[n..])
          case None => None
          case Some(rest) => Some([v as char] + rest)
  }

  /** The continuation bytes of `EncodeChar` spell back the scalar value. */
  lemma CodePointOfEncodeChar(c: char, rest: seq<byte>)
    ensures var e := EncodeChar(c); CodePoint(e + rest, |e|) == c as int
  {
    var v := c as int;
    var e := EncodeChar(c);
    CodePointPrefix(e, rest, |e|);
    if v >= 0x1_0000 {
      Digits4(v);
    } else if v >= 0x800 {
      Digits3(v);
    } else if v >= 0x80 {
      Digits2(v);
    }
  }

  /** Only the first `n` bytes matter to `CodePoint`. */
  lemma CodePointPrefix(b: seq<byte>, rest: seq<byte>, n: nat)
    requires 1 <= n <= 4 && n <= |b|
    ensures CodePoint(b + rest, n) == CodePoint(b, n)
  {
    assert forall k :: 0 <= k < n ==> (b + rest)[k] == b[k];
  }

  lemma Digits2(v: int)
    requires 0x80 <= v < 0x800
    ensures CodePoint([(0xC0 + v / 64) as byte, (0x80 + v % 64) as byte], 2) == v
  {
  }

  lemma Digits3(v: int)
    requires 0x800 <= v < 0x1_0000
    ensures CodePoint([(0xE0 + v / 4096) as byte, (0x80 + v / 64 % 64) as byte, (0x80 + v % 64) as byte], 3) == v
  {
    var q := v / 64;
    assert v == q * 64 + v % 64;
    assert q == q / 64 * 64 + q % 64;
    assert v / 4096 == q / 64;
  }

  lemma Digits4(v: int)
    requires 0x1_0000 <= v < 0x11_0000
    ensures CodePoint([(0xF0 + v / 262144) as byte, (0x80 + v / 4096 % 64) as byte, (0x80 + v / 64 % 64) as byte,
      (0x80 + v % 64) as byte], 4) == v
  {
    var q1 := v / 64;
    var q2 := q1 / 64;
    assert v == q1 * 64 + v % 64;
    assert q1 == q2 * 64 + q1 % 64;
    assert q2 == q2 / 64 * 64 + q2 % 64;
    assert v / 4096 == q2;
    assert v / 262144 == q2 / 64;
  }

  /** Decoding undoes encoding, one character at a time. */
  lemma {:induction false} DecodeEncode(s: string)
    ensures Decode(Encode(s)) == Some(s)
  {
    if s != [] {
      var e := EncodeChar(s[0]);
      var b := Encode(s);
      assert b == e + Encode(s[1..]);
      CodePointOfEncodeChar(s[0], Encode(s[1..]));
      assert b[0] == e[0];
      assert b[|e|..] == Encode(s[1..]);
      DecodeEncode(s[1..]);
      assert [s[0]] + s[1..] == s;
    }
  }

  /** Distinct strings have distinct bytes. */
  lemma EncodeInjective(s: string, t: string)
    ensures Encode(s) == Encode(t) <==> s == t
  {
    if Encode(s) == Encode(t) {
      DecodeEncode(s);
      DecodeEncode(t);
    }
  }

  /** ASCII text is its own encoding, one byte per character. */
  lemma {:induction false} EncodeAscii(s: string)
    requires forall k :: 0 <= k < |s| ==> s[k] as int < 0x80
    ensures |Encode(s)| == |s|
    ensures forall k :: 0 <= k < |s| ==> Encode(s)[k] as int == s[k] as int
  {
    if s != [] {
      EncodeAscii(s[1..]);
      assert Encode(s) == [s[0] as int as byte] + Encode(s[1..]);
    }
  }
}
