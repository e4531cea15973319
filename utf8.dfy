/** `str.encode("utf-8")`: the byte form every string takes before it is
    percent-encoded or hashed (RFC 3629), and the decoder that undoes it. */
module Utf8 {
  import opened Wrappers

  type byte = x: int | 0 <= x < 0x100

  type Bytes = seq<byte>

  /** Continuation bytes are `10xxxxxx`. */
  predicate Continuation(b: byte) {
    0x80 <= b < 0xC0
  }

  /** The 1 to 4 bytes of one scalar value. */
  function EncodeChar(c: char): (b: Bytes)
    ensures 1 <= |b| <= 4
    ensures c as int < 0x80 ==> b == [c as int]
    ensures c as int >= 0x80 ==> forall i :: 0 <= i < |b| ==> b[i] >= 0x80
  {
    var n := c as int;
    if n < 0x80 then [n]
    else if n < 0x800 then [0xC0 + n / 0x40, 0x80 + n % 0x40]
    else if n < 0x10000 then [0xE0 + n / 0x1000, 0x80 + n / 0x40 % 0x40, 0x80 + n % 0x40]
    else [0xF0 + n / 0x40000, 0x80 + n / 0x1000 % 0x40, 0x80 + n / 0x40 % 0x40, 0x80 + n % 0x40]
  }

  /** `s.encode("utf-8")`. */
  function Encode(s: string): (b: Bytes)
    ensures |s| <= |b| <= 4 * |s|
  {
    if s == [] then [] else EncodeChar(s[0]) + Encode(s[1..])
  }

  /** The length of the sequence a leading byte announces, 0 for a byte
      that cannot lead one. */
  function SequenceLength(lead: byte): nat {
    if lead < 0x80 then 1
    else if 0xC2 <= lead < 0xE0 then 2
    else if 0xE0 <= lead < 0xF0 then 3
    else if 0xF0 <= lead < 0xF5 then 4
    else 0
  }

  /** A scalar value: a code point that is not a surrogate. */
  predicate Scalar(n: int) {
    0 <= n < 0xD800 || 0xE000 <= n < 0x110000
  }

  /** The code point carried by the first `len` bytes of `b`. */
  function Assemble(b: Bytes, len: nat): int
    requires 1 <= len <= 4 && len <= |b|
  {
    var b0: int := b[0];
    if len == 1 then b0
    else
      var b1: int := b[1];
      if len == 2 then (b0 - 0xC0) * 0x40 + (b1 - 0x80)
      else
        var b2: int := b[2];
        if len == 3 then (b0 - 0xE0) * 0x1000 + (b1 - 0x80) * 0x40 + (b2 - 0x80)
        else
          var b3: int := b[3];
          (b0 - 0xF0) * 0x40000 + (b1 - 0x80) * 0x1000 + (b2 - 0x80) * 0x40 + (b3 - 0x80)
  }

  /** Decodes the first scalar value of `b`, with the number of bytes it takes;
      `None` for an ill-formed, over-long or surrogate sequence. */
  function DecodeFirst(b: Bytes): (r: Option<(char, nat)>)
    ensures r.Some? ==> 1 <= r.value.1 <= |b|
  {
    if b == [] then None
    else
      var len := SequenceLength(b[0]);
      if len == 0 || |b| < len then None
      else if exists i :: 1 <= i < len && !Continuation(b[i]) then None
      else
        var n := Assemble(b, len);
        var least: int := if len == 1 then 0 else if len == 2 then 0x80 else if len == 3 then 0x800 else 0x10000;
        if n < least || !Scalar(n) then None
        else Some((n as char, len))
  }

  /** `b.decode("utf-8")`, `None` where Python raises `UnicodeDecodeError`. */
  function Decode(b: Bytes): Option<string>
    decreases |b|
  {
    if b == [] then Some("")
    else match DecodeFirst(b)
      case None => None
      case Some((c, len)) =>
        match Decode(b[len..])
        case None => None
        case Some(rest) => Some([c] + rest)
  }

  /** Every character is a scalar value. */
  lemma CharIsScalar(c: char)
    ensures Scalar(c as int)
  {
  }

  lemma TwoByteArithmetic(n: int)
    requires 0x80 <= n < 0x800
    ensures 0xC2 <= 0xC0 + n / 0x40 < 0xE0
    ensures (n / 0x40) * 0x40 + n % 0x40 == n
  {
  }

  lemma ThreeByteArithmetic(n: int)
    requires 0x800 <= n < 0x10000
    ensures 0xE0 <= 0xE0 + n / 0x1000 < 0xF0
    ensures (n / 0x1000) * 0x1000 + (n / 0x40 % 0x40) * 0x40 + n % 0x40 == n
  {
  }

  lemma FourByteArithmetic(n: int)
    requires 0x10000 <= n < 0x110000
    ensures 0xF0 <= 0xF0 + n / 0x40000 < 0xF5
    ensures (n / 0x40000) * 0x40000 + (n / 0x1000 % 0x40) * 0x1000 + (n / 0x40 % 0x40) * 0x40 + n % 0x40 == n
  {
  }

  /** The decoder reads back the first character of an encoding, whatever
      follows it. */
  lemma EncodeCharDecodes(c: char, tail: Bytes)
    ensures DecodeFirst(EncodeChar(c) + tail) == Some((c, |EncodeChar(c)|))
  {
    var n := c as int;
    var b := EncodeChar(c) + tail;
    CharIsScalar(c);
    if n < 0x80 {
      assert Assemble(b, 1) == n;
    } else if n < 0x800 {
      TwoByteArithmetic(n);
      assert Assemble(b, 2) == n;
    } else if n < 0x10000 {
      ThreeByteArithmetic(n);
      assert Assemble(b, 3) == n;
    } else {
      FourByteArithmetic(n);
      assert Assemble(b, 4) == n;
    }
    assert (n as char) == c;
  }

  /** Decoding undoes encoding: UTF-8 loses nothing of a string. */
  lemma {:induction false} DecodeEncode(s: string)
    ensures Decode(Encode(s)) == Some(s)
  {
    if s != [] {
      var head := EncodeChar(s[0]);
      EncodeCharDecodes(s[0], Encode(s[1..]));
      assert (head + Encode(s[1..]))[|head|..] == Encode(s[1..]);
      DecodeEncode(s[1..]);
      assert [s[0]] + s[1..] == s;
    }
  }

  /** The encoding is ASCII exactly on ASCII characters: a byte below 0x80 in
      the encoding is a character of the string. */
  lemma {:induction false} EncodeAsciiBytes(s: string, i: nat)
    requires i < |Encode(s)| && Encode(s)[i] < 0x80
    ensures (Encode(s)[i] as char) in s
  {
    var head := EncodeChar(s[0]);
    if i < |head| {
      assert s[0] as int < 0x80;
    } else {
      assert Encode(s)[i] == Encode(s[1..])[i - |head|];
      EncodeAsciiBytes(s[1..], i - |head|);
    }
  }

  /** Encoding distributes over concatenation. */
  lemma {:induction false} EncodeAppend(s: string, t: string)
    ensures Encode(s + t) == Encode(s) + Encode(t)
  {
    if s != [] {
      EncodeAppend(s[1..], t);
      assert (s + t)[1..] == s[1..] + t;
    } else {
      assert s + t == t;
    }
  }
}
