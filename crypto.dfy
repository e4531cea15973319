/** `hash_sha256` and `hmac_sha256`. SHA-256 (FIPS 180-4) and HMAC (RFC 2104)
    are not modelled: the model takes them as a pair of functions supplied by
    the caller, and states only how their inputs are formed and how their
    outputs are rendered. */
module Crypto {
  import opened Wrappers
  import opened Utf8

  /** A SHA-256 output: 32 bytes. */
  type Digest = b: Bytes | |b| == 32 witness seq(32, _ => 0)

  /** `hashlib.sha256(m).digest()` and `hmac.new(key, m, hashlib.sha256).digest()`. */
  datatype Primitives = Primitives(sha256: Bytes -> Digest, hmac: (Bytes, Bytes) -> Digest)

  /** A lower-case hexadecimal digit. */
  predicate LowerHexDigit(c: char) {
    '0' <= c <= '9' || 'a' <= c <= 'f'
  }

  function HexDigit(d: nat): (c: char)
    requires d < 16
    ensures LowerHexDigit(c)
  {
    if d < 10 then ('0' as int + d) as char else ('a' as int + d - 10) as char
  }

  function DigitValue(c: char): Option<nat> {
    if '0' <= c <= '9' then Some(c as int - '0' as int)
    else if 'a' <= c <= 'f' then Some(c as int - 'a' as int + 10)
    else None
  }

  /** `bytes.hex()`: two lower-case digits per byte, high nibble first. */
  function Hex(b: Bytes): (s: string)
    ensures |s| == 2 * |b|
    ensures forall i :: 0 <= i < |s| ==> LowerHexDigit(s[i])
  {
    if b == [] then ""
    else
      var rest := Hex(b[1..]);
      var s := [HexDigit(b[0] / 16), HexDigit(b[0] % 16)] + rest;
      assert forall i :: 2 <= i < |s| ==> s[i] == rest[i - 2];
      s
  }

  /** `bytes.fromhex(s)` for lower-case input. */
  function Unhex(s: string): Option<Bytes> {
    if s == [] then Some([])
    else if |s| < 2 then None
    else match (DigitValue(s[0]), DigitValue(s[1]), Unhex(s[2..]))
      case (Some(hi), Some(lo), Some(rest)) => Some([hi * 16 + lo] + rest)
      case _ => None
  }

  /** The hexadecimal rendering loses nothing. */
  lemma {:induction false} UnhexHex(b: Bytes)
    ensures Unhex(Hex(b)) == Some(b)
  {
    if b != [] {
      UnhexHex(b[1..]);
      var s := Hex(b);
      assert s[2..] == Hex(b[1..]);
      assert DigitValue(HexDigit(b[0] / 16)) == Some(b[0] / 16);
      assert DigitValue(HexDigit(b[0] % 16)) == Some(b[0] % 16);
      assert [b[0]] + b[1..] == b;
    }
  }

  /** `hash_sha256(content)`: the hex digest of the UTF-8 bytes of `content`. */
  function HashSha256(p: Primitives, content: string): (h: string)
    ensures |h| == 64
    ensures forall i :: 0 <= i < |h| ==> LowerHexDigit(h[i])
    ensures Unhex(h) == Some(p.sha256(Utf8.Encode(content)))
  {
    UnhexHex(p.sha256(Utf8.Encode(content)));
    Hex(p.sha256(Utf8.Encode(content)))
  }

  /** `hmac_sha256(key, content)`: HMAC-SHA256 of the UTF-8 bytes of `content`. */
  function HmacSha256(p: Primitives, key: Bytes, content: string): Digest {
    p.hmac(key, Utf8.Encode(content))
  }
}
