/** `urllib.parse.quote(s, safe="-_.~")`: percent-encoding over the UTF-8
    bytes of `s` that leaves only the unreserved set of section 2.3 of
    RFC 3986 as it is, and the decoding that undoes it. */
module PercentEncoding {
  import opened Wrappers
  import opened Utf8

  /** ALPHA / DIGIT / "-" / "." / "_" / "~". */
  predicate Unreserved(b: byte) {
    ('A' as int <= b <= 'Z' as int) || ('a' as int <= b <= 'z' as int) ||
    ('0' as int <= b <= '9' as int) || b == '-' as int || b == '.' as int ||
    b == '_' as int || b == '~' as int
  }

  /** An upper-case hexadecimal digit, as `'%02X'` writes it. */
  function HexUpper(d: nat): (c: char)
    requires d < 16
  {
    if d < 10 then ('0' as int + d) as char else ('A' as int + d - 10) as char
  }

  /** The value of an upper-case hexadecimal digit. */
  function HexValue(c: char): Option<nat> {
    if '0' <= c <= '9' then Some(c as int - '0' as int)
    else if 'A' <= c <= 'F' then Some(c as int - 'A' as int + 10)
    else None
  }

  /** A character `quote` may emit. */
  predicate QuotedChar(c: char) {
    (c as int < 0x80 && Unreserved(c as int)) || c == '%'
  }

  /** One byte: itself when unreserved, `%XX` otherwise. */
  function QuoteByte(b: byte): (s: string)
    ensures 1 <= |s| <= 3
    ensures forall i :: 0 <= i < |s| ==> QuotedChar(s[i])
  {
    if Unreserved(b) then [b as char]
    else ['%', HexUpper(b / 16), HexUpper(b % 16)]
  }

  function QuoteBytes(b: Bytes): (s: string)
    ensures forall i :: 0 <= i < |s| ==> QuotedChar(s[i])
  {
    if b == [] then ""
    else
      var head := QuoteByte(b[0]);
      var rest := QuoteBytes(b[1..]);
      assert forall i :: 0 <= i < |head| + |rest| ==> (head + rest)[i] == if i < |head| then head[i] else rest[i - |head|];
      head + rest
  }

  /** `quote(s, safe="-_.~")`. */
  function Quote(s: string): string {
    QuoteBytes(Utf8.Encode(s))
  }

  /** `unquote_to_bytes`, strict: `None` for a `%` not followed by two
      upper-case hexadecimal digits or for a character `quote` never emits. */
  function UnquoteBytes(s: string): Option<Bytes> {
    if s == [] then Some([])
    else if s[0] == '%' then
      if |s| < 3 then None
      else match (HexValue(s[1]), HexValue(s[2]))
        case (Some(hi), Some(lo)) =>
          (match UnquoteBytes(s[3..])
           case Some(rest) => Some([hi * 16 + lo] + rest)
           case None => None)
        case _ => None
    else if s[0] as int < 0x80 && Unreserved(s[0] as int) then
      match UnquoteBytes(s[1..])
      case Some(rest) => Some([s[0] as int] + rest)
      case None => None
    else None
  }

  /** Percent-decoding followed by UTF-8 decoding. */
  function Unquote(s: string): Option<string> {
    match UnquoteBytes(s)
    case Some(b) => Utf8.Decode(b)
    case None => None
  }

  lemma UnquoteQuoteByte(b: byte, tail: string)
    ensures UnquoteBytes(QuoteByte(b) + tail) ==
      match UnquoteBytes(tail) case Some(rest) => Some([b] + rest) case None => None
  {
    var s := QuoteByte(b) + tail;
    if Unreserved(b) {
      assert s[1..] == tail;
    } else {
      assert s[3..] == tail;
      assert HexValue(HexUpper(b / 16)) == Some(b / 16);
      assert HexValue(HexUpper(b % 16)) == Some(b % 16);
    }
  }

  /** Percent-decoding undoes `quote` on bytes. */
  lemma {:induction false} UnquoteQuoteBytes(b: Bytes)
    ensures UnquoteBytes(QuoteBytes(b)) == Some(b)
  {
    if b != [] {
      UnquoteQuoteBytes(b[1..]);
      UnquoteQuoteByte(b[0], QuoteBytes(b[1..]));
      assert [b[0]] + b[1..] == b;
    }
  }

  /** `quote` loses nothing: decoding its output gives back the string. */
  lemma UnquoteQuote(s: string)
    ensures Unquote(Quote(s)) == Some(s)
  {
    UnquoteQuoteBytes(Utf8.Encode(s));
    Utf8.DecodeEncode(s);
  }

  /** `quote` is one-to-one. */
  lemma QuoteInjective(s: string, t: string)
    requires Quote(s) == Quote(t)
    ensures s == t
  {
    UnquoteQuote(s);
    UnquoteQuote(t);
  }

  /** The output holds only unreserved ASCII characters and `%`: never a `+`,
      a space, or any separator the signer uses. */
  lemma QuoteAlphabet(s: string)
    ensures forall i :: 0 <= i < |Quote(s)| ==> QuotedChar(Quote(s)[i])
    ensures '+' !in Quote(s) && ' ' !in Quote(s) && '&' !in Quote(s) && '=' !in Quote(s)
    ensures '\n' !in Quote(s) && '/' !in Quote(s)
  {
  }

  /** Unreserved ASCII characters pass through `quote` unchanged. */
  lemma {:induction false} QuoteUnreserved(s: string)
    requires forall i :: 0 <= i < |s| ==> s[i] as int < 0x80 && Unreserved(s[i] as int)
    ensures Quote(s) == s
  {
    if s != [] {
      QuoteUnreserved(s[1..]);
      assert Utf8.Encode(s) == [s[0] as int] + Utf8.Encode(s[1..]);
      assert [s[0]] + s[1..] == s;
    }
  }

  lemma {:induction false} QuoteBytesAppend(a: Bytes, b: Bytes)
    ensures QuoteBytes(a + b) == QuoteBytes(a) + QuoteBytes(b)
  {
    if a != [] {
      QuoteBytesAppend(a[1..], b);
      assert (a + b)[1..] == a[1..] + b;
    } else {
      assert a + b == b;
    }
  }

  /** `quote` works character by character: it distributes over concatenation. */
  lemma QuoteAppend(s: string, t: string)
    ensures Quote(s + t) == Quote(s) + Quote(t)
  {
    Utf8.EncodeAppend(s, t);
    QuoteBytesAppend(Utf8.Encode(s), Utf8.Encode(t));
  }
}
