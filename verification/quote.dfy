/** The name of a URL's history directory (`ItemHistory._get_dirname`):
    the URL is encoded as UTF-8 and every byte outside the unreserved set
    of section 2.3 of RFC 3986 (letters, digits, `-`, `.`, `_`, `~`) is
    written as `%` followed by two upper-case hexadecimal digits, as
    section 2.1 of RFC 3986 describes. Nothing is kept bare besides the
    unreserved bytes, so `/` and `:` are always escaped.

    The module proves the two facts the history store relies on: the name
    is a single path component (no `/`), and distinct URLs get distinct
    names, because `Unquote` inverts `Quote`. */
module UrlQuote {
  import opened Wrappers

  type Byte = b: int | 0 <= b < 256

  /** Integers that are Unicode scalar values, i.e. valid `char`s. */
  predicate IsScalar(n: int) {
    0 <= n < 0xD800 || 0xE000 <= n < 0x11_0000
  }

  /** UTF-8 encoding of one character (1 to 4 bytes). */
  function Utf8Char(c: char): (bs: seq<Byte>)
    ensures 1 <= |bs| <= 4
    ensures |bs| == 1 <==> c as int < 0x80
    ensures |bs| > 1 ==> bs[0] >= 0xC0
  {
    var n := c as int;
    if n < 0x80 then [n]
    else if n < 0x800 then [0xC0 + n / 0x40, 0x80 + n % 0x40]
    else if n < 0x1_0000 then
      [0xE0 + n / 0x1000, 0x80 + (n / 0x40) % 0x40, 0x80 + n % 0x40]
    else
      [0xF0 + n / 0x4_0000, 0x80 + (n / 0x1000) % 0x40,
       0x80 + (n / 0x40) % 0x40, 0x80 + n % 0x40]
  }

  /** UTF-8 encoding of a string (Python's `str.encode('utf-8')`). */
  function Utf8(s: string): seq<Byte>
  {
    if s == [] then [] else Utf8Char(s[0]) + Utf8(s[1..])
  }

  /** Number of bytes announced by a UTF-8 lead byte, or 0 if `b` cannot
      start a character. */
  function SequenceLength(b: Byte): nat
  {
    if b < 0x80 then 1
    else if 0xC0 <= b < 0xE0 then 2
    else if 0xE0 <= b < 0xF0 then 3
    else if 0xF0 <= b < 0xF8 then 4
    else 0
  }

  predicate IsContinuation(b: Byte) {
    0x80 <= b < 0xC0
  }

  /** Decodes the character at the front of `bs`, with the number of bytes
      it occupies. */
  function DecodeChar(bs: seq<Byte>): (r: Option<(char, nat)>)
    ensures r.Some? ==> 1 <= r.value.1 <= |bs|
  {
    if bs == [] then None
    else
      var len := SequenceLength(bs[0]);
      if len == 0 || |bs| < len then None
      else if exists i :: 1 <= i < len && !IsContinuation(bs[i]) then None
      else
        var n := Assemble(bs[..len]);
        if IsScalar(n) then Some((n as char, len)) else None
  }

  /** The code point carried by a lead byte and its continuation bytes. */
  function Assemble(bs: seq<Byte>): int
    requires 1 <= |bs| <= 4
  {
    var b: seq<int> := bs;
    if |b| == 1 then b[0]
    else if |b| == 2 then (b[0] - 0xC0) * 0x40 + (b[1] - 0x80)
    else if |b| == 3 then (b[0] - 0xE0) * 0x1000 + (b[1] - 0x80) * 0x40 + (b[2] - 0x80)
    else
      (b[0] - 0xF0) * 0x4_0000 + (b[1] - 0x80) * 0x1000
      + (b[2] - 0x80) * 0x40 + (b[3] - 0x80)
  }

  /** UTF-8 decoding; `None` for byte strings that are not well formed. */
  function Utf8Decode(bs: seq<Byte>): Option<string>
    decreases |bs|
  {
    if bs == [] then Some([])
    else
      match DecodeChar(bs)
      case None => None
      case Some((c, len)) =>
        match Utf8Decode(bs[len..])
        case None => None
        case Some(rest) => Some([c] + rest)
  }

  /** `n` is rebuilt from its base-64 digits. */
  lemma Base64Digits(n: int)
    requires 0 <= n
    ensures n == (n / 0x40) * 0x40 + n % 0x40
    ensures n / 0x40 == (n / 0x1000) * 0x40 + (n / 0x40) % 0x40
    ensures n / 0x1000 == (n / 0x4_0000) * 0x40 + (n / 0x1000) % 0x40
  {
    assert n / 0x1000 == (n / 0x40) / 0x40;
    assert n / 0x4_0000 == (n / 0x1000) / 0x40;
  }

  lemma DecodeEncodedChar(c: char, rest: seq<Byte>)
    ensures DecodeChar(Utf8Char(c) + rest) == Some((c, |Utf8Char(c)|))
  {
    var n := c as int;
    var e := Utf8Char(c);
    var bs := e + rest;
    Base64Digits(n);
    assert bs[..|e|] == e;
    assert SequenceLength(bs[0]) == |e|;
    assert forall i :: 1 <= i < |e| ==> IsContinuation(bs[i]);
    assert Assemble(bs[..|e|]) == n;
  }

  /** Decoding undoes encoding, so the encoding is injective. */
  lemma {:induction false} Utf8RoundTrip(s: string)
    ensures Utf8Decode(Utf8(s)) == Some(s)
  {
    if s != [] {
      var e := Utf8Char(s[0]);
      var bs := Utf8(s);
      assert bs == e + Utf8(s[1..]);
      DecodeEncodedChar(s[0], Utf8(s[1..]));
      assert bs[|e|..] == Utf8(s[1..]);
      Utf8RoundTrip(s[1..]);
      assert [s[0]] + s[1..] == s;
    }
  }

  /** The unreserved characters of section 2.3 of RFC 3986, the only ones
      `quote(url, safe='')` leaves bare. */
  predicate IsUnreservedChar(c: char) {
    || 'A' <= c <= 'Z'
    || 'a' <= c <= 'z'
    || '0' <= c <= '9'
    || c == '_' || c == '.' || c == '-' || c == '~'
  }

  predicate IsUnreserved(b: Byte) {
    IsUnreservedChar(b as char)
  }

  /** Characters that can appear in a directory name. */
  predicate IsDirnameChar(c: char) {
    c == '%' || IsUnreservedChar(c)
  }

  function HexDigit(d: int): (c: char)
    requires 0 <= d < 16
    ensures IsUnreservedChar(c)
  {
    if d < 10 then ('0' as int + d) as char else ('A' as int + d - 10) as char
  }

  function HexValue(c: char): Option<int>
  {
    if '0' <= c <= '9' then Some(c as int - '0' as int)
    else if 'A' <= c <= 'F' then Some(c as int - 'A' as int + 10)
    else None
  }

  /** Percent-encoding of one byte. */
  function Escape(b: Byte): (s: string)
    ensures forall i :: 0 <= i < |s| ==> IsDirnameChar(s[i])
    ensures !IsUnreserved(b) ==> '%' in s
  {
    if IsUnreserved(b) then [b as char]
    else ['%', HexDigit(b / 16), HexDigit(b % 16)]
  }

  function EscapeAll(bs: seq<Byte>): (s: string)
    ensures forall i :: 0 <= i < |s| ==> IsDirnameChar(s[i])
  {
    if bs == [] then [] else Escape(bs[0]) + EscapeAll(bs[1..])
  }

  /** The directory name of a URL's history. */
  function Quote(url: string): (dirname: string)
    ensures forall i :: 0 <= i < |dirname| ==> IsDirnameChar(dirname[i])
    ensures '/' !in dirname
  {
    EscapeAll(Utf8(url))
  }

  /** Inverse of `EscapeAll`; `None` for text that is not percent-encoded. */
  function PercentDecode(s: string): Option<seq<Byte>>
    decreases |s|
  {
    if s == [] then Some([])
    else if s[0] == '%' then
      if |s| < 3 then None
      else
        match (HexValue(s[1]), HexValue(s[2]), PercentDecode(s[3..]))
        case (Some(hi), Some(lo), Some(rest)) =>
          if 0 <= hi < 16 && 0 <= lo < 16 then Some([hi * 16 + lo] + rest) else None
        case _ => None
    else if IsUnreservedChar(s[0]) then
      match PercentDecode(s[1..])
      case Some(rest) => Some([s[0] as int] + rest)
      case None => None
    else None
  }

  /** Recovers the URL from a directory name. */
  function Unquote(dirname: string): Option<string>
  {
    match PercentDecode(dirname)
    case None => None
    case Some(bs) => Utf8Decode(bs)
  }

  lemma HexRoundTrip(d: int)
    requires 0 <= d < 16
    ensures HexValue(HexDigit(d)) == Some(d)
  {
  }

  /** Decoding an escaped byte in front of `rest` yields that byte in front
      of the decoding of `rest`. */
  lemma DecodeEscaped(b: Byte, rest: string)
    ensures PercentDecode(Escape(b) + rest) ==
      match PercentDecode(rest)
      case Some(r) => Some([b] + r)
      case None => None
  {
    var s := Escape(b) + rest;
    if IsUnreserved(b) {
      assert s[0] == b as char && s[1..] == rest;
    } else {
      HexRoundTrip(b / 16);
      HexRoundTrip(b % 16);
      assert s[0] == '%' && s[1] == HexDigit(b / 16) && s[2] == HexDigit(b % 16);
      assert s[3..] == rest;
    }
  }

  lemma {:induction false} PercentRoundTrip(bs: seq<Byte>)
    ensures PercentDecode(EscapeAll(bs)) == Some(bs)
  {
    if bs != [] {
      PercentRoundTrip(bs[1..]);
      DecodeEscaped(bs[0], EscapeAll(bs[1..]));
      assert [bs[0]] + bs[1..] == bs;
    }
  }

  /** Unquoting the directory name gives back the URL. */
  lemma QuoteRoundTrip(url: string)
    ensures Unquote(Quote(url)) == Some(url)
  {
    PercentRoundTrip(Utf8(url));
    Utf8RoundTrip(url);
  }

  /** Two URLs share a history directory only if they are the same URL. */
  lemma QuoteInjective(u: string, v: string)
    ensures Quote(u) == Quote(v) ==> u == v
  {
    QuoteRoundTrip(u);
    QuoteRoundTrip(v);
  }

  lemma {:induction false} EscapeAllHasPercent(bs: seq<Byte>, i: nat)
    requires i < |bs| && !IsUnreserved(bs[i])
    ensures '%' in EscapeAll(bs)
    decreases i
  {
    if i == 0 {
      assert EscapeAll(bs) == Escape(bs[0]) + EscapeAll(bs[1..]);
    } else {
      EscapeAllHasPercent(bs[1..], i - 1);
      assert EscapeAll(bs) == Escape(bs[0]) + EscapeAll(bs[1..]);
    }
  }

  lemma {:induction false} Utf8HasReservedByte(s: string, i: nat)
    requires i < |s| && !IsUnreservedChar(s[i])
    ensures exists j :: 0 <= j < |Utf8(s)| && !IsUnreserved(Utf8(s)[j])
    decreases i
  {
    var e := Utf8Char(s[0]);
    assert Utf8(s) == e + Utf8(s[1..]);
    if i == 0 {
      assert !IsUnreserved(Utf8(s)[0]);
    } else {
      Utf8HasReservedByte(s[1..], i - 1);
      var j :| 0 <= j < |Utf8(s[1..])| && !IsUnreserved(Utf8(s[1..])[j]);
      assert Utf8(s)[|e| + j] == Utf8(s[1..])[j];
    }
  }

  /** A URL holding any character outside the unreserved set (every
      absolute URL does: the `:` after its scheme) gets a directory name
      that is a proper single path component: not empty, not `.` or `..`,
      and free of `/`. */
  lemma DirnameIsPathComponent(url: string, i: nat)
    requires i < |url| && !IsUnreservedChar(url[i])
    ensures var d := Quote(url); d != "" && d != "." && d != ".." && '/' !in d
  {
    Utf8HasReservedByte(url, i);
    var j :| 0 <= j < |Utf8(url)| && !IsUnreserved(Utf8(url)[j]);
    EscapeAllHasPercent(Utf8(url), j);
  }
}
