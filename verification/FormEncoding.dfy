/** Form encoding of byte strings: `url.QueryEscape` and `url.QueryUnescape`. */
module FormEncoding {
  import opened Wrappers
  import opened Text

  predicate IsUnreserved(c: char) {
    'a' <= c <= 'z' || 'A' <= c <= 'Z' || '0' <= c <= '9' || c in {'-', '_', '.', '~'}
  }

  function HexDigit(n: nat): char
    requires n < 16
  {
    if n < 10 then ('0' as int + n) as char else ('A' as int + n - 10) as char
  }

  function HexValue(c: char): Option<nat> {
    if '0' <= c <= '9' then Some(c as int - '0' as int)
    else if 'a' <= c <= 'f' then Some(c as int - 'a' as int + 10)
    else if 'A' <= c <= 'F' then Some(c as int - 'A' as int + 10)
    else None
  }

  function EscapeByte(c: char): string
    requires c as int < 256
  {
    if IsUnreserved(c) then [c]
    else if c == ' ' then "+"
    else ['%', HexDigit(c as int / 16), HexDigit(c as int % 16)]
  }

  /** `url.QueryEscape` */
  function Escape(s: string): string
    requires IsBytes(s)
  {
    if s == "" then "" else EscapeByte(s[0]) + Escape(s[1..])
  }

  /** `url.QueryUnescape`; `None` is the escape error. */
  function Unescape(s: string): Option<string> {
    if s == "" then Some("")
    else if s[0] == '%' then
      if |s| >= 3 && HexValue(s[1]).Some? && HexValue(s[2]).Some? then
        var rest := Unescape(s[3..]);
        if rest.None? then None
        else Some([(HexValue(s[1]).value * 16 + HexValue(s[2]).value) as char] + rest.value)
      else None
    else
      var rest := Unescape(s[1..]);
      if rest.None? then None else Some([if s[0] == '+' then ' ' else s[0]] + rest.value)
  }

  lemma HexRoundTrip(n: nat)
    requires n < 16
    ensures HexValue(HexDigit(n)) == Some(n)
  {
  }

  /** Decoding undoes encoding, for every byte string. */
  lemma {:induction false} UnescapeEscape(s: string)
    requires IsBytes(s)
    ensures Unescape(Escape(s)) == Some(s)
  {
    if s != "" {
      var c := s[0];
      var rest := Escape(s[1..]);
      UnescapeEscape(s[1..]);
      assert s == [c] + s[1..];
      if IsUnreserved(c) {
        assert Escape(s) == [c] + rest && Escape(s)[1..] == rest;
      } else if c == ' ' {
        assert Escape(s) == "+" + rest && Escape(s)[1..] == rest;
      } else {
        HexRoundTrip(c as int / 16);
        HexRoundTrip(c as int % 16);
        assert Escape(s)[3..] == rest;
      }
    }
  }

  /** The characters an encoded value is made of. */
  predicate IsEncodedChar(c: char) {
    IsUnreserved(c) || c == '+' || c == '%'
  }

  lemma {:induction false} EscapeAlphabet(s: string)
    requires IsBytes(s)
    ensures forall c :: c in Escape(s) ==> IsEncodedChar(c)
  {
    if s != "" { EscapeAlphabet(s[1..]); }
  }

  // ----- What decodes to what

  const LOWER := "0123456789abcdef"
  const UPPER := "0123456789ABCDEF"

  /** A hexadecimal digit in either case. */
  predicate IsHex(c: char, n: nat) {
    n < 16 && (c == LOWER[n] || c == UPPER[n])
  }

  lemma HexValueIs(c: char, n: nat)
    ensures HexValue(c) == Some(n) <==> IsHex(c, n)
  {
    if n < 16 { HexCharacters(n); }
  }

  lemma HexCharacters(n: nat)
    requires n < 16
    ensures n < 10 ==> LOWER[n] == UPPER[n] && LOWER[n] as int == '0' as int + n
    ensures n >= 10 ==> LOWER[n] as int == 'a' as int + n - 10 && UPPER[n] as int == 'A' as int + n - 10
  {
    if n < 8 {
      if n < 4 { assert n == 0 || n == 1 || n == 2 || n == 3; } else { assert n == 4 || n == 5 || n == 6 || n == 7; }
    } else {
      if n < 12 { assert n == 8 || n == 9 || n == 10 || n == 11; }
      else { assert n == 12 || n == 13 || n == 14 || n == 15; }
    }
  }

  /** `e` is a form encoding of `s`: each character stands for itself, but for a plus sign, which stands for a space,
      and a percent sign with two hexadecimal digits, which stands for a byte. */
  predicate IsEncodingOf(e: string, s: string) {
    if e == "" then s == ""
    else if s == "" then false
    else if e[0] == '%' then
      && |e| >= 3 && s[0] as int < 256
      && IsHex(e[1], s[0] as int / 16) && IsHex(e[2], s[0] as int % 16) && IsEncodingOf(e[3..], s[1..])
    else s[0] == (if e[0] == '+' then ' ' else e[0]) && IsEncodingOf(e[1..], s[1..])
  }

  /** Decoding succeeds with a text exactly for its encodings, with hexadecimal digits in either case. */
  lemma {:induction false} UnescapeExactly(e: string, s: string)
    ensures Unescape(e) == Some(s) <==> IsEncodingOf(e, s)
    decreases |e|
  {
    if e != "" && s != "" {
      assert s == [s[0]] + s[1..];
      if e[0] == '%' {
        if |e| >= 3 {
          UnescapeExactly(e[3..], s[1..]);
          ByteOfHex(e[1], e[2], s[0]);
        }
      } else {
        UnescapeExactly(e[1..], s[1..]);
      }
    }
  }

  lemma ByteOfHex(a: char, b: char, c: char)
    ensures HexValue(a).Some? && HexValue(b).Some? && (HexValue(a).value * 16 + HexValue(b).value) as char == c
       <==> c as int < 256 && IsHex(a, c as int / 16) && IsHex(b, c as int % 16)
  {
    var n := c as int;
    HexValueIs(a, n / 16);
    HexValueIs(b, n % 16);
    if HexValue(a).Some? && HexValue(b).Some? {
      var x, y := HexValue(a).value, HexValue(b).value;
      assert x < 16 && y < 16;
      assert (x * 16 + y) / 16 == x && (x * 16 + y) % 16 == y;
    }
  }

  lemma ByteIsKept(c: char)
    requires c as int < 256
    ensures |EscapeByte(c)| >= 1
    ensures EscapeByte(c) == [c] <==>
            || 'A' <= c <= 'Z' || 'a' <= c <= 'z' || '0' <= c <= '9' || c == '-' || c == '_' || c == '.' || c == '~'
    ensures |EscapeByte(c)| == 1 ==> EscapeByte(c) == [c] || c == ' '
    ensures c == ' ' ==> EscapeByte(c) == "+"
  {
  }

  /** Text is its own encoding exactly when it has only the unreserved characters of section 2.3 of RFC 3986. */
  lemma {:induction false} EscapeKeepsExactly(s: string)
    requires IsBytes(s)
    ensures |Escape(s)| >= |s|
    ensures Escape(s) == s <==>
            forall i :: 0 <= i < |s| ==>
              || 'A' <= s[i] <= 'Z' || 'a' <= s[i] <= 'z' || '0' <= s[i] <= '9'
              || s[i] == '-' || s[i] == '_' || s[i] == '.' || s[i] == '~'
  {
    if s != "" {
      EscapeKeepsExactly(s[1..]);
      ByteIsKept(s[0]);
      hide EscapeByte, IsUnreserved;
      var head, rest := EscapeByte(s[0]), Escape(s[1..]);
      assert Escape(s) == head + rest && s == [s[0]] + s[1..];
      if |head| == 1 { assert (head + rest)[1..] == rest && (head + rest)[0] == head[0]; }
    }
  }
}
