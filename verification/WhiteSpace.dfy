/** White space in byte strings: `strings.TrimSpace` and `strings.Fields`. */
module WhiteSpace {

  /** The length of the UTF-8 form of the white space the string starts with (`unicode.IsSpace`); zero if it
      starts with none. */
  function SpaceLength(s: string): (n: nat)
    ensures n <= |s| && n <= 3
  {
    if s == "" then 0
    else if '\t' <= s[0] <= '\r' || s[0] == ' ' then 1
    else if |s| >= 2 && s[..2] in {"\U{C2}\U{85}", "\U{C2}\U{A0}"} then 2
    else if |s| >= 3 && IsWideSpace(s[0] as int, s[1] as int, s[2] as int) then 3
    else 0
  }

  /** The code points 1680, 2000 to 200A, 2028, 2029, 202F, 205F and 3000. */
  predicate IsWideSpace(a: int, b: int, c: int) {
    || (a == 0xE1 && b == 0x9A && c == 0x80)
    || (a == 0xE2 && b == 0x80 && (0x80 <= c <= 0x8A || c == 0xA8 || c == 0xA9 || c == 0xAF))
    || (a == 0xE2 && b == 0x81 && c == 0x9F)
    || (a == 0xE3 && b == 0x80 && c == 0x80)
  }

  /** The length of the white space the string ends with. */
  function LastSpaceLength(s: string): (n: nat)
    ensures n <= |s|
  {
    if s != "" && SpaceLength(s[|s| - 1..]) == 1 then 1
    else if |s| >= 2 && SpaceLength(s[|s| - 2..]) == 2 then 2
    else if |s| >= 3 && SpaceLength(s[|s| - 3..]) == 3 then 3
    else 0
  }

  /** `strings.TrimSpace` */
  function TrimSpace(s: string): string
    decreases |s|
  {
    if SpaceLength(s) > 0 then TrimSpace(s[SpaceLength(s)..])
    else if LastSpaceLength(s) > 0 then TrimSpace(s[..|s| - LastSpaceLength(s)])
    else s
  }

  /** `strings.Fields`: the maximal runs of characters that are no white space. */
  function Fields(s: string): seq<string> {
    FieldsFrom(s, "")
  }

  function FieldsFrom(s: string, word: string): seq<string>
    decreases |s|
  {
    var ended := if word == "" then [] else [word];
    if s == "" then ended
    else if SpaceLength(s) > 0 then ended + FieldsFrom(s[SpaceLength(s)..], "")
    else FieldsFrom(s[1..], word + [s[0]])
  }

  // ----- White space beside other text

  lemma SpaceFirst(a: string, b: string)
    requires SpaceLength(a) > 0
    ensures SpaceLength(a + b) == SpaceLength(a)
  {
    var s := a + b;
    assert s[0] == a[0];
    if |a| >= 2 { assert s[1] == a[1] && s[..2] == a[..2]; }
    if |a| >= 3 { assert s[2] == a[2]; }
  }

  /** A character of white space. */
  predicate IsSpace(s: string) {
    s != "" && SpaceLength(s) == |s|
  }

  /** Text that starts with no white space still starts with none when white space follows it. */
  lemma NoSpaceBefore(a: string, sep: string, b: string)
    requires a != "" && SpaceLength(a) == 0 && IsSpace(sep)
    ensures SpaceLength(a + sep + b) == 0
  {
    var s := a + sep + b;
    assert s[0] == a[0];
    if |a| >= 2 { assert s[1] == a[1] && s[..2] == a[..2]; } else { assert s[1] == sep[0] && s[..2][1] == sep[0]; }
    if |a| >= 3 { assert s[2] == a[2]; } else if |a| == 2 { assert s[2] == sep[0]; }
    if |s| >= 2 { assert s[..2][0] == s[0] && s[..2][1] == s[1]; }
  }

  // ----- What the fields are

  predicate HasNoSpace(s: string) {
    forall i :: 0 <= i < |s| ==> SpaceLength(s[i..]) == 0
  }

  lemma AfterStart(a: string, sep: string, b: string, n: nat)
    requires n <= |a|
    ensures (a + sep + b)[n..] == a[n..] + sep + b && a + sep + b == a + (sep + b)
    ensures a != "" ==> (a + sep + b)[0] == a[0]
  {
  }

  lemma {:induction false} FieldsFromSplit(a: string, sep: string, b: string, word: string)
    requires IsSpace(sep)
    ensures FieldsFrom(a + sep + b, word) == FieldsFrom(a, word) + Fields(b)
    decreases |a|
  {
    hide SpaceLength;
    var s := a + sep + b;
    if a == "" {
      assert s == sep + b;
      SpaceFirst(sep, b);
      assert s[|sep|..] == b;
    } else if SpaceLength(a) > 0 {
      var n := SpaceLength(a);
      AfterStart(a, sep, b, n);
      SpaceFirst(a, sep + b);
      FieldsFromSplit(a[n..], sep, b, "");
    } else {
      NoSpaceBefore(a, sep, b);
      AfterStart(a, sep, b, 1);
      FieldsFromSplit(a[1..], sep, b, word + [a[0]]);
    }
  }

  /** White space anywhere divides the fields. */
  lemma FieldsSplitAtSpace(a: string, sep: string, b: string)
    requires IsSpace(sep)
    ensures Fields(a + sep + b) == Fields(a) + Fields(b)
  {
    FieldsFromSplit(a, sep, b, "");
  }

  lemma {:induction false} FieldsFromWord(s: string, word: string)
    requires HasNoSpace(s)
    ensures FieldsFrom(s, word) == if word + s == "" then [] else [word + s]
  {
    hide SpaceLength;
    if s == "" {
      assert word + s == word;
    } else {
      assert s[0..] == s;
      forall i | 0 <= i < |s[1..]| ensures SpaceLength(s[1..][i..]) == 0 { assert s[1..][i..] == s[i + 1..]; }
      FieldsFromWord(s[1..], word + [s[0]]);
      assert word + [s[0]] + s[1..] == word + s;
    }
  }

  /** Text without white space is one field, and no text is none. */
  lemma FieldsOfWord(s: string)
    requires HasNoSpace(s)
    ensures Fields(s) == if s == "" then [] else [s]
  {
    FieldsFromWord(s, "");
    assert "" + s == s;
  }

  // ----- What is trimmed

  predicate IsBlank(s: string) {
    s == "" || (SpaceLength(s) > 0 && IsBlank(s[SpaceLength(s)..]))
  }

  lemma {:induction false} BlankConcat(a: string, b: string)
    requires IsBlank(a) && IsBlank(b)
    ensures IsBlank(a + b)
    decreases |a|
  {
    hide SpaceLength;
    if a == "" {
      assert a + b == b;
    } else {
      SpaceFirst(a, b);
      var n := SpaceLength(a);
      BlankConcat(a[n..], b);
      assert (a + b)[n..] == a[n..] + b;
    }
  }

  lemma LastSpaceIsBlank(s: string)
    ensures IsBlank(s[|s| - LastSpaceLength(s)..])
  {
    hide SpaceLength;
    var n := LastSpaceLength(s);
    var last := s[|s| - n..];
    if n > 0 { assert SpaceLength(last) == n && last[n..] == ""; }
  }

  /** Only white space is cut off at the two ends, and none is left there. */
  lemma {:induction false} TrimSpaceCuts(s: string) returns (a: string, b: string)
    ensures s == a + TrimSpace(s) + b && IsBlank(a) && IsBlank(b)
    ensures SpaceLength(TrimSpace(s)) == 0 && LastSpaceLength(TrimSpace(s)) == 0
    decreases |s|
  {
    hide SpaceLength, LastSpaceLength;
    a, b := "", "";
    if SpaceLength(s) > 0 {
      var n := SpaceLength(s);
      a, b := TrimSpaceCuts(s[n..]);
      SpaceIsBlank(s);
      BlankConcat(s[..n], a);
      GrowLeft(s, n, a, TrimSpace(s[n..]), b);
      a := s[..n] + a;
    } else if LastSpaceLength(s) > 0 {
      var n := |s| - LastSpaceLength(s);
      a, b := TrimSpaceCuts(s[..n]);
      LastSpaceIsBlank(s);
      BlankConcat(b, s[n..]);
      GrowRight(s, n, a, TrimSpace(s[..n]), b);
      b := b + s[n..];
    } else {
      assert s == "" + s + "";
    }
  }

  lemma GrowLeft(s: string, n: nat, a: string, middle: string, b: string)
    requires n <= |s| && s[n..] == a + middle + b
    ensures s == s[..n] + a + middle + b
  {
    assert s == s[..n] + s[n..];
  }

  lemma GrowRight(s: string, n: nat, a: string, middle: string, b: string)
    requires n <= |s| && s[..n] == a + middle + b
    ensures s == a + middle + (b + s[n..])
  {
    assert s == s[..n] + s[n..];
  }

  lemma SpaceIsBlank(s: string)
    requires SpaceLength(s) > 0
    ensures IsBlank(s[..SpaceLength(s)])
  {
    var n := SpaceLength(s);
    var first := s[..n];
    assert first[0] == s[0];
    if n >= 2 { assert first[1] == s[1] && first[..2] == s[..2]; }
    if n >= 3 { assert first[2] == s[2]; }
    assert SpaceLength(first) == n && first[n..] == "";
  }
}
