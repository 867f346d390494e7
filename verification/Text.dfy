/** Byte strings and the few standard-library text functions the modelled files use.

    A Go string is a sequence of bytes; here it is a `string` whose characters are byte values, so
    string literals stand for their ASCII bytes.
  */
module Text {
  import opened Wrappers

  predicate IsBytes(s: string) {
    forall i :: 0 <= i < |s| ==> s[i] as int < 256
  }

  // ----- strings.Cut and strings.Split on a one-byte separator

  datatype Parts = Parts(before: string, after: string, found: bool)

  /** `strings.Cut` */
  function Cut(s: string, sep: char): (r: Parts)
    ensures sep !in r.before
    ensures r.found ==> s == r.before + [sep] + r.after
    ensures !r.found ==> s == r.before && r.after == ""
  {
    if s == "" then Parts("", "", false)
    else if s[0] == sep then Parts("", s[1..], true)
    else
      var rest := Cut(s[1..], sep);
      Parts([s[0]] + rest.before, rest.after, rest.found)
  }

  /** The cut is at the first separator. */
  lemma {:induction false} CutAt(a: string, sep: char, b: string)
    requires sep !in a
    ensures Cut(a + [sep] + b, sep) == Parts(a, b, true)
  {
    var s := a + [sep] + b;
    if a == "" {
      assert s[1..] == b;
    } else {
      assert s[1..] == a[1..] + [sep] + b;
      CutAt(a[1..], sep, b);
    }
  }

  lemma {:induction false} CutNone(s: string, sep: char)
    requires sep !in s
    ensures Cut(s, sep) == Parts(s, "", false)
  {
    if s != "" { CutNone(s[1..], sep); }
  }

  /** `strings.Split` */
  function Split(s: string, sep: char): (r: seq<string>)
    ensures |r| >= 1
    decreases |s|
  {
    var p := Cut(s, sep);
    if p.found then [p.before] + Split(p.after, sep) else [s]
  }

  function Join(parts: seq<string>, sep: char): string {
    if parts == [] then ""
    else if |parts| == 1 then parts[0]
    else parts[0] + [sep] + Join(parts[1..], sep)
  }

  /** Splitting undoes joining parts that do not contain the separator. */
  lemma {:induction false} SplitJoin(parts: seq<string>, sep: char)
    requires |parts| >= 1 && forall i :: 0 <= i < |parts| ==> sep !in parts[i]
    ensures Split(Join(parts, sep), sep) == parts
  {
    if |parts| == 1 {
      CutNone(parts[0], sep);
    } else {
      CutAt(parts[0], sep, Join(parts[1..], sep));
      SplitJoin(parts[1..], sep);
    }
  }

  /** The number of parts is one more than the number of separators. */
  lemma {:induction false} SplitCount(s: string, sep: char)
    ensures |Split(s, sep)| == Count(s, sep) + 1
    decreases |s|
  {
    hide Cut, Count;
    var p := Cut(s, sep);
    CountOf(p.before, sep);
    if p.found {
      SplitCount(p.after, sep);
      CountConcat(p.before, [sep] + p.after, sep);
      CountNext(sep, p.after);
      assert s == p.before + ([sep] + p.after);
    }
  }

  lemma CountNext(c: char, s: string)
    ensures Count([c] + s, c) == 1 + Count(s, c)
  {
    assert ([c] + s)[1..] == s;
  }

  /** Joining undoes splitting, and no part contains the separator. */
  lemma {:induction false} JoinSplit(s: string, sep: char)
    ensures Join(Split(s, sep), sep) == s
    ensures forall i :: 0 <= i < |Split(s, sep)| ==> sep !in Split(s, sep)[i]
    decreases |s|
  {
    hide Cut;
    var p := Cut(s, sep);
    if p.found {
      JoinSplit(p.after, sep);
      var rest := Split(p.after, sep);
      assert ([p.before] + rest)[1..] == rest;
    }
  }

  function Count(s: string, c: char): nat {
    if s == "" then 0 else (if s[0] == c then 1 else 0) + Count(s[1..], c)
  }

  lemma {:induction false} CountConcat(a: string, b: string, c: char)
    ensures Count(a + b, c) == Count(a, c) + Count(b, c)
  {
    if a == "" {
      assert a + b == b;
    } else {
      assert (a + b)[1..] == a[1..] + b;
      CountConcat(a[1..], b, c);
    }
  }

  lemma {:induction false} CountOf(s: string, c: char)
    ensures Count(s, c) == 0 <==> c !in s
  {
    if s != "" { CountOf(s[1..], c); }
  }

  // ----- strings.TrimLeft and strings.TrimRight of one character

  predicate AllAre(s: string, c: char) {
    forall i :: 0 <= i < |s| ==> s[i] == c
  }

  function TrimLeft(s: string, c: char): (r: string)
    ensures |r| <= |s|
    ensures r == "" || r[0] != c
  {
    if s != "" && s[0] == c then TrimLeft(s[1..], c) else s
  }

  function TrimRight(s: string, c: char): (r: string)
    ensures |r| <= |s|
    ensures r == "" || r[|r| - 1] != c
  {
    if s != "" && s[|s| - 1] == c then TrimRight(s[..|s| - 1], c) else s
  }

  /** Nothing but the character is cut off, on the left. */
  lemma {:induction false} TrimLeftCuts(s: string, c: char) returns (cut: string)
    ensures s == cut + TrimLeft(s, c) && AllAre(cut, c)
  {
    cut := "";
    if s != "" && s[0] == c {
      cut := TrimLeftCuts(s[1..], c);
      cut := [c] + cut;
      assert s == [s[0]] + s[1..];
    }
  }

  /** Nothing but the character is cut off, on the right. */
  lemma {:induction false} TrimRightCuts(s: string, c: char) returns (cut: string)
    ensures s == TrimRight(s, c) + cut && AllAre(cut, c)
  {
    cut := "";
    if s != "" && s[|s| - 1] == c {
      cut := TrimRightCuts(s[..|s| - 1], c);
      cut := cut + [c];
      assert s == s[..|s| - 1] + [s[|s| - 1]];
    }
  }

  // ----- Decimal numbers

  predicate IsDigit(c: char) {
    '0' <= c <= '9'
  }

  function Digit(n: nat): (c: char)
    requires n < 10
    ensures IsDigit(c) && c as int - '0' as int == n
  {
    ('0' as int + n) as char
  }

  /** `strconv.Itoa` of a natural number. */
  function Itoa(n: nat): (s: string)
    ensures |s| > 0 && forall i :: 0 <= i < |s| ==> IsDigit(s[i])
  {
    if n < 10 then [Digit(n)] else Itoa(n / 10) + [Digit(n % 10)]
  }

  /** Decimal printing of an integer, as the `%d` verb. */
  function Decimal(n: int): string {
    if n < 0 then "-" + Itoa(-n) else Itoa(n)
  }

  predicate AllDigits(s: string) {
    forall i :: 0 <= i < |s| ==> IsDigit(s[i])
  }

  function Value(s: string): nat
    requires AllDigits(s)
  {
    if s == "" then 0 else Value(s[..|s| - 1]) * 10 + (s[|s| - 1] as int - '0' as int)
  }

  /** A non-empty run of digits. */
  function ParseNat(s: string): Option<nat> {
    if s != "" && AllDigits(s) then Some(Value(s)) else None
  }

  /** Reading undoes printing. */
  lemma {:induction false} ParseItoa(n: nat)
    ensures ParseNat(Itoa(n)) == Some(n)
  {
    if n >= 10 {
      ParseItoa(n / 10);
      var s := Itoa(n);
      assert s[..|s| - 1] == Itoa(n / 10);
    } else {
      var s := Itoa(n);
      assert s == [Digit(n)] && s[..|s| - 1] == "";
      assert Value(s[..|s| - 1]) == 0;
    }
  }

  lemma ItoaInjective(m: nat, n: nat)
    requires Itoa(m) == Itoa(n)
    ensures m == n
  {
    ParseItoa(m);
    ParseItoa(n);
  }

  /** `strconv.Atoi` on a 64-bit platform. */
  function Atoi(s: string): Option<int> {
    var signed := s != "" && s[0] in {'-', '+'};
    var digits := ParseNat(if signed then s[1..] else s);
    if digits.None? then None
    else
      var v: int := digits.value;
      var n := if signed && s[0] == '-' then 0 - v else v;
      if -0x8000_0000_0000_0000 <= n < 0x8000_0000_0000_0000 then Some(n) else None
  }

  /** A sign is read, and a number that does not fit is refused. */
  lemma AtoiSigned(n: nat)
    ensures Atoi(Itoa(n)) == Atoi("+" + Itoa(n)) == (if n < 0x8000_0000_0000_0000 then Some(n) else None)
    ensures Atoi("-" + Itoa(n)).Some? <==> n <= 0x8000_0000_0000_0000
    ensures Atoi("-" + Itoa(n)).Some? ==> Atoi("-" + Itoa(n)).value == 0 - n
  {
    ParseItoa(n);
    assert ("+" + Itoa(n))[1..] == Itoa(n) == ("-" + Itoa(n))[1..];
    assert IsDigit(Itoa(n)[0]);
  }

  /** Nothing but digits after at most one sign is read. */
  lemma AtoiNeedsDigits(s: string)
    ensures Atoi(s).Some? ==>
              var digits := if s != "" && s[0] in {'-', '+'} then s[1..] else s;
              digits != "" && AllDigits(digits)
  {
  }
}
