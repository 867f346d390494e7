/** Well-formed UTF-8 in byte strings, and `strings.ToValidUTF8` with an empty replacement. */
module Utf8 {

  predicate InRange(c: char, lo: int, hi: int) {
    lo <= c as int <= hi
  }

  predicate IsContinuation(c: char) {
    InRange(c, 0x80, 0xBF)
  }

  /** The second byte that a three- or four-byte sequence may have after its first byte. */
  predicate IsSecond(first: char, second: char) {
    match first as int
    case 0xE0 => InRange(second, 0xA0, 0xBF)
    case 0xED => InRange(second, 0x80, 0x9F)
    case 0xF0 => InRange(second, 0x90, 0xBF)
    case 0xF4 => InRange(second, 0x80, 0x8F)
    case _ => IsContinuation(second)
  }

  /** The length a first byte announces; zero if no sequence starts with it. */
  function Announced(c: char): (n: nat)
    ensures n <= 4
  {
    if InRange(c, 0, 0x7F) then 1
    else if InRange(c, 0xC2, 0xDF) then 2
    else if InRange(c, 0xE0, 0xEF) then 3
    else if InRange(c, 0xF0, 0xF4) then 4
    else 0
  }

  /** The length of the well-formed sequence the string starts with; zero if it starts with none. */
  function RuneLength(s: string): (n: nat)
    ensures n <= |s| && n <= 4
    ensures s == "" ==> n == 0
  {
    if s == "" then 0
    else
      var n := Announced(s[0]);
      if && n <= |s|
         && (n >= 2 ==> IsSecond(s[0], s[1]))
         && (n >= 3 ==> IsContinuation(s[2]))
         && (n >= 4 ==> IsContinuation(s[3]))
      then n else 0
  }

  predicate IsValid(s: string) {
    s == "" || (RuneLength(s) > 0 && IsValid(s[RuneLength(s)..]))
  }

  /** `strings.ToValidUTF8(s, "")`: bytes that belong to no well-formed sequence are dropped. */
  function ToValid(s: string): (r: string)
    ensures |r| <= |s|
  {
    if s == "" then ""
    else if RuneLength(s) == 0 then ToValid(s[1..])
    else s[..RuneLength(s)] + ToValid(s[RuneLength(s)..])
  }

  lemma {:induction false} ToValidIsValid(s: string)
    ensures IsValid(ToValid(s))
  {
    if s != "" {
      var n := RuneLength(s);
      if n == 0 {
        ToValidIsValid(s[1..]);
      } else {
        ToValidIsValid(s[n..]);
        var r := ToValid(s);
        assert r[..n] == s[..n] && r[n..] == ToValid(s[n..]);
      }
    }
  }

  lemma {:induction false} ValidIsKept(s: string)
    requires IsValid(s)
    ensures ToValid(s) == s
  {
    if s != "" {
      var n := RuneLength(s);
      ValidIsKept(s[n..]);
      assert s == s[..n] + s[n..];
    }
  }

  /** A continuation byte starts no sequence. */
  lemma {:induction false} ContinuationsAreDropped(s: string)
    requires forall i :: 0 <= i < |s| ==> IsContinuation(s[i])
    ensures ToValid(s) == ""
  {
    if s != "" { ContinuationsAreDropped(s[1..]); }
  }

  lemma SequenceTail(s: string, i: nat)
    requires 0 < i < RuneLength(s)
    ensures IsContinuation(s[i])
  {
  }

  /** A sequence is recognised by its own bytes alone, and only when all of them are there. */
  lemma RuneOfPrefix(s: string, k: nat)
    requires 0 < k <= |s|
    ensures RuneLength(s) > 0 ==> RuneLength(s[..k]) == if RuneLength(s) <= k then RuneLength(s) else 0
  {
    hide IsSecond, InRange, IsContinuation;
    var cut := s[..k];
    assert cut[0] == s[0];
    assert k > 1 ==> cut[1] == s[1];
    assert k > 2 ==> cut[2] == s[2];
    assert k > 3 ==> cut[3] == s[3];
  }

  lemma SplitSequenceIsDropped(s: string, k: nat)
    requires 0 < k < RuneLength(s)
    ensures ToValid(s[..k]) == ""
  {
    RuneOfPrefix(s, k);
    hide IsSecond, InRange, IsContinuation, Announced, RuneLength;
    var rest := s[..k][1..];
    forall i | 0 <= i < |rest| ensures IsContinuation(rest[i]) { SequenceTail(s, i + 1); }
    ContinuationsAreDropped(rest);
  }

  lemma ToValidStep(s: string, n: nat, k: nat)
    requires 0 < n == RuneLength(s) <= k <= |s|
    ensures ToValid(s[..k]) == s[..n] + ToValid(s[n..][..k - n])
  {
    RuneOfPrefix(s, k);
    hide RuneLength;
    var cut := s[..k];
    assert cut[..n] == s[..n] && cut[n..] == s[n..][..k - n];
  }

  lemma ValidStep(s: string, n: nat, m: nat)
    requires 0 < n == RuneLength(s) <= m <= |s| && IsValid(s[n..][..m - n])
    ensures IsValid(s[..m])
  {
    RuneOfPrefix(s, m);
    hide RuneLength;
    assert s[..m][n..] == s[n..][..m - n];
  }

  lemma PrefixAround(s: string, n: nat, m: nat)
    requires n + m <= |s|
    ensures s[..n] + s[n..][..m] == s[..n + m]
  {
  }

  /** Cutting valid text anywhere and making it valid again leaves a valid prefix that lacks at most the
      three bytes of a sequence cut in two. */
  lemma {:induction false} CutThenValid(s: string, k: nat) returns (m: nat)
    requires IsValid(s) && k <= |s|
    ensures m <= k <= m + 3 && ToValid(s[..k]) == s[..m] && IsValid(s[..m])
  {
    hide RuneLength, ToValid;
    m := 0;
    if k == 0 {
      NothingToDrop();
    } else {
      var n := RuneLength(s);
      if n <= k {
        var rest := CutThenValid(s[n..], k - n);
        m := n + rest;
        ToValidStep(s, n, k);
        PrefixAround(s, n, rest);
        ValidStep(s, n, m);
      } else {
        SplitSequenceIsDropped(s, k);
      }
    }
  }

  lemma NothingToDrop()
    ensures ToValid("") == ""
  {
  }

  // ----- Sequences and code points

  /** A code point that UTF-8 can write: section 3 of RFC 3629. */
  predicate IsScalar(n: nat) {
    n < 0x11_0000 && !(0xD800 <= n <= 0xDFFF)
  }

  function Encode(n: nat): string
    requires IsScalar(n)
  {
    if n < 0x80 then [n as char]
    else if n < 0x800 then [(0xC0 + n / 64) as char, (0x80 + n % 64) as char]
    else if n < 0x1_0000 then [(0xE0 + n / 4096) as char, (0x80 + n / 64 % 64) as char, (0x80 + n % 64) as char]
    else
      [(0xF0 + n / 262144) as char, (0x80 + n / 4096 % 64) as char,
       (0x80 + n / 64 % 64) as char, (0x80 + n % 64) as char]
  }

  lemma Divisions(n: nat)
    ensures n / 64 / 64 == n / 4096 && n / 4096 / 64 == n / 262144
  {
  }

  /** Every code point is one sequence, whatever follows it. */
  lemma EncodedIsRune(n: nat, rest: string)
    requires IsScalar(n)
    ensures RuneLength(Encode(n) + rest) == |Encode(n)|
  {
    Divisions(n);
    var e := Encode(n);
    var s := e + rest;
    assert forall i :: 0 <= i < |e| ==> s[i] == e[i];
  }

  lemma TwoBytes(a: char, b: char) returns (n: nat)
    requires InRange(a, 0xC2, 0xDF) && IsContinuation(b)
    ensures IsScalar(n) && Encode(n) == [a, b]
  {
    n := (a as int - 0xC0) * 64 + (b as int - 0x80);
    assert n / 64 == a as int - 0xC0 && n % 64 == b as int - 0x80;
  }

  lemma ThreeBytes(a: char, b: char, c: char) returns (n: nat)
    requires InRange(a, 0xE0, 0xEF) && IsSecond(a, b) && IsContinuation(c)
    ensures IsScalar(n) && Encode(n) == [a, b, c]
  {
    var high := (a as int - 0xE0) * 64 + (b as int - 0x80);
    n := high * 64 + (c as int - 0x80);
    assert n / 64 == high && n % 64 == c as int - 0x80;
    assert high / 64 == a as int - 0xE0 && high % 64 == b as int - 0x80;
    Divisions(n);
  }

  lemma FourBytes(a: char, b: char, c: char, d: char) returns (n: nat)
    requires InRange(a, 0xF0, 0xF4) && IsSecond(a, b) && IsContinuation(c) && IsContinuation(d)
    ensures IsScalar(n) && Encode(n) == [a, b, c, d]
  {
    var top := (a as int - 0xF0) * 64 + (b as int - 0x80);
    var high := top * 64 + (c as int - 0x80);
    n := high * 64 + (d as int - 0x80);
    assert n / 64 == high && n % 64 == d as int - 0x80;
    assert high / 64 == top && high % 64 == c as int - 0x80;
    assert top / 64 == a as int - 0xF0 && top % 64 == b as int - 0x80;
    Divisions(n);
  }

  /** Every sequence that is recognised is the encoding of a code point. */
  lemma RuneIsEncoded(s: string) returns (n: nat)
    requires RuneLength(s) > 0
    ensures IsScalar(n) && Encode(n) == s[..RuneLength(s)]
  {
    var length := RuneLength(s);
    hide IsSecond;
    if length == 1 {
      n := s[0] as int;
      assert s[..1] == [s[0]];
    } else if length == 2 {
      SecondIsContinuation(s[0], s[1]);
      n := TwoBytes(s[0], s[1]);
      assert s[..2] == [s[0], s[1]];
    } else if length == 3 {
      n := ThreeBytes(s[0], s[1], s[2]);
      assert s[..3] == [s[0], s[1], s[2]];
    } else {
      n := FourBytes(s[0], s[1], s[2], s[3]);
      assert s[..4] == [s[0], s[1], s[2], s[3]];
    }
  }

  lemma SecondIsContinuation(first: char, second: char)
    requires IsSecond(first, second)
    ensures IsContinuation(second)
  {
  }

  // ----- Text as runes

  /** The runes of a string, as ranging over it gives them: well-formed sequences, and bytes that belong to none. */
  function Runes(s: string): seq<string> {
    if s == "" then []
    else
      var n := if RuneLength(s) == 0 then 1 else RuneLength(s);
      [s[..n]] + Runes(s[n..])
  }

  function Concat(parts: seq<string>): string {
    if parts == [] then "" else parts[0] + Concat(parts[1..])
  }

  lemma {:induction false} RunesAreTheText(s: string)
    ensures Concat(Runes(s)) == s
    ensures forall r :: r in Runes(s) ==> |r| == 1 || RuneLength(r) == |r|
  {
    hide RuneLength;
    if s != "" {
      var n := if RuneLength(s) == 0 then 1 else RuneLength(s);
      RunesAreTheText(s[n..]);
      assert Runes(s)[1..] == Runes(s[n..]);
      assert s == s[..n] + s[n..];
      if RuneLength(s) > 0 { RuneOfPrefix(s, n); }
      assert |s[..n]| == n;
    }
  }

  function WellFormed(parts: seq<string>): seq<string> {
    if parts == [] then []
    else (if RuneLength(parts[0]) > 0 then [parts[0]] else []) + WellFormed(parts[1..])
  }

  /** Making text valid keeps exactly its well-formed sequences, in order. */
  lemma {:induction false} ToValidKeepsRunes(s: string)
    ensures ToValid(s) == Concat(WellFormed(Runes(s)))
  {
    hide RuneLength;
    if s != "" {
      var n := if RuneLength(s) == 0 then 1 else RuneLength(s);
      ToValidKeepsRunes(s[n..]);
      assert Runes(s)[1..] == Runes(s[n..]);
      var rest := WellFormed(Runes(s[n..]));
      if RuneLength(s) > 0 {
        RuneOfPrefix(s, n);
        assert ([s[..n]] + rest)[1..] == rest;
      } else {
        LoneByte(s);
        assert [] + rest == rest;
      }
    }
  }

  /** A byte that starts no sequence is none by itself. */
  lemma LoneByte(s: string)
    requires s != "" && RuneLength(s) == 0
    ensures RuneLength(s[..1]) == 0
  {
    assert s[..1][0] == s[0];
  }
}
