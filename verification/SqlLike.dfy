/** The lookup of stored resource names by a `LIKE` pattern: `GetResourceCount` of object/resource.go with
    `GetSession` of object/ormer_session.go. */
module SqlLike {
  import opened Text

  /** How the database matches: which characters it takes for the same, and whether a backslash in a pattern
      escapes the next character, as in MySQL and PostgreSQL but not in SQLite. */
  datatype Database = Database(same: (char, char) -> bool, escapes: bool)

  predicate Reflexive(db: Database) {
    forall c :: db.same(c, c)
  }

  /** A backslash in a name is taken for nothing but a backslash. */
  predicate BackslashIsItself(db: Database) {
    forall c :: db.same('\\', c) ==> c == '\\'
  }

  /** SQL `LIKE` without an `ESCAPE` clause. */
  predicate Like(db: Database, name: string, pattern: string)
    decreases |pattern|, |name|
  {
    if pattern == "" then name == ""
    else if db.escapes && pattern[0] == '\\' && |pattern| > 1 then
      name != "" && db.same(name[0], pattern[1]) && Like(db, name[1..], pattern[2..])
    else if pattern[0] == '%' then
      Like(db, name, pattern[1..]) || (name != "" && Like(db, name[1..], pattern))
    else
      name != "" && (pattern[0] == '_' || db.same(name[0], pattern[0])) && Like(db, name[1..], pattern[1..])
  }

  /** The stored name is among those that `GetResourceCount(owner, user, "name", key)` counts. */
  predicate Matches(db: Database, name: string, key: string) {
    Like(db, name, "%" + key + "%")
  }

  predicate IsCounted(db: Database, names: set<string>, key: string) {
    exists name :: name in names && Matches(db, name, key)
  }

  // ----- Every digit of a pattern takes a character of the name

  function Digits(s: string): nat {
    if s == "" then 0 else (if IsDigit(s[0]) then 1 else 0) + Digits(s[1..])
  }

  lemma {:induction false} DigitsOver(a: string, b: string)
    ensures Digits(a + b) == Digits(a) + Digits(b)
  {
    if a == "" {
      assert a + b == b;
    } else {
      assert (a + b)[1..] == a[1..] + b;
      DigitsOver(a[1..], b);
    }
  }

  lemma {:induction false} AllAreDigits(s: string)
    requires AllDigits(s)
    ensures Digits(s) == |s|
  {
    if s != "" { AllAreDigits(s[1..]); }
  }

  /** Every digit of a pattern takes a character of the name. */
  lemma {:induction false} LikeNeedsLength(db: Database, name: string, pattern: string)
    requires Like(db, name, pattern)
    ensures Digits(pattern) <= |name|
    decreases |pattern|, |name|
  {
    if pattern != "" {
      if db.escapes && pattern[0] == '\\' && |pattern| > 1 {
        LikeNeedsLength(db, name[1..], pattern[2..]);
        assert pattern[1..][1..] == pattern[2..];
      } else if pattern[0] == '%' {
        if Like(db, name, pattern[1..]) { LikeNeedsLength(db, name, pattern[1..]); }
        else { LikeNeedsLength(db, name[1..], pattern); }
      } else {
        LikeNeedsLength(db, name[1..], pattern[1..]);
      }
    }
  }

  // ----- Names that contain the key

  /** No character of the key is an escape to the database. */
  predicate HasNoEscape(db: Database, key: string) {
    db.escapes ==> '\\' !in key
  }

  lemma {:induction false} LikeAnything(db: Database, name: string)
    ensures Like(db, name, "%")
  {
    if name != "" { LikeAnything(db, name[1..]); } else { assert Like(db, name, "%"[1..]); }
  }

  lemma {:induction false} LikeBeginning(db: Database, key: string, rest: string)
    requires Reflexive(db) && HasNoEscape(db, key)
    ensures Like(db, key + rest, key + "%")
  {
    var name, pattern := key + rest, key + "%";
    if key == "" {
      assert name == rest && pattern == "%";
      LikeAnything(db, rest);
    } else {
      assert name[1..] == key[1..] + rest && pattern[1..] == key[1..] + "%";
      LikeBeginning(db, key[1..], rest);
      if key[0] == '%' { assert Like(db, name[1..], pattern); }
    }
  }

  lemma {:induction false} LikeFrom(db: Database, name: string, i: nat, pattern: string)
    requires i <= |name| && Like(db, name[i..], pattern)
    ensures Like(db, name, "%" + pattern)
  {
    var p := "%" + pattern;
    assert p[1..] == pattern;
    if i == 0 {
      assert name[i..] == name;
    } else {
      assert name[i..] == name[1..][i - 1..];
      LikeFrom(db, name[1..], i - 1, pattern);
    }
  }

  lemma ContainedMatches(db: Database, before: string, key: string, after: string)
    requires Reflexive(db) && HasNoEscape(db, key)
    ensures Matches(db, before + key + after, key)
  {
    hide Like, Reflexive, HasNoEscape;
    var name := before + key + after;
    LikeBeginning(db, key, after);
    assert name[|before|..] == key + after;
    LikeFrom(db, name, |before|, key + "%");
    assert "%" + (key + "%") == "%" + key + "%";
  }

  /** A stored name that contains a key without an escape character is counted. */
  lemma ContainedIsCounted(db: Database, names: set<string>, before: string, key: string, after: string)
    requires Reflexive(db) && HasNoEscape(db, key)
    requires before + key + after in names
    ensures IsCounted(db, names, key)
  {
    ContainedMatches(db, before, key, after);
  }

  // ----- What a pattern matches

  /** What a pattern asks for: a character, any one character, or any run of characters. */
  datatype Piece = Lit(c: char) | One | Many

  function Pieces(db: Database, pattern: string): seq<Piece> {
    if pattern == "" then []
    else if db.escapes && pattern[0] == '\\' && |pattern| > 1 then [Lit(pattern[1])] + Pieces(db, pattern[2..])
    else
      [if pattern[0] == '%' then Many else if pattern[0] == '_' then One else Lit(pattern[0])]
      + Pieces(db, pattern[1..])
  }

  /** The piece takes the characters of the name from `i` up to `j`. */
  predicate Takes(db: Database, p: Piece, name: string, i: nat, j: nat) {
    && i <= j <= |name|
    && (!p.Many? ==> j == i + 1)
    && (p.Lit? ==> i < |name| && db.same(name[i], p.c))
  }

  /** The pieces take the name from `i` on, the `k`-th from `at[k]` up to `at[k + 1]`. */
  predicate Placed(db: Database, ps: seq<Piece>, name: string, i: nat, at: seq<nat>) {
    && |at| == |ps| + 1 && at[0] == i && at[|ps|] == |name|
    && forall k :: 0 <= k < |ps| ==> Takes(db, ps[k], name, at[k], at[k + 1])
  }

  lemma PlacedCons(db: Database, p: Piece, ps: seq<Piece>, name: string, i: nat, j: nat, at: seq<nat>)
    requires Takes(db, p, name, i, j) && Placed(db, ps, name, j, at)
    ensures Placed(db, [p] + ps, name, i, [i] + at)
  {
    var ps', at' := [p] + ps, [i] + at;
    forall k | 0 <= k < |ps'| ensures Takes(db, ps'[k], name, at'[k], at'[k + 1]) {
      if k > 0 { assert ps'[k] == ps[k - 1] && at'[k] == at[k - 1] && at'[k + 1] == at[k]; }
    }
  }

  lemma PlacedTail(db: Database, p: Piece, ps: seq<Piece>, name: string, i: nat, at: seq<nat>)
    requires Placed(db, [p] + ps, name, i, at)
    ensures Takes(db, p, name, i, at[1]) && Placed(db, ps, name, at[1], at[1..])
  {
    var ps' := [p] + ps;
    assert Takes(db, ps'[0], name, at[0], at[0 + 1]);
    forall k | 0 <= k < |ps| ensures Takes(db, ps[k], name, at[1..][k], at[1..][k + 1]) {
      assert Takes(db, ps'[k + 1], name, at[k + 1], at[k + 1 + 1]) && ps'[k + 1] == ps[k];
    }
  }

  /** A pattern that begins with a wildcard matches from some position on. */
  lemma {:induction false} LikeSomewhere(db: Database, name: string, pattern: string) returns (i: nat)
    requires Like(db, name, "%" + pattern)
    ensures i <= |name| && Like(db, name[i..], pattern)
    decreases |name|
  {
    var p := "%" + pattern;
    assert p[1..] == pattern;
    i := 0;
    assert name[0..] == name;
    if !Like(db, name, pattern) {
      i := LikeSomewhere(db, name[1..], pattern);
      assert name[1..][i..] == name[i + 1..];
      i := i + 1;
    }
  }

  lemma {:induction false} LikeHasPlaces(db: Database, name: string, i: nat, pattern: string) returns (at: seq<nat>)
    requires i <= |name| && Like(db, name[i..], pattern)
    ensures Placed(db, Pieces(db, pattern), name, i, at)
    decreases |pattern|
  {
    hide Placed;
    if pattern == "" {
      at := [i];
      assert Placed(db, [], name, i, at) by { NothingIsPlaced(db, name, i); }
    } else if db.escapes && pattern[0] == '\\' && |pattern| > 1 {
      assert name[i..][1..] == name[i + 1..];
      at := LikeHasPlaces(db, name, i + 1, pattern[2..]);
      PlacedCons(db, Lit(pattern[1]), Pieces(db, pattern[2..]), name, i, i + 1, at);
      at := [i] + at;
    } else if pattern[0] == '%' {
      assert pattern == "%" + pattern[1..];
      var k := LikeSomewhere(db, name[i..], pattern[1..]);
      assert name[i..][k..] == name[i + k..];
      at := LikeHasPlaces(db, name, i + k, pattern[1..]);
      PlacedCons(db, Many, Pieces(db, pattern[1..]), name, i, i + k, at);
      at := [i] + at;
    } else {
      assert name[i..][1..] == name[i + 1..];
      at := LikeHasPlaces(db, name, i + 1, pattern[1..]);
      PlacedCons(db, Pieces(db, pattern)[0], Pieces(db, pattern[1..]), name, i, i + 1, at);
      at := [i] + at;
    }
  }

  lemma NothingIsPlaced(db: Database, name: string, i: nat)
    requires i == |name|
    ensures Placed(db, [], name, i, [i])
  {
  }

  lemma {:induction false} PlacesAreLike(db: Database, name: string, i: nat, pattern: string, at: seq<nat>)
    requires i <= |name| && Placed(db, Pieces(db, pattern), name, i, at)
    ensures Like(db, name[i..], pattern)
    decreases |pattern|
  {
    if pattern != "" {
      var rest := if db.escapes && pattern[0] == '\\' && |pattern| > 1 then pattern[2..] else pattern[1..];
      PlacedTail(db, Pieces(db, pattern)[0], Pieces(db, rest), name, i, at);
      hide Placed;
      PlacesAreLike(db, name, at[1], rest, at[1..]);
      assert name[at[1]..] == name[i..][at[1] - i..];
      if Pieces(db, pattern)[0].Many? {
        assert pattern == "%" + pattern[1..];
        LikeFrom(db, name[i..], at[1] - i, rest);
      }
    }
  }

  /** The pieces of the pattern can be laid along the name from end to end. */
  ghost predicate IsLaid(db: Database, name: string, pattern: string) {
    exists at :: Placed(db, Pieces(db, pattern), name, 0, at)
  }

  /** A pattern matches a name exactly when its pieces can be laid along the name from end to end. */
  lemma LikeMeansPlaced(db: Database, name: string, pattern: string)
    ensures Like(db, name, pattern) <==> IsLaid(db, name, pattern)
  {
    hide Like, Placed, Pieces;
    assert name[0..] == name;
    if Like(db, name, pattern) { var at := LikeHasPlaces(db, name, 0, pattern); }
    if IsLaid(db, name, pattern) {
      var at :| Placed(db, Pieces(db, pattern), name, 0, at);
      PlacesAreLike(db, name, 0, pattern, at);
    }
  }

  /** A stored key is always counted exactly when the pieces of its own pattern can be laid along it. */
  lemma StoredKeyIsCountedExactly(db: Database, key: string)
    ensures (forall names :: key in names ==> IsCounted(db, names, key)) <==> IsLaid(db, key, "%" + key + "%")
  {
    hide Like, IsLaid;
    LikeMeansPlaced(db, key, "%" + key + "%");
    if !Matches(db, key, key) { assert key in {key} && !IsCounted(db, {key}, key); }
  }

  // ----- Keys without wildcards

  /** Every wildcard of the key is escaped. */
  predicate IsLiteral(db: Database, key: string) {
    key == "" ||
    if db.escapes && key[0] == '\\' then |key| == 1 || IsLiteral(db, key[2..])
    else key[0] != '%' && key[0] != '_' && IsLiteral(db, key[1..])
  }

  /** The last character of the key escapes the closing wildcard of the pattern. */
  predicate Dangles(db: Database, key: string) {
    key != "" &&
    if db.escapes && key[0] == '\\' then |key| == 1 || Dangles(db, key[2..]) else Dangles(db, key[1..])
  }

  /** The text a literal key stands for. */
  function Resolved(db: Database, key: string): string {
    if key == "" then ""
    else if db.escapes && key[0] == '\\' then if |key| == 1 then "%" else [key[1]] + Resolved(db, key[2..])
    else [key[0]] + Resolved(db, key[1..])
  }

  /** The name begins with the text, as the database compares characters. */
  predicate StartsLike(db: Database, name: string, text: string) {
    |text| <= |name| && forall i :: 0 <= i < |text| ==> db.same(name[i], text[i])
  }

  predicate ContainsLike(db: Database, name: string, text: string) {
    exists i :: 0 <= i <= |name| && StartsLike(db, name[i..], text)
  }

  predicate EndsLike(db: Database, name: string, text: string) {
    |text| <= |name| && StartsLike(db, name[|name| - |text|..], text)
  }

  lemma StartsStep(db: Database, name: string, c: char, text: string)
    ensures StartsLike(db, name, [c] + text) <==> name != "" && db.same(name[0], c) && StartsLike(db, name[1..], text)
  {
    var whole := [c] + text;
    if name != "" && db.same(name[0], c) && StartsLike(db, name[1..], text) {
      forall i | 0 <= i < |whole| ensures db.same(name[i], whole[i]) {
        if i > 0 { assert name[i] == name[1..][i - 1] && whole[i] == text[i - 1]; }
      }
    }
    if StartsLike(db, name, whole) {
      assert db.same(name[0], whole[0]);
      forall i | 0 <= i < |text| ensures db.same(name[1..][i], text[i]) {
        assert db.same(name[i + 1], whole[i + 1]);
      }
    }
  }

  lemma {:induction false} LikeLiteral(db: Database, name: string, key: string)
    requires IsLiteral(db, key)
    ensures Like(db, name, key + "%") <==>
            StartsLike(db, name, Resolved(db, key)) && (Dangles(db, key) ==> |name| == |Resolved(db, key)|)
  {
    hide StartsLike;
    var pattern := key + "%";
    if key == "" {
      assert pattern == "%";
      LikeAnything(db, name);
      assert StartsLike(db, name, "") by { StartsEmpty(db, name); }
    } else if db.escapes && key[0] == '\\' {
      if |key| == 1 {
        assert pattern[1] == '%' && pattern[2..] == "";
        StartsStep(db, name, '%', "");
        if name != "" { StartsEmpty(db, name[1..]); }
        assert "%" == ['%'] + "";
      } else {
        assert pattern[1] == key[1] && pattern[2..] == key[2..] + "%";
        StartsStep(db, name, key[1], Resolved(db, key[2..]));
        if name != "" { LikeLiteral(db, name[1..], key[2..]); }
      }
    } else {
      assert pattern[1..] == key[1..] + "%";
      StartsStep(db, name, key[0], Resolved(db, key[1..]));
      if name != "" { LikeLiteral(db, name[1..], key[1..]); }
    }
  }

  lemma StartsEmpty(db: Database, name: string)
    ensures StartsLike(db, name, "")
  {
  }

  /** The name has the text of a literal key in it, or ends with it if the key's last character is an
      escape. */
  predicate Holds(db: Database, name: string, key: string) {
    if Dangles(db, key) then EndsLike(db, name, Resolved(db, key)) else ContainsLike(db, name, Resolved(db, key))
  }

  /** A literal key finds exactly the names that hold the text it stands for. */
  lemma LookupOfLiteral(db: Database, name: string, key: string)
    requires IsLiteral(db, key)
    ensures Matches(db, name, key) <==> Holds(db, name, key)
  {
    hide Like, IsLiteral, Dangles, Resolved, StartsLike;
    assert "%" + key + "%" == "%" + (key + "%");
    var text := Resolved(db, key);
    if Matches(db, name, key) {
      var i := LikeSomewhere(db, name, key + "%");
      LikeLiteral(db, name[i..], key);
      assert Dangles(db, key) ==> i == |name| - |text|;
    }
    if Holds(db, name, key) {
      var i: nat;
      if Dangles(db, key) { i := |name| - |text|; }
      else { i :| 0 <= i <= |name| && StartsLike(db, name[i..], text); }
      LikeLiteral(db, name[i..], key);
      LikeFrom(db, name, i, key + "%");
    }
  }

  lemma {:induction false} DanglingEnds(db: Database, key: string)
    requires Dangles(db, key)
    ensures key[|key| - 1] == '\\'
    ensures Resolved(db, key) != "" && Resolved(db, key)[|Resolved(db, key)| - 1] == '%'
  {
    if db.escapes && key[0] == '\\' {
      if |key| > 1 { DanglingEnds(db, key[2..]); }
    } else {
      DanglingEnds(db, key[1..]);
    }
  }

  /** A literal key that is stored is always counted, exactly when it does not end in an escape and the text it
      stands for occurs in it. */
  lemma LiteralKeyIsCountedExactly(db: Database, key: string)
    requires BackslashIsItself(db) && IsLiteral(db, key)
    ensures (forall names :: key in names ==> IsCounted(db, names, key)) <==>
            !Dangles(db, key) && ContainsLike(db, key, Resolved(db, key))
  {
    hide Matches, IsLiteral, Dangles, Resolved;
    LookupOfLiteral(db, key, key);
    if Dangles(db, key) {
      DanglingEnds(db, key);
      var text := Resolved(db, key);
      if |text| <= |key| { assert key[|key| - |text|..][|text| - 1] == '\\' && text[|text| - 1] == '%'; }
    }
    if !Matches(db, key, key) { assert key in {key} && !IsCounted(db, {key}, key); }
  }

  // ----- When the lookup means what it is used for

  /** No character of the key means anything but itself to the database. */
  predicate IsPlain(db: Database, key: string) {
    '%' !in key && '_' !in key && HasNoEscape(db, key)
  }

  lemma {:induction false} PlainIsLiteral(db: Database, key: string)
    requires IsPlain(db, key)
    ensures IsLiteral(db, key) && !Dangles(db, key) && Resolved(db, key) == key
  {
    if key != "" { PlainIsLiteral(db, key[1..]); }
  }

  /** A shortest name that a key finds. */
  function Shortest(db: Database, key: string): (name: string)
    ensures |name| <= |key|
    ensures name == key ==> IsPlain(db, key)
  {
    if key == "" then ""
    else if db.escapes && key[0] == '\\' then if |key| == 1 then "%" else [key[1]] + Shortest(db, key[2..])
    else if key[0] == '%' then Shortest(db, key[1..])
    else
      var rest := Shortest(db, key[1..]);
      assert [key[0]] + key[1..] == key;
      if key[0] == '_' then "x" + rest else [key[0]] + rest
  }

  lemma {:induction false} ShortestIsFound(db: Database, key: string)
    requires Reflexive(db)
    ensures Like(db, Shortest(db, key), key + "%")
  {
    var name, pattern := Shortest(db, key), key + "%";
    if key == "" {
      LikeAnything(db, "");
      assert pattern == "%";
    } else if db.escapes && key[0] == '\\' {
      if |key| == 1 {
        assert pattern[2..] == "" && name[1..] == "";
      } else {
        assert pattern[2..] == key[2..] + "%" && name[1..] == Shortest(db, key[2..]);
        ShortestIsFound(db, key[2..]);
      }
    } else {
      assert pattern[1..] == key[1..] + "%";
      assert key[0] != '%' ==> name[1..] == Shortest(db, key[1..]);
      ShortestIsFound(db, key[1..]);
    }
  }

  predicate Contains(s: string, part: string) {
    exists i :: 0 <= i <= |s| && part <= s[i..]
  }

  /** The database takes no other character for one of the key's. */
  predicate IsDistinct(db: Database, key: string) {
    forall i, c :: 0 <= i < |key| && db.same(c, key[i]) ==> c == key[i]
  }

  lemma DistinctIsContained(db: Database, name: string, key: string)
    requires Reflexive(db) && IsDistinct(db, key)
    ensures ContainsLike(db, name, key) <==> Contains(name, key)
  {
    forall i | 0 <= i <= |name| ensures StartsLike(db, name[i..], key) <==> key <= name[i..] {
      if StartsLike(db, name[i..], key) {
        forall k | 0 <= k < |key| ensures key[k] == name[i..][k] { assert db.same(name[i..][k], key[k]); }
      }
    }
  }

  lemma PlainFinds(db: Database, name: string, key: string)
    requires IsPlain(db, key)
    ensures Matches(db, name, key) <==> ContainsLike(db, name, key)
  {
    hide Like, IsLiteral, Dangles, Resolved, ContainsLike, IsPlain;
    PlainIsLiteral(db, key);
    LookupOfLiteral(db, name, key);
  }

  /** A key with a wildcard or an escape finds a name that does not contain it. */
  lemma NotPlainFindsAnother(db: Database, key: string) returns (name: string)
    requires Reflexive(db) && !IsPlain(db, key)
    ensures Matches(db, name, key) && !Contains(name, key)
  {
    hide Like, IsPlain;
    name := Shortest(db, key);
    ShortestIsFound(db, key);
    assert name[0..] == name;
    LikeFrom(db, name, 0, key + "%");
    assert "%" + (key + "%") == "%" + key + "%";
  }

  /** A key with a character that the database takes another one for finds a name that does not contain it. */
  lemma NotDistinctFindsAnother(db: Database, key: string) returns (name: string)
    requires Reflexive(db) && IsPlain(db, key) && !IsDistinct(db, key)
    ensures Matches(db, name, key) && !Contains(name, key)
  {
    hide Like, IsPlain, Matches;
    var i, c :| 0 <= i < |key| && db.same(c, key[i]) && c != key[i];
    name := key[i := c];
    assert name[0..] == name && StartsLike(db, name, key);
    PlainFinds(db, name, key);
  }

  /** The lookup counts exactly the names that contain the key, if and only if no character of the key is a
      wildcard or an escape and the database takes no other character for one of them. */
  lemma LookupMeansContainsExactly(db: Database, key: string)
    requires Reflexive(db)
    ensures (forall name :: Matches(db, name, key) <==> Contains(name, key))
            <==> IsPlain(db, key) && IsDistinct(db, key)
  {
    hide Matches, IsPlain, IsDistinct, Contains, ContainsLike, Reflexive;
    if !IsPlain(db, key) {
      var name := NotPlainFindsAnother(db, key);
    } else if !IsDistinct(db, key) {
      var name := NotDistinctFindsAnother(db, key);
    } else {
      forall name ensures Matches(db, name, key) <==> Contains(name, key) {
        PlainFinds(db, name, key);
        DistinctIsContained(db, name, key);
      }
    }
  }

  function Lower(c: char): char {
    if 'A' <= c <= 'Z' then c + ('a' - 'A') else c
  }

  /** A database that ignores case and escapes with a backslash, as MySQL does with the collation that
      object/ormer.go gives it. */
  const CASE_FOLDING := Database((a, b) => Lower(a) == Lower(b), true)

  /** Ignoring case leaves the backslash to itself, but makes every key with a letter find other names too. */
  lemma CaseFolding(key: string, i: nat)
    requires i < |key| && 'a' <= Lower(key[i]) <= 'z'
    ensures Reflexive(CASE_FOLDING) && BackslashIsItself(CASE_FOLDING)
    ensures !(forall name :: Matches(CASE_FOLDING, name, key) <==> Contains(name, key))
  {
    hide Matches, IsPlain;
    var other := if 'A' <= key[i] <= 'Z' then Lower(key[i]) else key[i] - ('a' - 'A');
    assert CASE_FOLDING.same(other, key[i]) && other != key[i];
    LookupMeansContainsExactly(CASE_FOLDING, key);
  }

  // ----- A key in use that the lookup misses

  /** Where a backslash escapes, a key with one inside is looked up without it, and so is missed. */
  lemma BackslashIsMissed(db: Database, names: set<string>, a: string, b: string)
    requires BackslashIsItself(db) && db.escapes && a != "" && b != "" && IsPlain(db, a) && IsPlain(db, b)
    ensures IsCounted(db, names, a + "\\" + b) <==> exists name :: name in names && ContainsLike(db, name, a + b)
    ensures !ContainsLike(db, a + "\\" + b, a + b)
  {
    hide Matches, Dangles, Resolved, IsLiteral;
    var key := a + "\\" + b;
    ResolvedAround(db, a, b);
    forall name ensures Matches(db, name, key) <==> ContainsLike(db, name, a + b) { LookupOfLiteral(db, name, key); }
    forall i | 0 <= i <= |key| ensures !StartsLike(db, key[i..], a + b) {
      if i <= 1 {
        var at := |a| - i;
        assert key[i..][at] == key[|a|] == '\\';
        assert (a + b)[at] == (if i == 0 then b[0] else a[at]) != '\\';
      }
    }
  }

  lemma {:induction false} ResolvedAround(db: Database, a: string, b: string)
    requires db.escapes && b != "" && IsPlain(db, a) && IsPlain(db, b)
    ensures var key := a + "\\" + b;
            IsLiteral(db, key) && !Dangles(db, key) && Resolved(db, key) == a + b
    decreases |a|
  {
    var key := a + "\\" + b;
    if a == "" {
      assert key == "\\" + b && key[2..] == b[1..] && key[1] == b[0];
      PlainIsLiteral(db, b[1..]);
      assert a + b == [b[0]] + b[1..];
    } else {
      assert key[1..] == a[1..] + "\\" + b;
      ResolvedAround(db, a[1..], b);
      assert a + b == [a[0]] + (a[1..] + b);
    }
  }
}
