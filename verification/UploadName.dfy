/** The search for a free object key of an upload: the loop of `UploadResource` in
    controllers/resource.go, with the lookup of object/ormer_session.go and the keys of
    object/storage.go. */
module UploadName {
  import opened Wrappers
  import opened Text
  import opened FormEncoding
  import opened SqlLike

  // ----- filepath.Base and filepath.Ext

  /** What follows the last slash. */
  function LastElement(s: string): (r: string)
    ensures |r| <= |s|
  {
    if s == "" || s[|s| - 1] == '/' then "" else LastElement(s[..|s| - 1]) + [s[|s| - 1]]
  }

  function Base(path: string): (r: string)
    ensures path != "" ==> |r| <= |path|
  {
    if path == "" then "."
    else if LastElement(TrimRight(path, '/')) == "" then "/"
    else LastElement(TrimRight(path, '/'))
  }

  /** The suffix from the last dot on. */
  function Ext(s: string): (r: string)
    ensures |r| <= |s|
    ensures r == "" || r[0] == '.'
  {
    if s == "" || s[|s| - 1] == '/' then ""
    else if s[|s| - 1] == '.' then "."
    else
      var r := Ext(s[..|s| - 1]);
      if r == "" then "" else r + [s[|s| - 1]]
  }

  function Extension(path: string): string {
    Ext(Base(path))
  }

  function Stem(path: string): string
    requires path != ""
  {
    path[..|path| - |Extension(path)|]
  }

  /** The paths the loop tries, in order. */
  function Candidate(path: string, i: nat): string
    requires path != ""
  {
    if i == 0 then path else Stem(path) + "-" + Itoa(i) + Extension(path)
  }

  // ----- What stem and extension are

  /** The extension runs from the last dot to the end, if no slash comes after that dot. */
  lemma {:induction false} ExtFrom(a: string, b: string)
    requires '.' !in b && '/' !in b
    ensures Ext(a + "." + b) == "." + b
  {
    var s := a + "." + b;
    if b == "" {
      assert s[|s| - 1] == '.';
    } else {
      var n := |b| - 1;
      assert s[..|s| - 1] == a + "." + b[..n];
      ExtFrom(a, b[..n]);
      assert "." + b[..n] + [b[n]] == "." + b;
    }
  }

  /** Without a dot after the last slash there is none. */
  lemma {:induction false} NoExt(a: string, b: string)
    requires '.' !in b && '/' !in b && (a == "" || a[|a| - 1] == '/')
    ensures Ext(a + b) == ""
  {
    var s := a + b;
    if b == "" {
      assert s == a;
    } else {
      assert s[..|s| - 1] == a + b[..|b| - 1];
      NoExt(a, b[..|b| - 1]);
    }
  }

  lemma {:induction false} LastOf(dir: string, last: string)
    requires '/' !in last && (dir == "" || dir[|dir| - 1] == '/')
    ensures LastElement(dir + last) == last
  {
    if last == "" {
      assert dir + last == dir;
    } else {
      var n := |last| - 1;
      assert (dir + last)[..|dir + last| - 1] == dir + last[..n];
      LastOf(dir, last[..n]);
    }
  }

  /** The base name is the last element, without the slashes that follow it. */
  lemma BaseIs(dir: string, last: string, slashes: string)
    requires last != "" && '/' !in last && (dir == "" || dir[|dir| - 1] == '/') && AllAre(slashes, '/')
    ensures Base(dir + last + slashes) == last
  {
    TrimRightPast(dir + last, slashes);
    LastOf(dir, last);
    hide LastElement, TrimRight;
    assert dir + last + slashes != "";
  }

  lemma {:induction false} TrimRightPast(s: string, slashes: string)
    requires s != "" && s[|s| - 1] != '/' && AllAre(slashes, '/')
    ensures TrimRight(s + slashes, '/') == s
  {
    if slashes == "" {
      assert s + slashes == s;
    } else {
      var n := |slashes| - 1;
      assert (s + slashes)[..|s + slashes| - 1] == s + slashes[..n];
      TrimRightPast(s, slashes[..n]);
    }
  }

  /** A candidate has its number between the stem and the extension of the name: what comes before the last dot, and the
      dot with what follows it. */
  lemma CandidateOfName(dir: string, stem: string, ext: string, i: nat)
    requires '/' !in stem && '/' !in ext && '.' !in ext && (dir == "" || dir[|dir| - 1] == '/') && i > 0
    ensures var path := dir + stem + "." + ext;
            Candidate(path, i) == dir + stem + "-" + Itoa(i) + "." + ext
  {
    var last := stem + "." + ext;
    var path := dir + stem + "." + ext;
    assert path == dir + last + "";
    BaseIs(dir, last, "");
    ExtFrom(stem, ext);
    hide Base, Ext, Itoa;
    assert path == (dir + stem) + ("." + ext);
    assert Stem(path) == dir + stem;
  }

  /** A name without a dot gets its number at its end. */
  lemma CandidateOfPlainName(dir: string, name: string, i: nat)
    requires name != "" && '/' !in name && '.' !in name && (dir == "" || dir[|dir| - 1] == '/') && i > 0
    ensures Candidate(dir + name, i) == dir + name + "-" + Itoa(i)
  {
    assert dir + name == dir + name + "";
    BaseIs(dir, name, "");
    NoExt("", name);
    assert "" + name == name;
    hide Base, Ext, Itoa;
  }

  lemma ExtensionHasNoSlash(path: string)
    requires path != "" && Extension(path) != ""
    ensures '/' !in Extension(path)
  {
    LastHasNoSlash(TrimRight(path, '/'));
    ExtIsASuffix(Base(path));
  }

  lemma {:induction false} LastHasNoSlash(s: string)
    ensures '/' !in LastElement(s)
  {
    if s != "" && s[|s| - 1] != '/' { LastHasNoSlash(s[..|s| - 1]); }
  }

  lemma {:induction false} ExtIsASuffix(s: string)
    ensures Ext(s) == s[|s| - |Ext(s)|..] && '/' !in Ext(s)
  {
    if s != "" && s[|s| - 1] != '/' && s[|s| - 1] != '.' { ExtIsASuffix(s[..|s| - 1]); }
  }

  lemma {:induction false} LastIsASuffix(s: string)
    ensures LastElement(s) == s[|s| - |LastElement(s)|..]
  {
    if s != "" && s[|s| - 1] != '/' { LastIsASuffix(s[..|s| - 1]); }
  }

  /** The renamed path is the original with a number put in, and nothing lost, exactly when the path has no extension or
      does not end in a slash: the loop takes the extension's length off the whole path. */
  lemma NumberIsInsertedExactly(path: string)
    requires path != ""
    ensures path == Stem(path) + Extension(path) <==> Extension(path) == "" || path[|path| - 1] != '/'
  {
    var ext := Extension(path);
    assert path == Stem(path) + path[|path| - |ext|..];
    if ext != "" {
      ExtensionHasNoSlash(path);
      if path[|path| - 1] != '/' {
        assert TrimRight(path, '/') == path;
        LastIsASuffix(path);
        ExtIsASuffix(Base(path));
        BaseOfPath(path);
        assert path[|path| - |Base(path)|..][|Base(path)| - |ext|..] == path[|path| - |ext|..];
      } else {
        assert path[|path| - |ext|..][|ext| - 1] == '/';
      }
    }
  }

  lemma BaseOfPath(path: string)
    requires path != "" && path[|path| - 1] != '/'
    ensures Base(path) == LastElement(path)
  {
    assert TrimRight(path, '/') == path;
  }

  // ----- Object keys

  function UrlJoin(base: string, path: string): string {
    TrimRight(base, '/') + "/" + TrimLeft(path, '/')
  }

  /** A storage provider; Tencent Cloud COS has its object keys escaped. */
  datatype Provider = Provider(domainPath: string, pathPrefix: string, isCos: bool)

  function JoinedKey(provider: Provider, path: string): string {
    UrlJoin(provider.domainPath, UrlJoin(provider.pathPrefix, path))
  }

  /** The object key of `GetUploadFileUrl`. */
  function ObjectKey(provider: Provider, path: string): string {
    var key := JoinedKey(provider, path);
    if provider.isCos then EscapeForCos(key) else key
  }

  function KeyRoot(provider: Provider): string {
    var prefix := TrimRight(provider.pathPrefix, '/');
    TrimRight(provider.domainPath, '/') + "/"
    + (if TrimLeft(prefix, '/') == "" then "" else TrimLeft(prefix, '/') + "/")
  }

  lemma {:induction false} TrimLeftOver(a: string, b: string)
    ensures TrimLeft(a + b, '/') == if TrimLeft(a, '/') == "" then TrimLeft(b, '/') else TrimLeft(a, '/') + b
  {
    if a == "" {
      assert a + b == b;
    } else if a[0] == '/' {
      assert (a + b)[1..] == a[1..] + b;
      TrimLeftOver(a[1..], b);
    }
  }

  lemma InnerKey(prefix: string, path: string)
    ensures TrimLeft(prefix + "/" + TrimLeft(path, '/'), '/')
         == (if TrimLeft(prefix, '/') == "" then "" else TrimLeft(prefix, '/') + "/") + TrimLeft(path, '/')
  {
    hide TrimLeft;
    var rest := TrimLeft(path, '/');
    TrimLeftOver(prefix, "/" + rest);
    TrimmedStaysTrimmed(path);
    Regroup(prefix, "/", rest);
    Regroup(TrimLeft(prefix, '/'), "/", rest);
    assert "" + rest == rest;
  }

  /** A key is the provider's root followed by the path without its leading slashes. */
  lemma KeyShape(provider: Provider, path: string)
    ensures JoinedKey(provider, path) == KeyRoot(provider) + TrimLeft(path, '/')
  {
    hide TrimLeft, TrimRight;
    var prefix := TrimRight(provider.pathPrefix, '/');
    var middle := if TrimLeft(prefix, '/') == "" then "" else TrimLeft(prefix, '/') + "/";
    InnerKey(prefix, path);
    Regroup(TrimRight(provider.domainPath, '/') + "/", middle, TrimLeft(path, '/'));
  }

  lemma {:induction false} TrimmedStaysTrimmed(path: string)
    ensures TrimLeft("/" + TrimLeft(path, '/'), '/') == TrimLeft(path, '/')
  {
    var rest := TrimLeft(path, '/');
    assert ("/" + rest)[1..] == rest;
    TrimIsTrimmed(path);
  }

  lemma {:induction false} TrimIsTrimmed(path: string)
    ensures TrimLeft(TrimLeft(path, '/'), '/') == TrimLeft(path, '/')
  {
    if path != "" && path[0] == '/' { TrimIsTrimmed(path[1..]); }
  }

  lemma CandidateParts(path: string, i: nat)
    requires path != "" && i > 0
    ensures Candidate(path, i) == Stem(path) + ("-" + Itoa(i) + Extension(path))
  {
    hide Stem, Extension, Itoa;
  }

  lemma TrimParts(stem: string, tail: string)
    requires tail != "" && tail[0] != '/'
    ensures TrimLeft(stem + tail, '/') == TrimLeft(stem, '/') + tail
  {
    TrimLeftOver(stem, tail);
    NoSlashToTrim(tail);
    hide TrimLeft;
    assert "" + tail == tail;
  }

  lemma KeyOfParts(provider: Provider, stem: string, tail: string)
    requires tail != "" && tail[0] != '/'
    ensures JoinedKey(provider, stem + tail) == (KeyRoot(provider) + TrimLeft(stem, '/')) + tail
  {
    hide JoinedKey, KeyRoot, TrimLeft;
    KeyShape(provider, stem + tail);
    TrimParts(stem, tail);
    Regroup(KeyRoot(provider), TrimLeft(stem, '/'), tail);
  }

  lemma CandidateKey(provider: Provider, path: string, i: nat)
    requires path != "" && i > 0
    ensures JoinedKey(provider, Candidate(path, i))
         == (KeyRoot(provider) + TrimLeft(Stem(path), '/')) + ("-" + Itoa(i) + Extension(path))
  {
    CandidateParts(path, i);
    hide JoinedKey, KeyRoot, TrimLeft, Stem, Extension, Itoa, Candidate;
    var tail := "-" + Itoa(i) + Extension(path);
    assert tail[0] == '-';
    KeyOfParts(provider, Stem(path), tail);
  }

  lemma Regroup(a: string, b: string, c: string)
    ensures a + (b + c) == (a + b) + c
  {
  }

  lemma NoSlashToTrim(s: string)
    requires s != "" && s[0] != '/'
    ensures TrimLeft(s, '/') == s
  {
  }

  lemma JoinedKeysDiffer(provider: Provider, path: string, i: nat, j: nat)
    requires path != "" && i < j
    ensures JoinedKey(provider, Candidate(path, i)) != JoinedKey(provider, Candidate(path, j))
  {
    hide JoinedKey, KeyRoot, Extension, Itoa, Candidate, TrimLeft;
    CandidateKey(provider, path, j);
    var root := KeyRoot(provider) + TrimLeft(Stem(path), '/');
    if i == 0 {
      OriginalKey(provider, path);
    } else {
      CandidateKey(provider, path, i);
      SuffixesDiffer(root, i, j, Extension(path));
    }
  }

  lemma OriginalKey(provider: Provider, path: string)
    requires path != ""
    ensures |JoinedKey(provider, Candidate(path, 0))|
         <= |KeyRoot(provider) + TrimLeft(Stem(path), '/')| + |Extension(path)|
  {
    KeyShape(provider, path);
    hide JoinedKey, KeyRoot, TrimLeft, Ext, Base;
    TrimLength(path, |path| - |Extension(path)|);
  }

  lemma TrimLength(path: string, n: nat)
    requires n <= |path|
    ensures |TrimLeft(path, '/')| <= |TrimLeft(path[..n], '/')| + (|path| - n)
  {
    hide TrimLeft;
    assert path == path[..n] + path[n..];
    TrimLeftOver(path[..n], path[n..]);
  }

  lemma SuffixesDiffer(root: string, i: nat, j: nat, ext: string)
    requires i != j
    ensures root + ("-" + Itoa(i) + ext) != root + ("-" + Itoa(j) + ext)
  {
    hide Itoa;
    var a, b := "-" + Itoa(i) + ext, "-" + Itoa(j) + ext;
    if root + a == root + b {
      assert a == (root + a)[|root|..] && b == (root + b)[|root|..];
      assert a[1..|a| - |ext|] == Itoa(i) && b[1..|b| - |ext|] == Itoa(j);
      ItoaInjective(i, j);
    }
  }

  /** Where no part has slashes at its ends, the key is the provider's path, its prefix and the upload's path, each
      joined to the next by one slash. */
  lemma KeyOfCleanParts(provider: Provider, path: string)
    requires provider.domainPath == "" || provider.domainPath[|provider.domainPath| - 1] != '/'
    requires var prefix := provider.pathPrefix; prefix != "" && prefix[0] != '/' && prefix[|prefix| - 1] != '/'
    requires path != "" && path[0] != '/'
    ensures JoinedKey(provider, path) == provider.domainPath + "/" + provider.pathPrefix + "/" + path
  {
    var inner := provider.pathPrefix + "/" + path;
    assert inner[0] == provider.pathPrefix[0];
  }

  // ----- Keys escaped for COS

  /** One byte of `strings.ReplaceAll(url.QueryEscape(s), "+", "%20")`; other characters do not occur. */
  function CosByte(c: char): string {
    if c as int >= 256 then [c] else if c == ' ' then "%20" else EscapeByte(c)
  }

  function CosElement(s: string): string {
    if s == "" then "" else CosByte(s[0]) + CosElement(s[1..])
  }

  /** What comes before the last element. */
  function Directory(s: string): string {
    s[..|s| - |LastElement(s)|]
  }

  /** `escapePathForCOS` */
  function EscapeForCos(s: string): string {
    Directory(s) + CosElement(LastElement(s))
  }

  function SpacesForPlus(s: string): string {
    if s == "" then "" else (if s[0] == '+' then "%20" else [s[0]]) + SpacesForPlus(s[1..])
  }

  lemma {:induction false} SpacesOver(a: string, b: string)
    ensures SpacesForPlus(a + b) == SpacesForPlus(a) + SpacesForPlus(b)
  {
    if a == "" {
      assert a + b == b;
    } else {
      assert (a + b)[1..] == a[1..] + b;
      SpacesOver(a[1..], b);
    }
  }

  lemma SpacesOfByte(c: char)
    requires c as int < 256
    ensures SpacesForPlus(EscapeByte(c)) == CosByte(c)
  {
    var e := EscapeByte(c);
    assert SpacesForPlus("") == "";
    if |e| == 1 {
      assert e[1..] == "";
    } else {
      SpacesOver(e[..1], e[1..]);
      SpacesOver(e[1..2], e[2..]);
      assert e == e[..1] + e[1..] && e[1..] == e[1..2] + e[2..];
      forall k | 0 <= k < 3 ensures SpacesForPlus([e[k]]) == [e[k]] { assert [e[k]][1..] == ""; }
      assert e[..1] == [e[0]] && e[1..2] == [e[1]] && e[2..] == [e[2]];
    }
  }

  /** The escaped element is the form-encoded one with its plus signs written as `%20`. */
  lemma {:induction false} CosElementIsEncoded(s: string)
    requires IsBytes(s)
    ensures CosElement(s) == SpacesForPlus(Escape(s))
  {
    if s != "" {
      CosElementIsEncoded(s[1..]);
      SpacesOfByte(s[0]);
      SpacesOver(EscapeByte(s[0]), Escape(s[1..]));
    }
  }

  lemma UnescapeCosByte(c: char, rest: string)
    requires Unescape(rest).Some?
    ensures Unescape(CosByte(c) + rest) == Some([c] + Unescape(rest).value)
  {
    var s := CosByte(c) + rest;
    if c as int >= 256 || IsUnreserved(c) {
      assert s[1..] == rest;
    } else {
      assert s[3..] == rest;
      if c != ' ' {
        HexRoundTrip(c as int / 16);
        HexRoundTrip(c as int % 16);
      }
    }
  }

  /** Decoding undoes the escape. */
  lemma {:induction false} UnescapeCosElement(s: string)
    ensures Unescape(CosElement(s)) == Some(s)
  {
    if s != "" {
      UnescapeCosElement(s[1..]);
      UnescapeCosByte(s[0], CosElement(s[1..]));
      assert s == [s[0]] + s[1..];
    }
  }

  lemma {:induction false} CosElementHasNoSlash(s: string)
    requires '/' !in s
    ensures '/' !in CosElement(s)
  {
    if s != "" { CosElementHasNoSlash(s[1..]); }
  }

  lemma {:induction false} LastElementParts(s: string)
    ensures '/' !in LastElement(s) && s == Directory(s) + LastElement(s)
    ensures Directory(s) == "" || Directory(s)[|Directory(s)| - 1] == '/'
  {
    if s != "" && s[|s| - 1] != '/' { LastElementParts(s[..|s| - 1]); }
  }

  /** A key of COS has its last element, and nothing else, form-encoded, with spaces as `%20`. */
  lemma CosKeyIs(provider: Provider, path: string, dir: string, last: string)
    requires JoinedKey(provider, path) == dir + last
    requires '/' !in last && IsBytes(last) && (dir == "" || dir[|dir| - 1] == '/')
    ensures ObjectKey(provider, path) == dir + if provider.isCos then SpacesForPlus(Escape(last)) else last
  {
    LastOf(dir, last);
    CosElementIsEncoded(last);
    hide JoinedKey, LastElement, Escape;
    assert (dir + last)[..|dir|] == dir;
  }

  /** Different keys stay different when they are escaped. */
  lemma EscapeForCosIsInjective(a: string, b: string)
    requires EscapeForCos(a) == EscapeForCos(b)
    ensures a == b
  {
    hide LastElement, Unescape, CosElement;
    LastElementParts(a);
    LastElementParts(b);
    CosElementHasNoSlash(LastElement(a));
    CosElementHasNoSlash(LastElement(b));
    LastOf(Directory(a), CosElement(LastElement(a)));
    LastOf(Directory(b), CosElement(LastElement(b)));
    UnescapeCosElement(LastElement(a));
    UnescapeCosElement(LastElement(b));
    var e := EscapeForCos(a);
    assert Directory(a) == e[..|e| - |LastElement(e)|] == Directory(b);
  }

  /** Different candidates have different keys, on every storage provider. */
  lemma CandidateKeysDiffer(provider: Provider, path: string, i: nat, j: nat)
    requires path != "" && i < j
    ensures ObjectKey(provider, Candidate(path, i)) != ObjectKey(provider, Candidate(path, j))
  {
    hide JoinedKey, Candidate, EscapeForCos;
    JoinedKeysDiffer(provider, path, i, j);
    var a, b := JoinedKey(provider, Candidate(path, i)), JoinedKey(provider, Candidate(path, j));
    if provider.isCos && EscapeForCos(a) == EscapeForCos(b) { EscapeForCosIsInjective(a, b); }
  }

  function KeyAt(provider: Provider, path: string, i: nat): string
    requires path != ""
  {
    ObjectKey(provider, Candidate(path, i))
  }

  predicate IsTaken(db: Database, names: set<string>, provider: Provider, path: string, i: nat)
    requires path != ""
  {
    IsCounted(db, names, KeyAt(provider, path, i))
  }

  // ----- Only finitely many candidates are taken

  lemma {:induction false} CosKeepsDigits(s: string)
    ensures Digits(CosElement(s)) >= Digits(s)
  {
    if s != "" {
      CosKeepsDigits(s[1..]);
      DigitsOver(CosByte(s[0]), CosElement(s[1..]));
      if IsDigit(s[0]) { assert CosByte(s[0])[1..] == ""; }
    }
  }

  lemma EscapedKeyDigits(s: string)
    ensures Digits(EscapeForCos(s)) >= Digits(s)
  {
    hide Digits, CosElement, LastElement;
    LastElementParts(s);
    DigitsOver(Directory(s), LastElement(s));
    DigitsOver(Directory(s), CosElement(LastElement(s)));
    CosKeepsDigits(LastElement(s));
  }

  lemma CandidateDigits(provider: Provider, path: string, i: nat)
    requires path != "" && i > 0
    ensures Digits(KeyAt(provider, path, i)) >= |Itoa(i)|
  {
    hide Digits, JoinedKey, Candidate, KeyRoot, Extension, EscapeForCos, Itoa, TrimLeft;
    CandidateKey(provider, path, i);
    var root, ext := KeyRoot(provider) + TrimLeft(Stem(path), '/'), Extension(path);
    assert root + ("-" + Itoa(i) + ext) == (root + "-") + (Itoa(i) + ext);
    DigitsOver(root + "-", Itoa(i) + ext);
    DigitsOver(Itoa(i), ext);
    AllAreDigits(Itoa(i));
    EscapedKeyDigits(JoinedKey(provider, Candidate(path, i)));
  }

  function Pow10(n: nat): (r: nat)
    ensures r > 0
  {
    if n == 0 then 1 else 10 * Pow10(n - 1)
  }

  lemma {:induction false} ItoaIsLong(n: nat)
    ensures n < Pow10(|Itoa(n)|)
  {
    if n >= 10 {
      ItoaIsLong(n / 10);
    } else {
      assert Pow10(1) == 10 * Pow10(0);
    }
  }

  lemma {:induction false} Pow10Grows(m: nat, n: nat)
    requires m <= n
    ensures Pow10(m) <= Pow10(n)
  {
    if m < n { Pow10Grows(m, n - 1); }
  }

  ghost function MaxLength(names: set<string>): (n: nat)
    ensures forall name :: name in names ==> |name| <= n
  {
    if names == {} then 0
    else
      var name :| name in names;
      var rest := MaxLength(names - {name});
      if rest < |name| then |name| else rest
  }

  /** A number as large as this makes a key too long for every stored name. */
  ghost function Bound(names: set<string>): nat {
    Pow10(MaxLength(names))
  }

  /** Only finitely many candidates can be taken, although one stored name can take many of them. */
  lemma TakenIsBounded(db: Database, names: set<string>, provider: Provider, path: string, i: nat)
    requires path != "" && IsTaken(db, names, provider, path, i)
    ensures i < Bound(names)
  {
    hide Like, KeyAt, Digits, Pow10, Itoa, MaxLength;
    if i > 0 {
      var key := KeyAt(provider, path, i);
      var name :| name in names && Matches(db, name, key);
      LikeNeedsLength(db, name, "%" + key + "%");
      DigitsOver("%" + key, "%");
      DigitsOver("%", key);
      CandidateDigits(provider, path, i);
      ItoaIsLong(i);
      Pow10Grows(|Itoa(i)|, MaxLength(names));
    }
  }

  /** The keys the loop could find taken. */
  ghost function TakenKeys(db: Database, names: set<string>, provider: Provider, path: string): set<string>
    requires path != ""
  {
    set i | 0 <= i < Bound(names) && IsTaken(db, names, provider, path, i) :: KeyAt(provider, path, i)
  }

  /** As many taken keys as there are taken candidates. */
  lemma {:induction false} ManyTaken(db: Database, names: set<string>, provider: Provider, path: string, n: nat)
    returns (keys: set<string>)
    requires path != "" && forall i :: 0 <= i < n ==> IsTaken(db, names, provider, path, i)
    ensures |keys| == n && keys <= TakenKeys(db, names, provider, path)
    ensures forall k :: k in keys ==> exists i :: 0 <= i < n && k == KeyAt(provider, path, i)
  {
    hide IsTaken, ObjectKey, Candidate, Bound;
    keys := {};
    if n > 0 {
      keys := ManyTaken(db, names, provider, path, n - 1);
      var key := KeyAt(provider, path, n - 1);
      TakenIsBounded(db, names, provider, path, n - 1);
      forall i | 0 <= i < n - 1 ensures KeyAt(provider, path, i) != key {
        CandidateKeysDiffer(provider, path, i, n - 1);
      }
      assert key in TakenKeys(db, names, provider, path);
      keys := keys + {key};
    }
  }

  lemma SubsetIsNoLarger(a: set<string>, b: set<string>)
    requires a <= b
    ensures |a| <= |b|
  {
    assert b == a + (b - a);
  }

  // ----- How many attempts there are for so many stored names

  /** No stored name takes two of the first `n` candidates. */
  predicate NoNameTakesTwo(db: Database, names: set<string>, provider: Provider, path: string, n: nat)
    requires path != ""
  {
    forall name, i, j :: name in names && 0 <= i < j < n ==>
      !(Matches(db, name, KeyAt(provider, path, i)) && Matches(db, name, KeyAt(provider, path, j)))
  }

  lemma {:induction false} TakenNeedsNames(db: Database, names: set<string>, provider: Provider, path: string, n: nat)
    requires path != "" && NoNameTakesTwo(db, names, provider, path, n)
    requires forall i :: 0 <= i < n ==> IsTaken(db, names, provider, path, i)
    ensures n <= |names|
  {
    hide Matches, KeyAt;
    if n > 0 {
      assert IsTaken(db, names, provider, path, n - 1);
      var name :| name in names && Matches(db, name, KeyAt(provider, path, n - 1));
      var rest := names - {name};
      forall i | 0 <= i < n - 1 ensures IsTaken(db, rest, provider, path, i) {
        assert IsTaken(db, names, provider, path, i);
        var other :| other in names && Matches(db, other, KeyAt(provider, path, i));
        assert other in rest;
      }
      TakenNeedsNames(db, rest, provider, path, n - 1);
    }
  }

  /** The loop stops on candidate `n`: it is the first that is not taken. */
  predicate IsFirstFree(db: Database, names: set<string>, provider: Provider, path: string, n: nat)
    requires path != ""
  {
    && !IsTaken(db, names, provider, path, n)
    && forall i :: 0 <= i < n ==> IsTaken(db, names, provider, path, i)
  }

  predicate SomeIsFree(db: Database, names: set<string>, provider: Provider, path: string, n: nat)
    requires path != ""
  {
    exists i :: 0 <= i < n && !IsTaken(db, names, provider, path, i)
  }

  /** One of the first `m` candidates is free exactly when the loop makes at most `m` attempts. */
  lemma FreeAmongFirst(db: Database, names: set<string>, provider: Provider, path: string, n: nat, m: nat)
    requires path != "" && IsFirstFree(db, names, provider, path, n)
    ensures n < m <==> SomeIsFree(db, names, provider, path, m)
  {
    hide IsTaken;
  }

  /** The loop makes at most one attempt more than there are stored names, if no name takes two of the
      candidates it would try. */
  lemma AttemptsWithinStoredNames(db: Database, names: set<string>, provider: Provider, path: string, n: nat)
    requires path != "" && IsFirstFree(db, names, provider, path, n)
    requires NoNameTakesTwo(db, names, provider, path, |names| + 1)
    ensures n + 1 <= |names| + 1
  {
    hide IsTaken, NoNameTakesTwo;
    if n > |names| { TakenNeedsNames(db, names, provider, path, |names| + 1); }
  }

  /** With one stored name the condition is exact: more than two attempts mean that it takes both of the
      first two candidates. */
  lemma OneStoredNameExactly(db: Database, name: string, provider: Provider, path: string, n: nat)
    requires path != "" && IsFirstFree(db, {name}, provider, path, n)
    ensures n + 1 <= |{name}| + 1 <==> NoNameTakesTwo(db, {name}, provider, path, |{name}| + 1)
  {
    hide Matches, KeyAt;
    if n <= 1 {
      assert IsTaken(db, {name}, provider, path, 0) == Matches(db, name, KeyAt(provider, path, 0));
      assert IsTaken(db, {name}, provider, path, 1) == Matches(db, name, KeyAt(provider, path, 1));
    } else {
      assert IsTaken(db, {name}, provider, path, 0) && IsTaken(db, {name}, provider, path, 1);
    }
  }

  /** The condition is needed: the lookup matches substrings, so one stored name can take both of the first
      two candidates, and the loop then makes more attempts than the stored names account for. */
  lemma OneNameTakesTwo(db: Database, provider: Provider, path: string, n: nat)
    requires path != "" && Reflexive(db)
    requires HasNoEscape(db, KeyAt(provider, path, 0)) && HasNoEscape(db, KeyAt(provider, path, 1))
    requires IsFirstFree(db, {KeyAt(provider, path, 0) + KeyAt(provider, path, 1)}, provider, path, n)
    ensures var names := {KeyAt(provider, path, 0) + KeyAt(provider, path, 1)};
            !NoNameTakesTwo(db, names, provider, path, |names| + 1) && n + 1 > |names| + 1
  {
    hide Matches, KeyAt, Reflexive, HasNoEscape;
    var a, b := KeyAt(provider, path, 0), KeyAt(provider, path, 1);
    assert "" + a + b == a + b && a + b + "" == a + b;
    ContainedMatches(db, "", a, b);
    ContainedMatches(db, a, b, "");
    assert !NoNameTakesTwo(db, {a + b}, provider, path, 2);
    OneStoredNameExactly(db, a + b, provider, path, n);
  }

  // ----- When a free key is a new one

  lemma KeepsStem(path: string, i: nat)
    requires path != ""
    ensures Stem(path) <= Candidate(path, i)
    ensures i > 0 ==> exists middle :: Candidate(path, i) == Stem(path) + middle + Extension(path)
  {
    hide Itoa, Ext, Base;
    if i > 0 {
      hide Stem, Extension;
      var middle := "-" + Itoa(i);
      Regroup(Stem(path), "-", Itoa(i));
      assert Candidate(path, i) == Stem(path) + middle + Extension(path);
    }
  }

  /** What the new path keeps, and that its key is not in use if it has no escape character. */
  lemma FreePathIsFresh(db: Database, names: set<string>, provider: Provider, path: string, i: nat)
    requires path != "" && Reflexive(db) && !IsTaken(db, names, provider, path, i)
    ensures HasNoEscape(db, KeyAt(provider, path, i)) ==> KeyAt(provider, path, i) !in names
    ensures Stem(path) <= Candidate(path, i)
    ensures i > 0 ==> exists middle :: Candidate(path, i) == Stem(path) + middle + Extension(path)
  {
    hide Reflexive, HasNoEscape, Matches, KeyAt, Stem, Candidate;
    var key := KeyAt(provider, path, i);
    if key in names && HasNoEscape(db, key) {
      assert "" + key + "" == key;
      ContainedIsCounted(db, names, "", key, "");
    }
    KeepsStem(path, i);
  }

  // ----- A key in use that the lookup misses

  const BACKSLASH_PATH := "resource/o/u/a" + "\\" + "b.txt"

  /** One upload whose key is stored and yet found free at the first attempt, so that the stored object is
      overwritten. */
  lemma StoredKeyIsFoundFree(db: Database)
    requires BackslashIsItself(db) && db.escapes
    ensures var provider := Provider("", "", false);
            var names := {KeyAt(provider, BACKSLASH_PATH, 0)};
            IsFirstFree(db, names, provider, BACKSLASH_PATH, 0)
  {
    hide KeyAt, ContainsLike, Matches, BackslashIsItself;
    var key := KeyAt(Provider("", "", false), BACKSLASH_PATH, 0);
    BackslashKey();
    BackslashIsMissed(db, {key}, "/resource/o/u/a", "b.txt");
  }

  lemma BackslashKey()
    ensures KeyAt(Provider("", "", false), BACKSLASH_PATH, 0) == "/resource/o/u/a" + "\\" + "b.txt"
  {
    hide TrimLeft, JoinedKey;
    var provider := Provider("", "", false);
    KeyShape(provider, BACKSLASH_PATH);
    assert BACKSLASH_PATH[0] == 'r';
    NoSlashToTrim(BACKSLASH_PATH);
    assert KeyRoot(provider) == "/" by { EmptyRoot(); }
  }

  lemma EmptyRoot()
    ensures KeyRoot(Provider("", "", false)) == "/"
  {
  }

  // ----- The loop

  /** The loop ends on the first candidate whose key no stored name matches, within one more attempt than
      there are taken keys, and than there are stored names if none takes two candidates. */
  method FindFreePath(db: Database, names: set<string>, provider: Provider, path: string)
    returns (fullFilePath: string, attempts: nat)
    requires path != ""
    ensures attempts > 0 && fullFilePath == Candidate(path, attempts - 1)
    ensures IsFirstFree(db, names, provider, path, attempts - 1)
    ensures attempts <= |TakenKeys(db, names, provider, path)| + 1
    ensures attempts <= |names| + 1 <==> SomeIsFree(db, names, provider, path, |names| + 1)
    ensures NoNameTakesTwo(db, names, provider, path, |names| + 1) ==> attempts <= |names| + 1
  {
    hide Like, ObjectKey, Bound, IsCounted, NoNameTakesTwo, SomeIsFree, Ext, Base, Itoa;
    fullFilePath := path;
    var ext := Ext(Base(fullFilePath));
    var index := |fullFilePath| - |ext|;
    var i := 1;
    while IsCounted(db, names, ObjectKey(provider, fullFilePath))
      invariant i > 0 && index == |Stem(path)|
      invariant fullFilePath == Candidate(path, i - 1)
      invariant forall j :: 0 <= j < i - 1 ==> IsTaken(db, names, provider, path, j)
      decreases Bound(names) - i
    {
      TakenIsBounded(db, names, provider, path, i - 1);
      KeepsStem(path, i - 1);
      fullFilePath := fullFilePath[..index] + "-" + Itoa(i) + ext;
      i := i + 1;
    }
    attempts := i;
    ghost var keys := ManyTaken(db, names, provider, path, i - 1);
    SubsetIsNoLarger(keys, TakenKeys(db, names, provider, path));
    FreeAmongFirst(db, names, provider, path, i - 1, |names| + 1);
    if NoNameTakesTwo(db, names, provider, path, |names| + 1) {
      AttemptsWithinStoredNames(db, names, provider, path, i - 1);
    }
  }
}
