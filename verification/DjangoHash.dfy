/** Password records in Django's format: cred/pbkdf2_django.go. */
module DjangoHash {
  import opened Wrappers
  import opened Text

  const ALGORITHM := "pbkdf2_sha256"
  const ITERATIONS: nat := 260000

  /** The alphabet of section 4 of RFC 4648. */
  function Symbol(n: nat): char {
    if n < 26 then ('A' as int + n) as char
    else if n < 52 then ('a' as int + n - 26) as char
    else if n < 62 then ('0' as int + n - 52) as char
    else if n == 62 then '+'
    else '/'
  }

  /** `base64.StdEncoding.EncodeToString` */
  function Base64(s: seq<nat>): string {
    if |s| == 0 then ""
    else if |s| == 1 then [Symbol(s[0] / 4), Symbol(s[0] % 4 * 16), '=', '=']
    else if |s| == 2 then [Symbol(s[0] / 4), Symbol(s[0] % 4 * 16 + s[1] / 16), Symbol(s[1] % 16 * 4), '=']
    else
      [Symbol(s[0] / 4), Symbol(s[0] % 4 * 16 + s[1] / 16), Symbol(s[1] % 16 * 4 + s[2] / 64), Symbol(s[2] % 64)]
      + Base64(s[3..])
  }

  lemma {:induction false} Base64HasNoDollar(s: seq<nat>)
    ensures '$' !in Base64(s)
  {
    assert forall n: nat :: Symbol(n) != '$';
    if |s| > 2 { Base64HasNoDollar(s[3..]); }
  }

  // ----- Reading base64 back

  /** The position of a symbol in the alphabet. */
  function Sextet(c: char): Option<nat> {
    if 'A' <= c <= 'Z' then Some(c as int - 'A' as int)
    else if 'a' <= c <= 'z' then Some(c as int - 'a' as int + 26)
    else if '0' <= c <= '9' then Some(c as int - '0' as int + 52)
    else if c == '+' then Some(62)
    else if c == '/' then Some(63)
    else None
  }

  lemma SextetOfSymbol(n: nat)
    requires n < 64
    ensures Sextet(Symbol(n)) == Some(n) && Symbol(n) != '='
  {
  }

  /** Section 4 of RFC 4648, read backwards: four symbols give three bytes, padding cuts the last group short. */
  function Unbase64(s: string): Option<seq<nat>> {
    if s == "" then Some([])
    else if |s| < 4 || Sextet(s[0]).None? || Sextet(s[1]).None? then None
    else
      var a, b := Sextet(s[0]).value, Sextet(s[1]).value;
      if s[2] == '=' then (if s[3] == '=' && |s| == 4 then Some([a * 4 + b / 16]) else None)
      else if Sextet(s[2]).None? then None
      else
        var c := Sextet(s[2]).value;
        if s[3] == '=' then (if |s| == 4 then Some([a * 4 + b / 16, b % 16 * 16 + c / 4]) else None)
        else if Sextet(s[3]).None? then None
        else
          var rest := Unbase64(s[4..]);
          if rest.None? then None
          else Some([a * 4 + b / 16, b % 16 * 16 + c / 4, c % 4 * 64 + Sextet(s[3]).value] + rest.value)
  }

  predicate AreBytes(s: seq<nat>) {
    forall i :: 0 <= i < |s| ==> s[i] < 256
  }

  /** Three bytes from four sextets. */
  lemma GroupRoundTrip(a: nat, b: nat, c: nat)
    requires a < 256 && b < 256 && c < 256
    ensures a / 4 < 64 && a % 4 * 16 + b / 16 < 64 && b % 16 * 4 + c / 64 < 64 && c % 64 < 64
    ensures a / 4 * 4 + (a % 4 * 16 + b / 16) / 16 == a
    ensures (a % 4 * 16 + b / 16) % 16 * 16 + (b % 16 * 4 + c / 64) / 4 == b
    ensures (b % 16 * 4 + c / 64) % 4 * 64 + c % 64 == c
  {
    assert (a % 4 * 16 + b / 16) / 16 == a % 4 && (a % 4 * 16 + b / 16) % 16 == b / 16;
    assert (b % 16 * 4 + c / 64) / 4 == b % 16 && (b % 16 * 4 + c / 64) % 4 == c / 64;
  }

  lemma UnbaseFour(s: string, x: nat, y: nat, z: nat, w: nat)
    requires |s| >= 4 && s[2] != '=' && s[3] != '=' && Unbase64(s[4..]).Some?
    requires Sextet(s[0]) == Some(x) && Sextet(s[1]) == Some(y) && Sextet(s[2]) == Some(z) && Sextet(s[3]) == Some(w)
    ensures Unbase64(s) == Some([x * 4 + y / 16, y % 16 * 16 + z / 4, z % 4 * 64 + w] + Unbase64(s[4..]).value)
  {
    hide Sextet;
  }

  lemma UnbaseGroup(x: nat, y: nat, z: nat, w: nat, rest: string)
    requires x < 64 && y < 64 && z < 64 && w < 64 && Unbase64(rest).Some?
    ensures Unbase64([Symbol(x), Symbol(y), Symbol(z), Symbol(w)] + rest)
         == Some([x * 4 + y / 16, y % 16 * 16 + z / 4, z % 4 * 64 + w] + Unbase64(rest).value)
  {
    SextetOfSymbol(x);
    SextetOfSymbol(y);
    SextetOfSymbol(z);
    SextetOfSymbol(w);
    hide Sextet, Symbol, Unbase64;
    var four := [Symbol(x), Symbol(y), Symbol(z), Symbol(w)];
    var s := four + rest;
    assert forall i :: 0 <= i < 4 ==> s[i] == four[i];
    assert s[4..] == rest;
    UnbaseFour(s, x, y, z, w);
  }

  lemma UnbaseLast(x: nat, y: nat, z: nat)
    requires x < 64 && y < 64 && z < 64
    ensures Unbase64([Symbol(x), Symbol(y), '=', '=']) == Some([x * 4 + y / 16])
    ensures Unbase64([Symbol(x), Symbol(y), Symbol(z), '=']) == Some([x * 4 + y / 16, y % 16 * 16 + z / 4])
  {
    SextetOfSymbol(x);
    SextetOfSymbol(y);
    SextetOfSymbol(z);
    hide Sextet, Symbol;
  }

  /** Reading undoes writing, for all bytes. */
  lemma {:induction false} Base64RoundTrip(s: seq<nat>)
    requires AreBytes(s)
    ensures Unbase64(Base64(s)) == Some(s)
  {
    hide Unbase64, Symbol, Sextet;
    if |s| == 0 {
      UnbaseNothing();
    } else if |s| == 1 {
      GroupRoundTrip(s[0], 0, 0);
      UnbaseLast(s[0] / 4, s[0] % 4 * 16, 0);
      assert s == [s[0]];
    } else if |s| == 2 {
      GroupRoundTrip(s[0], s[1], 0);
      UnbaseLast(s[0] / 4, s[0] % 4 * 16 + s[1] / 16, s[1] % 16 * 4);
      assert s == [s[0], s[1]];
    } else {
      GroupRoundTrip(s[0], s[1], s[2]);
      Base64RoundTrip(s[3..]);
      UnbaseGroup(s[0] / 4, s[0] % 4 * 16 + s[1] / 16, s[1] % 16 * 4 + s[2] / 64, s[2] % 64, Base64(s[3..]));
      assert s == [s[0], s[1], s[2]] + s[3..];
    }
  }

  lemma UnbaseNothing()
    ensures Unbase64("") == Some([])
  {
  }

  lemma Base64IsInjective(a: seq<nat>, b: seq<nat>)
    requires AreBytes(a) && AreBytes(b) && Base64(a) == Base64(b)
    ensures a == b
  {
    Base64RoundTrip(a);
    Base64RoundTrip(b);
  }

  // ----- Records

  /** The key derivation: password, salt and iteration count to key bytes. */
  type Kdf = (string, string, int) -> seq<nat>

  /** `GetHashedPassword` */
  function HashedPassword(kdf: Kdf, password: string, salt: string): string {
    ALGORITHM + "$" + Itoa(ITERATIONS) + "$" + salt + "$" + Base64(kdf(password, salt, ITERATIONS))
  }

  /** `IsPasswordCorrect`; the separately stored salt is not looked at. */
  predicate IsPasswordCorrect(kdf: Kdf, password: string, record: string) {
    var parts := Split(record, '$');
    && |parts| == 4
    && parts[0] == ALGORITHM
    && Atoi(parts[1]).Some?
    && Base64(kdf(password, parts[2], Atoi(parts[1]).value)) == parts[3]
  }

  lemma AtoiItoa(n: nat)
    requires n < 0x8000_0000_0000_0000
    ensures Atoi(Itoa(n)) == Some(n)
  {
    ParseItoa(n);
  }

  lemma RecordIsJoined(kdf: Kdf, password: string, salt: string)
    ensures HashedPassword(kdf, password, salt)
         == Join([ALGORITHM, Itoa(ITERATIONS), salt, Base64(kdf(password, salt, ITERATIONS))], '$')
  {
    var hash := Base64(kdf(password, salt, ITERATIONS));
    assert Join([hash], '$') == hash;
    assert [salt, hash][1..] == [hash];
    assert Join([salt, hash], '$') == salt + "$" + hash;
    assert [Itoa(ITERATIONS), salt, hash][1..] == [salt, hash];
    assert Join([Itoa(ITERATIONS), salt, hash], '$') == Itoa(ITERATIONS) + "$" + (salt + "$" + hash);
    assert [ALGORITHM, Itoa(ITERATIONS), salt, hash][1..] == [Itoa(ITERATIONS), salt, hash];
  }

  lemma RecordParts(kdf: Kdf, password: string, salt: string)
    requires '$' !in salt
    ensures Split(HashedPassword(kdf, password, salt), '$')
         == [ALGORITHM, Itoa(ITERATIONS), salt, Base64(kdf(password, salt, ITERATIONS))]
  {
    Base64HasNoDollar(kdf(password, salt, ITERATIONS));
    RecordIsJoined(kdf, password, salt);
    SplitJoin([ALGORITHM, Itoa(ITERATIONS), salt, Base64(kdf(password, salt, ITERATIONS))], '$');
  }

  /** A record accepts a password exactly when the key derived from it with the record's own salt and 260000
      iterations is the one the record was made with; with a dollar sign in the salt it accepts none. */
  lemma RecordAcceptsExactly(kdf: Kdf, password: string, other: string, salt: string)
    requires forall p, n :: AreBytes(kdf(p, salt, n))
    ensures IsPasswordCorrect(kdf, other, HashedPassword(kdf, password, salt)) <==>
            '$' !in salt && kdf(other, salt, 260000) == kdf(password, salt, 260000)
  {
    if '$' in salt {
      DollarSaltNeverVerifies(kdf, password, other, salt);
    } else {
      RecordParts(kdf, password, salt);
      AtoiItoa(ITERATIONS);
      if Base64(kdf(other, salt, ITERATIONS)) == Base64(kdf(password, salt, ITERATIONS)) {
        Base64IsInjective(kdf(other, salt, ITERATIONS), kdf(password, salt, ITERATIONS));
      }
    }
  }

  /** The four parts of a record in Django's format that accepts the password. */
  predicate IsRecordOf(kdf: Kdf, password: string, record: string, iterations: string, salt: string) {
    && '$' !in iterations && '$' !in salt && Atoi(iterations).Some?
    && record == "pbkdf2_sha256" + "$" + iterations + "$" + salt + "$"
                 + Base64(kdf(password, salt, Atoi(iterations).value))
  }

  lemma Joined(a: string, b: string, c: string, d: string)
    ensures Join([a, b, c, d], '$') == a + "$" + b + "$" + c + "$" + d
  {
    assert Join([d], '$') == d;
    assert [c, d][1..] == [d];
    assert Join([c, d], '$') == c + "$" + d;
    assert [b, c, d][1..] == [c, d];
    assert Join([b, c, d], '$') == b + "$" + (c + "$" + d);
    assert [a, b, c, d][1..] == [b, c, d];
  }

  /** Any text is accepted exactly when it is such a record: the algorithm, a decimal number of iterations, a salt, and
      the base64 form of the key derived from the password with these. */
  lemma AcceptedTextsExactly(kdf: Kdf, password: string, record: string)
    ensures IsPasswordCorrect(kdf, password, record) <==>
            exists iterations, salt :: IsRecordOf(kdf, password, record, iterations, salt)
  {
    hide Base64, Join, Split, Atoi;
    var parts := Split(record, '$');
    if IsPasswordCorrect(kdf, password, record) {
      JoinSplit(record, '$');
      Joined(parts[0], parts[1], parts[2], parts[3]);
      assert parts == [parts[0], parts[1], parts[2], parts[3]];
      assert IsRecordOf(kdf, password, record, parts[1], parts[2]);
    }
    forall iterations, salt | IsRecordOf(kdf, password, record, iterations, salt)
      ensures IsPasswordCorrect(kdf, password, record)
    {
      var hash := Base64(kdf(password, salt, Atoi(iterations).value));
      Base64HasNoDollar(kdf(password, salt, Atoi(iterations).value));
      Joined(ALGORITHM, iterations, salt, hash);
      SplitJoin([ALGORITHM, iterations, salt, hash], '$');
    }
  }

  /** A freshly hashed password verifies exactly when the salt contains no dollar sign. */
  lemma HashVerifiesExactly(kdf: Kdf, password: string, salt: string)
    ensures IsPasswordCorrect(kdf, password, HashedPassword(kdf, password, salt)) <==> '$' !in salt
  {
    var hash := Base64(kdf(password, salt, ITERATIONS));
    var record := HashedPassword(kdf, password, salt);
    var parts := [ALGORITHM, Itoa(ITERATIONS), salt, hash];
    Base64HasNoDollar(kdf(password, salt, ITERATIONS));
    RecordIsJoined(kdf, password, salt);
    if '$' !in salt {
      SplitJoin(parts, '$');
      AtoiItoa(ITERATIONS);
    } else {
      SplitCount(record, '$');
      DollarsInRecord(salt, hash);
    }
  }

  lemma DollarsInRecord(salt: string, hash: string)
    requires '$' in salt
    ensures Count(ALGORITHM + "$" + Itoa(ITERATIONS) + "$" + salt + "$" + hash, '$') >= 4
  {
    CountOf(salt, '$');
    CountConcat(ALGORITHM + "$" + Itoa(ITERATIONS) + "$" + salt + "$", hash, '$');
    CountConcat(ALGORITHM + "$" + Itoa(ITERATIONS) + "$" + salt, "$", '$');
    CountConcat(ALGORITHM + "$" + Itoa(ITERATIONS) + "$", salt, '$');
    CountConcat(ALGORITHM + "$" + Itoa(ITERATIONS), "$", '$');
    CountConcat(ALGORITHM + "$", Itoa(ITERATIONS), '$');
    CountConcat(ALGORITHM, "$", '$');
    assert Count("$", '$') == 1;
  }

  /** A record whose salt is cut short by a dollar sign never verifies, whatever the password. */
  lemma DollarSaltNeverVerifies(kdf: Kdf, password: string, other: string, salt: string)
    requires '$' in salt
    ensures !IsPasswordCorrect(kdf, other, HashedPassword(kdf, password, salt))
  {
    SplitCount(HashedPassword(kdf, password, salt), '$');
    DollarsInRecord(salt, Base64(kdf(password, salt, ITERATIONS)));
  }
}
