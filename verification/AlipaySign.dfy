/** The string an Alipay request signs: `getStringToSign` and `postWithBody` of idp/alipay.go. */
module AlipaySign {
  import opened Wrappers
  import opened Text
  import opened FormEncoding

  /** The form values; every field has exactly one value. */
  type Form = f: map<string, string> | forall k :: k in f ==> IsBytes(k) && IsBytes(f[k]) witness map[]

  // ----- sort.Strings

  /** Byte-wise lexicographic order. */
  predicate Leq(a: string, b: string) {
    a == "" || (b != "" && (a[0] < b[0] || (a[0] == b[0] && Leq(a[1..], b[1..]))))
  }

  lemma {:induction false} LeqTotal(a: string, b: string)
    ensures Leq(a, b) || Leq(b, a)
  {
    if a != "" && b != "" { LeqTotal(a[1..], b[1..]); }
  }

  lemma {:induction false} LeqAntisymmetric(a: string, b: string)
    requires Leq(a, b) && Leq(b, a)
    ensures a == b
  {
    if a != "" && b != "" {
      LeqAntisymmetric(a[1..], b[1..]);
      assert a == [a[0]] + a[1..] && b == [b[0]] + b[1..];
    }
  }

  lemma {:induction false} LeqTransitive(a: string, b: string, c: string)
    requires Leq(a, b) && Leq(b, c)
    ensures Leq(a, c)
  {
    if a != "" && b[0] == a[0] && c[0] == b[0] { LeqTransitive(a[1..], b[1..], c[1..]); }
  }

  ghost predicate Sorted(s: seq<string>) {
    forall i, j :: 0 <= i < j < |s| ==> Leq(s[i], s[j])
  }

  function Insert(x: string, s: seq<string>): seq<string> {
    if s == [] then [x] else if Leq(x, s[0]) then [x] + s else [s[0]] + Insert(x, s[1..])
  }

  function Sort(s: seq<string>): seq<string> {
    if s == [] then [] else Insert(s[0], Sort(s[1..]))
  }

  lemma {:induction false} InsertAdds(x: string, s: seq<string>)
    ensures multiset(Insert(x, s)) == multiset{x} + multiset(s)
  {
    if s != [] {
      assert s == [s[0]] + s[1..];
      if !Leq(x, s[0]) { InsertAdds(x, s[1..]); }
    }
  }

  lemma SortedCons(x: string, s: seq<string>)
    requires Sorted(s) && forall y :: y in s ==> Leq(x, y)
    ensures Sorted([x] + s)
  {
  }

  lemma {:induction false} InsertSorts(x: string, s: seq<string>)
    requires Sorted(s)
    ensures Sorted(Insert(x, s)) && multiset(Insert(x, s)) == multiset{x} + multiset(s)
  {
    hide Leq;
    InsertAdds(x, s);
    if s != [] {
      assert Sorted(s[1..]);
      if Leq(x, s[0]) {
        forall y | y in s ensures Leq(x, y) {
          var j :| 0 <= j < |s| && s[j] == y;
          if j > 0 { LeqTransitive(x, s[0], y); }
        }
        SortedCons(x, s);
      } else {
        LeqTotal(x, s[0]);
        InsertSorts(x, s[1..]);
        forall y | y in Insert(x, s[1..]) ensures Leq(s[0], y) {
          assert y in multiset{x} + multiset(s[1..]);
        }
        SortedCons(s[0], Insert(x, s[1..]));
      }
    }
  }

  lemma {:induction false} SortSorts(s: seq<string>)
    ensures Sorted(Sort(s)) && multiset(Sort(s)) == multiset(s)
  {
    if s != [] {
      SortSorts(s[1..]);
      InsertSorts(s[0], Sort(s[1..]));
      assert s == [s[0]] + s[1..];
    }
  }

  lemma SortedHeads(a: seq<string>, b: seq<string>)
    requires Sorted(a) && Sorted(b) && multiset(a) == multiset(b) && a != [] && b != []
    ensures a[0] == b[0]
  {
    hide Leq;
    assert a[0] in multiset(b) && b[0] in multiset(a);
    var i :| 0 <= i < |b| && b[i] == a[0];
    var j :| 0 <= j < |a| && a[j] == b[0];
    if i > 0 && j > 0 { LeqAntisymmetric(a[0], b[0]); }
  }

  lemma TailCounts(s: seq<string>)
    requires s != []
    ensures multiset(s[1..]) == multiset(s) - multiset{s[0]}
  {
    assert s == [s[0]] + s[1..];
  }

  /** A sorted sequence is determined by its elements. */
  lemma {:induction false} SortedIsUnique(a: seq<string>, b: seq<string>)
    requires Sorted(a) && Sorted(b) && multiset(a) == multiset(b)
    ensures a == b
  {
    hide Leq;
    assert |multiset(a)| == |a| && |multiset(b)| == |b|;
    if a != [] {
      SortedHeads(a, b);
      TailCounts(a);
      TailCounts(b);
      SortedIsUnique(a[1..], b[1..]);
      assert a == [a[0]] + a[1..] && b == [b[0]] + b[1..];
    }
  }

  // ----- getStringToSign

  /** An order in which ranging over the form may visit its keys. */
  ghost predicate IsOrder(form: Form, order: seq<string>) {
    multiset(order) == multiset(form.Keys)
  }

  predicate IsSigned(form: Form, k: string) {
    k in form && k != "sign" && form[k] != ""
  }

  function Pair(form: Form, k: string): string {
    if IsSigned(form, k) then "&" + k + "=" + form[k] else ""
  }

  function Pairs(form: Form, keys: seq<string>): string {
    if keys == [] then "" else Pair(form, keys[0]) + Pairs(form, keys[1..])
  }

  function StringToSign(form: Form, order: seq<string>): string {
    TrimRight(TrimLeft(Pairs(form, Sort(order)), '&'), '&')
  }

  /** The signed keys only. */
  function Kept(form: Form, keys: seq<string>): seq<string> {
    if keys == [] then []
    else (if IsSigned(form, keys[0]) then [keys[0]] else []) + Kept(form, keys[1..])
  }

  lemma {:induction false} PairsOfKept(form: Form, keys: seq<string>)
    ensures Pairs(form, keys) == Pairs(form, Kept(form, keys))
  {
    if keys != [] {
      PairsOfKept(form, keys[1..]);
      if IsSigned(form, keys[0]) { assert ([keys[0]] + Kept(form, keys[1..]))[1..] == Kept(form, keys[1..]); }
      else { assert [] + Kept(form, keys[1..]) == Kept(form, keys[1..]); }
    }
  }

  lemma CountCons(k: string, keys: seq<string>)
    requires keys != []
    ensures multiset(keys)[k] == multiset(keys[1..])[k] + if k == keys[0] then 1 else 0
  {
    assert keys == [keys[0]] + keys[1..];
  }

  lemma {:induction false} KeptCount(form: Form, keys: seq<string>, k: string)
    ensures multiset(Kept(form, keys))[k] == if IsSigned(form, k) then multiset(keys)[k] else 0
  {
    hide IsSigned;
    if keys != [] {
      KeptCount(form, keys[1..], k);
      CountCons(k, keys);
      if IsSigned(form, keys[0]) {
        CountCons(k, Kept(form, keys));
        assert Kept(form, keys)[1..] == Kept(form, keys[1..]);
      } else {
        assert Kept(form, keys) == Kept(form, keys[1..]);
      }
    }
  }

  lemma {:induction false} KeptAreKeys(form: Form, keys: seq<string>)
    ensures forall k :: k in Kept(form, keys) ==> k in keys
  {
    if keys != [] { KeptAreKeys(form, keys[1..]); }
  }

  /** The signed keys of a sorted sequence are sorted. */
  lemma {:induction false} KeptSorted(form: Form, keys: seq<string>)
    requires Sorted(keys)
    ensures Sorted(Kept(form, keys))
  {
    hide Leq, IsSigned;
    if keys != [] {
      var rest := Kept(form, keys[1..]);
      KeptSorted(form, keys[1..]);
      KeptAreKeys(form, keys[1..]);
      forall k | k in rest ensures Leq(keys[0], k) {
        var j :| 0 <= j < |keys[1..]| && keys[1..][j] == k;
        assert keys[j + 1] == k;
      }
      SortedCons(keys[0], rest);
    }
  }

  /** The two forms sign the same fields with the same values. */
  ghost predicate SameFields(form1: Form, form2: Form) {
    forall k :: && IsSigned(form1, k) == IsSigned(form2, k)
                && (IsSigned(form1, k) && IsSigned(form2, k) ==> form1[k] == form2[k])
  }

  lemma SignedIsOnce(form: Form, keys: seq<string>, k: string)
    requires IsSigned(form, k) && multiset(keys) == multiset(form.Keys)
    ensures multiset(keys)[k] == 1
  {
  }

  lemma SameKept(form1: Form, keys1: seq<string>, form2: Form, keys2: seq<string>)
    requires SameFields(form1, form2) && Sorted(keys1) && Sorted(keys2)
    requires multiset(keys1) == multiset(form1.Keys) && multiset(keys2) == multiset(form2.Keys)
    ensures Kept(form1, keys1) == Kept(form2, keys2)
  {
    hide Sorted, Leq, Kept, IsSigned;
    KeptSorted(form1, keys1);
    KeptSorted(form2, keys2);
    var kept1, kept2 := Kept(form1, keys1), Kept(form2, keys2);
    forall k ensures multiset(kept1)[k] == multiset(kept2)[k] {
      KeptCount(form1, keys1, k);
      KeptCount(form2, keys2, k);
      assert IsSigned(form1, k) == IsSigned(form2, k);
      if IsSigned(form1, k) {
        SignedIsOnce(form1, keys1, k);
        SignedIsOnce(form2, keys2, k);
      }
    }
    SortedIsUnique(kept1, kept2);
  }

  /** Two forms that sign the same fields with the same values sign the same string, in whatever
      order either is visited. */
  lemma SameFieldsSameString(form1: Form, order1: seq<string>, form2: Form, order2: seq<string>)
    requires IsOrder(form1, order1) && IsOrder(form2, order2) && SameFields(form1, form2)
    ensures StringToSign(form1, order1) == StringToSign(form2, order2)
  {
    hide Leq, Sort, IsSigned, Sorted, Kept, Pairs, SameFields;
    SortSorts(order1);
    SortSorts(order2);
    SameKept(form1, Sort(order1), form2, Sort(order2));
    PairsOfKept(form1, Sort(order1));
    PairsOfKept(form2, Sort(order2));
    SamePairs(form1, form2, Kept(form1, Sort(order1)));
  }

  lemma {:induction false} SamePairs(form1: Form, form2: Form, keys: seq<string>)
    requires SameFields(form1, form2)
    ensures Pairs(form1, keys) == Pairs(form2, keys)
  {
    if keys != [] { SamePairs(form1, form2, keys[1..]); }
  }

  /** The string to sign is the same for every order of iteration. */
  lemma OrderDoesNotMatter(form: Form, order1: seq<string>, order2: seq<string>)
    requires IsOrder(form, order1) && IsOrder(form, order2)
    ensures StringToSign(form, order1) == StringToSign(form, order2)
  {
    SameFieldsSameString(form, order1, form, order2);
  }

  // ----- Through the posted body

  /** `url.Values.Encode`: fields in key order. */
  function Encoded(form: Form, keys: seq<string>): seq<string>
    requires forall i :: 0 <= i < |keys| ==> keys[i] in form
  {
    if keys == [] then []
    else [Escape(keys[0]) + "=" + Escape(form[keys[0]])] + Encoded(form, keys[1..])
  }

  /** One field of a posted form. */
  function ParseField(field: string): Option<(string, string)> {
    var p := Cut(field, '=');
    var key, value := Unescape(p.before), Unescape(p.after);
    if key.None? || value.None? then None else Some((key.value, value.value))
  }

  /** `url.ParseQuery`, keeping the first value of each key; `None` is a malformed field. */
  function ParseFields(fields: seq<string>): Option<map<string, string>> {
    if fields == [] then Some(map[])
    else
      var rest := ParseFields(fields[1..]);
      if fields[0] == "" then rest
      else
        var field := ParseField(fields[0]);
        if field.None? || rest.None? then None else Some(rest.value[field.value.0 := field.value.1])
  }

  function Post(form: Form, keys: seq<string>): string
    requires forall i :: 0 <= i < |keys| ==> keys[i] in form
  {
    Join(Encoded(form, keys), '&')
  }

  lemma FieldRoundTrip(key: string, value: string)
    requires IsBytes(key) && IsBytes(value)
    ensures var field := Escape(key) + "=" + Escape(value);
            ParseField(field) == Some((key, value)) && '&' !in field && field != ""
  {
    hide Escape, Unescape, Cut, IsBytes;
    EscapeAlphabet(key);
    EscapeAlphabet(value);
    CutAt(Escape(key), '=', Escape(value));
    UnescapeEscape(key);
    UnescapeEscape(value);
  }

  /** The fields of a form under some of its keys. */
  function Restricted(form: Form, keys: seq<string>): map<string, string> {
    map k | k in keys && k in form :: form[k]
  }

  lemma RestrictedCons(form: Form, keys: seq<string>)
    requires keys != [] && keys[0] in form
    ensures Restricted(form, keys) == Restricted(form, keys[1..])[keys[0] := form[keys[0]]]
  {
    assert keys == [keys[0]] + keys[1..];
  }

  lemma {:induction false} EncodedParses(form: Form, keys: seq<string>)
    requires forall i :: 0 <= i < |keys| ==> keys[i] in form
    ensures |Encoded(form, keys)| == |keys|
    ensures forall i :: 0 <= i < |keys| ==> '&' !in Encoded(form, keys)[i]
    ensures ParseFields(Encoded(form, keys)) == Some(Restricted(form, keys))
  {
    hide ParseField, Escape, IsBytes, Restricted;
    if keys == [] {
      assert Restricted(form, keys) == map[] by { NothingRestricted(form); }
    } else {
      var fields, rest := Encoded(form, keys), Encoded(form, keys[1..]);
      EncodedParses(form, keys[1..]);
      FieldRoundTrip(keys[0], form[keys[0]]);
      RestrictedCons(form, keys);
      assert fields[1..] == rest;
    }
  }

  lemma NothingRestricted(form: Form)
    ensures Restricted(form, []) == map[]
  {
  }

  lemma SortedKeys(form: Form, order: seq<string>)
    requires IsOrder(form, order)
    ensures forall k :: k in Sort(order) <==> k in form
  {
    SortSorts(order);
    hide Sort, Sorted;
    forall k ensures k in Sort(order) <==> k in form {
      assert k in Sort(order) <==> k in multiset(Sort(order));
      assert k in form <==> k in multiset(form.Keys);
    }
  }

  /** Parsing the posted body gives back the form. */
  lemma PostParses(form: Form, order: seq<string>)
    requires IsOrder(form, order)
    ensures forall i :: 0 <= i < |Sort(order)| ==> Sort(order)[i] in form
    ensures ParseFields(Split(Post(form, Sort(order)), '&')) == Some(form)
  {
    SortedKeys(form, order);
    hide IsOrder, Sort;
    PostParsesInOrder(form, Sort(order));
  }

  lemma PostParsesInOrder(form: Form, keys: seq<string>)
    requires forall k :: k in keys <==> k in form
    ensures ParseFields(Split(Post(form, keys), '&')) == Some(form)
  {
    EncodedParses(form, keys);
    assert Restricted(form, keys) == form;
    if keys == [] {
      CutNone("", '&');
      assert ParseFields([""]) == ParseFields([""][1..]);
    } else {
      hide ParseFields, Encoded;
      SplitJoin(Encoded(form, keys), '&');
    }
  }

  /** A receiver that parses the posted body and computes the string to sign, visiting its own map in
      any order, gets exactly the string that was signed before the `sign` field was added. */
  lemma ReceiverRecomputesTheString(form: Form, signature: string, order: seq<string>, sentOrder: seq<string>,
                                    receivedOrder: seq<string>)
    requires IsBytes(signature)
    requires IsOrder(form, order) && IsOrder(form["sign" := signature], sentOrder)
    ensures forall i :: 0 <= i < |Sort(sentOrder)| ==> Sort(sentOrder)[i] in form["sign" := signature]
    ensures var received := ParseFields(Split(Post(form["sign" := signature], Sort(sentOrder)), '&'));
            && received == Some(form["sign" := signature])
            && (IsOrder(received.value, receivedOrder) ==>
                  StringToSign(received.value, receivedOrder) == StringToSign(form, order))
  {
    hide Sort, Split, ParseFields, Post, StringToSign, IsOrder;
    var sent: Form := form["sign" := signature];
    PostParses(sent, sentOrder);
    if IsOrder(sent, receivedOrder) {
      assert SameFields(sent, form);
      SameFieldsSameString(sent, receivedOrder, form, order);
    }
  }

  /** The first loop: the keys of the form, in any order. */
  method CollectKeys(form: Form) returns (keys: seq<string>)
    ensures IsOrder(form, keys)
  {
    keys := [];
    var todo := form.Keys;
    while todo != {}
      invariant multiset(keys) + multiset(todo) == multiset(form.Keys)
      decreases todo
    {
      var k :| k in todo;
      keys := keys + [k];
      todo := todo - {k};
    }
  }

  /** The second loop: the signed pairs, in the order of the keys. */
  method AppendPairs(form: Form, keys: seq<string>) returns (str: string)
    ensures str == Pairs(form, keys)
  {
    hide Pairs;
    str := "";
    assert keys[0..] == keys;
    for i := 0 to |keys|
      invariant str + Pairs(form, keys[i..]) == Pairs(form, keys)
    {
      var k := keys[i];
      ghost var before := str;
      NextPair(form, keys, i);
      if k in form && k != "sign" && form[k] != "" {
        str := str + ("&" + k + "=" + form[k]);
      }
      assert str == before + Pair(form, k);
      assert before + (Pair(form, k) + Pairs(form, keys[i + 1..])) == str + Pairs(form, keys[i + 1..]);
    }
    NoPairs(form, keys[|keys|..]);
  }

  lemma NextPair(form: Form, keys: seq<string>, i: nat)
    requires i < |keys|
    ensures Pairs(form, keys[i..]) == Pair(form, keys[i]) + Pairs(form, keys[i + 1..])
  {
    assert keys[i..][1..] == keys[i + 1..];
  }

  lemma NoPairs(form: Form, keys: seq<string>)
    requires keys == []
    ensures Pairs(form, keys) == ""
  {
  }

  /** `getStringToSign` */
  method GetStringToSign(form: Form) returns (str: string)
    ensures forall order :: IsOrder(form, order) ==> str == StringToSign(form, order)
  {
    var keys := CollectKeys(form);
    ghost var visited := keys;
    keys := Sort(keys);
    str := AppendPairs(form, keys);
    str := TrimRight(TrimLeft(str, '&'), '&');
    forall order | IsOrder(form, order) ensures str == StringToSign(form, order) {
      OrderDoesNotMatter(form, visited, order);
    }
  }
}
