/** What the string that Alipay signs says: which fields, with which values, in which order, and when it can be read
    back. */
module AlipayContent {
  import opened Text
  import opened AlipaySign

  /** The fields that are signed: every non-empty one but `sign`. */
  predicate Counts(form: Form, k: string) {
    k in form && k != "sign" && form[k] != ""
  }

  /** These are the keys of the signed fields, each once, in ascending byte order. */
  ghost predicate AreSignedKeys(form: Form, ks: seq<string>) {
    && (forall k :: k in ks <==> Counts(form, k))
    && (forall i, j :: 0 <= i < j < |ks| ==> Leq(ks[i], ks[j]) && ks[i] != ks[j])
  }

  /** Each field as `key=value`. */
  function Texts(form: Form, ks: seq<string>): (r: seq<string>)
    requires forall k :: k in ks ==> k in form
    ensures |r| == |ks| && forall i :: 0 <= i < |r| ==> r[i] == ks[i] + "=" + form[ks[i]]
  {
    seq(|ks|, i requires 0 <= i < |ks| => ks[i] + "=" + form[ks[i]])
  }

  lemma TextsCons(form: Form, ks: seq<string>)
    requires ks != [] && forall k :: k in ks ==> k in form
    ensures Texts(form, ks) == [ks[0] + "=" + form[ks[0]]] + Texts(form, ks[1..])
  {
  }

  // ----- The text

  lemma {:induction false} PairsJoined(form: Form, ks: seq<string>)
    requires ks != [] && (forall k :: k in ks ==> k in form) && (forall k :: k in ks ==> Counts(form, k))
    ensures Pairs(form, ks) == "&" + Join(Texts(form, ks), '&')
  {
    hide Counts;
    TextsCons(form, ks);
    PairOf(form, ks[0]);
    var text := ks[0] + "=" + form[ks[0]];
    if |ks| == 1 {
      assert ks[1..] == [] && Texts(form, ks) == [text];
    } else {
      PairsJoined(form, ks[1..]);
      assert Texts(form, ks)[1..] == Texts(form, ks[1..]);
      Regroup(text, Join(Texts(form, ks[1..]), '&'));
    }
  }

  lemma PairOf(form: Form, k: string)
    requires Counts(form, k)
    ensures Pair(form, k) == "&" + (k + "=" + form[k])
  {
    assert IsSigned(form, k);
  }

  lemma Regroup(a: string, b: string)
    ensures ("&" + a) + ("&" + b) == "&" + (a + "&" + b)
  {
  }

  lemma KeysOf(form: Form, order: seq<string>) returns (ks: seq<string>)
    requires IsOrder(form, order)
    ensures ks == Kept(form, Sort(order)) && AreSignedKeys(form, ks)
  {
    hide Leq, Sort, Kept;
    SortSorts(order);
    ks := Kept(form, Sort(order));
    KeptSorted(form, Sort(order));
    forall k ensures k in ks <==> Counts(form, k) {
      KeptCount(form, Sort(order), k);
      assert k in ks <==> multiset(ks)[k] > 0;
    }
    forall i, j | 0 <= i < j < |ks| ensures Leq(ks[i], ks[j]) && ks[i] != ks[j] {
      KeptCount(form, Sort(order), ks[i]);
      if ks[i] == ks[j] { TwiceInSeq(ks, i, j); }
    }
  }

  lemma TwiceInSeq(s: seq<string>, i: nat, j: nat)
    requires i < j < |s| && s[i] == s[j]
    ensures multiset(s)[s[i]] >= 2
  {
    assert s == s[..i] + [s[i]] + s[i + 1..j] + [s[j]] + s[j + 1..];
  }

  lemma NoFieldsNoText(form: Form, ks: seq<string>)
    requires ks == []
    ensures Pairs(form, ks) == ""
  {
  }

  /** The string is the signed fields in ascending order of their keys, written `key=value`, joined by ampersands,
      with ampersands cut off at both ends. */
  lemma StringToSignIs(form: Form, order: seq<string>) returns (ks: seq<string>)
    requires IsOrder(form, order)
    ensures AreSignedKeys(form, ks)
    ensures StringToSign(form, order) == TrimRight(TrimLeft(Join(Texts(form, ks), '&'), '&'), '&')
  {
    hide Leq, Sort, Kept, Pairs, Join;
    ks := KeysOf(form, order);
    PairsOfKept(form, Sort(order));
    if ks == [] {
      NoFieldsNoText(form, ks);
      assert Texts(form, ks) == [] && Join([], '&') == "" by { JoinNothing(); }
    } else {
      PairsJoined(form, ks);
      var text := Join(Texts(form, ks), '&');
      assert ("&" + text)[1..] == text;
    }
  }

  lemma JoinNothing()
    ensures Join([], '&') == ""
  {
  }

  // ----- Reading it back

  /** The fields in a string, as far as `&` and `=` delimit them. */
  function Decoded(s: string): seq<(string, string)> {
    if s == "" then []
    else
      var parts := Split(s, '&');
      seq(|parts|, i requires 0 <= i < |parts| => (Cut(parts[i], '=').before, Cut(parts[i], '=').after))
  }

  function Fields(form: Form, ks: seq<string>): seq<(string, string)>
    requires forall k :: k in ks ==> k in form
  {
    seq(|ks|, i requires 0 <= i < |ks| => (ks[i], form[ks[i]]))
  }

  /** No signed key has a delimiter in it, and no signed value an ampersand. */
  predicate IsClean(form: Form) {
    forall k :: k in form && Counts(form, k) ==> '&' !in k && '=' !in k && '&' !in form[k]
  }

  lemma TextIsClean(form: Form, k: string)
    requires IsClean(form) && Counts(form, k)
    ensures var text := k + "=" + form[k];
            && '&' !in text && text[0] != '&' && text[|text| - 1] != '&'
            && Cut(text, '=') == Parts(k, form[k], true)
  {
    CutAt(k, '=', form[k]);
  }

  lemma {:induction false} JoinedEnds(parts: seq<string>)
    requires parts != [] && forall i :: 0 <= i < |parts| ==> parts[i] != "" && '&' !in parts[i]
    ensures var s := Join(parts, '&'); s != "" && s[0] != '&' && s[|s| - 1] != '&'
  {
    if |parts| > 1 { JoinedEnds(parts[1..]); }
  }

  lemma CleanText(form: Form, ks: seq<string>)
    requires IsClean(form) && ks != []
    requires (forall k :: k in ks ==> k in form) && (forall k :: k in ks ==> Counts(form, k))
    ensures var s := Join(Texts(form, ks), '&');
            s != "" && TrimRight(TrimLeft(s, '&'), '&') == s && Decoded(s) == Fields(form, ks)
  {
    hide Join, Split, Cut;
    var texts := Texts(form, ks);
    forall i | 0 <= i < |ks|
      ensures texts[i] != "" && '&' !in texts[i] && Cut(texts[i], '=') == Parts(ks[i], form[ks[i]], true)
    {
      TextIsClean(form, ks[i]);
    }
    JoinedEnds(texts);
    SplitJoin(texts, '&');
  }

  lemma {:induction false} DecodedIsClean(s: string)
    ensures forall i :: 0 <= i < |Decoded(s)| ==>
              '&' !in Decoded(s)[i].0 && '=' !in Decoded(s)[i].0 && '&' !in Decoded(s)[i].1
  {
    hide Split, Join;
    JoinSplit(s, '&');
    if s != "" {
      var parts := Split(s, '&');
      forall i | 0 <= i < |parts|
        ensures '&' !in Cut(parts[i], '=').before && '&' !in Cut(parts[i], '=').after
      {
        var p := Cut(parts[i], '=');
        assert p.found ==> parts[i] == p.before + ['='] + p.after;
      }
    }
  }

  /** Splitting the string at ampersands and each part at its first equals sign gives exactly the signed fields, each
      once with its own value and in ascending order of keys, if and only if no signed key has a delimiter in it and no
      signed value an ampersand. */
  lemma StringToSignReadsExactly(form: Form, order: seq<string>) returns (ks: seq<string>)
    requires IsOrder(form, order)
    ensures AreSignedKeys(form, ks)
    ensures Decoded(StringToSign(form, order)) == Fields(form, ks) <==> IsClean(form)
  {
    hide Leq, StringToSign, Join, Decoded;
    ks := StringToSignIs(form, order);
    var s := StringToSign(form, order);
    if IsClean(form) {
      if ks == [] {
        JoinNothing();
        assert Texts(form, ks) == [];
        DecodedNothing();
        assert Fields(form, ks) == [];
      } else {
        CleanText(form, ks);
      }
    }
    if Decoded(s) == Fields(form, ks) {
      DecodedIsClean(s);
      forall k | k in form && Counts(form, k) ensures '&' !in k && '=' !in k && '&' !in form[k] {
        var i :| 0 <= i < |ks| && ks[i] == k;
        assert Decoded(s)[i] == (k, form[k]);
      }
    }
  }

  lemma DecodedNothing()
    ensures Decoded("") == [] && TrimRight(TrimLeft("", '&'), '&') == ""
  {
  }

  /** Two forms that can be read back and give the same string to sign have the same signed fields with the same
      values. */
  lemma SameStringSameFields(form1: Form, order1: seq<string>, form2: Form, order2: seq<string>)
    requires IsOrder(form1, order1) && IsOrder(form2, order2) && IsClean(form1) && IsClean(form2)
    requires StringToSign(form1, order1) == StringToSign(form2, order2)
    ensures forall k :: Counts(form1, k) <==> Counts(form2, k)
    ensures forall k :: k in form1 && k in form2 && Counts(form1, k) ==> form1[k] == form2[k]
  {
    hide Leq, StringToSign, Decoded, IsClean, IsOrder;
    var ks1 := StringToSignReadsExactly(form1, order1);
    var ks2 := StringToSignReadsExactly(form2, order2);
    assert |ks1| == |Fields(form1, ks1)| == |Fields(form2, ks2)| == |ks2|;
    forall i | 0 <= i < |ks1| ensures ks1[i] == ks2[i] { assert Fields(form1, ks1)[i] == Fields(form2, ks2)[i]; }
    assert ks1 == ks2;
    forall k | k in form1 && k in form2 && Counts(form1, k) ensures form1[k] == form2[k] {
      var i :| 0 <= i < |ks1| && ks1[i] == k;
      assert Fields(form1, ks1)[i] == Fields(form2, ks2)[i];
    }
  }
}
