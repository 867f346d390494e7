/** Filled token URLs: idp/custom.go (`isUrlTemplate`, `fillUrlTemplate`, and the split of
    `getTokenFromUrlTemplate` into endpoint and body). */
module UrlTemplate {
  import opened Wrappers
  import opened Text
  import opened FormEncoding

  predicate IsNameStart(c: char) {
    'a' <= c <= 'z' || 'A' <= c <= 'Z' || c == '_'
  }

  predicate IsNameChar(c: char) {
    IsNameStart(c) || '0' <= c <= '9'
  }

  predicate IsName(s: string) {
    |s| > 0 && IsNameStart(s[0]) && forall i :: 0 <= i < |s| ==> IsNameChar(s[i])
  }

  /** The length of the longest prefix of name characters. */
  function NameLength(s: string): (n: nat)
    ensures n <= |s|
    ensures forall i :: 0 <= i < n ==> IsNameChar(s[i])
    ensures n < |s| ==> !IsNameChar(s[n])
  {
    if s != "" && IsNameChar(s[0]) then 1 + NameLength(s[1..]) else 0
  }

  /** The name of the placeholder the string starts with, if it starts with one. */
  function Placeholder(s: string): (r: Option<string>)
    ensures r.Some? ==> IsName(r.value) && "{" + r.value + "}" <= s
  {
    if s == "" || s[0] != '{' then None
    else
      var n := NameLength(s[1..]);
      if n > 0 && IsNameStart(s[1]) && n + 1 < |s| && s[n + 1] == '}' then Some(s[1..n + 1]) else None
  }

  /** The pattern finds a placeholder wherever one is written. */
  lemma PlaceholderAt(name: string, rest: string)
    requires IsName(name)
    ensures Placeholder("{" + name + "}" + rest) == Some(name)
  {
    var s := "{" + name + "}" + rest;
    assert s[1..] == name + "}" + rest;
    NameLengthAt(name, "}" + rest);
    assert name + ("}" + rest) == name + "}" + rest;
    assert s[1..|name| + 1] == name;
  }

  lemma {:induction false} NameLengthAt(name: string, rest: string)
    requires forall i :: 0 <= i < |name| ==> IsNameChar(name[i])
    requires |rest| > 0 && !IsNameChar(rest[0])
    ensures NameLength(name + rest) == |name|
  {
    if name == "" {
      assert name + rest == rest;
    } else {
      assert (name + rest)[1..] == name[1..] + rest;
      NameLengthAt(name[1..], rest);
    }
  }

  /** `isUrlTemplate` */
  predicate IsUrlTemplate(s: string) {
    s != "" && (Placeholder(s).Some? || IsUrlTemplate(s[1..]))
  }

  /** What a placeholder name stands for; an unknown name stands for the empty string. */
  type Values = v: map<string, string> | forall k :: k in v ==> IsBytes(v[k]) witness map[]

  function Lookup(values: Values, name: string): (r: string)
    ensures IsBytes(r)
  {
    if name in values then values[name] else ""
  }

  /** How much of the string the next replacement takes: a placeholder, or one character. */
  function Width(s: string): (n: nat)
    requires s != ""
    ensures 0 < n <= |s|
  {
    if Placeholder(s).Some? then |Placeholder(s).value| + 2 else 1
  }

  /** What replaces it. */
  function Replacement(s: string, values: Values): string
    requires s != ""
  {
    if Placeholder(s).Some? then Escape(Lookup(values, Placeholder(s).value)) else [s[0]]
  }

  /** `fillUrlTemplate` */
  function Fill(s: string, values: Values): string
    decreases |s|
  {
    if s == "" then "" else Replacement(s, values) + Fill(s[Width(s)..], values)
  }

  /** A URL without placeholders is left as it is. */
  lemma {:induction false} FillPlain(s: string, values: Values)
    requires !IsUrlTemplate(s)
    ensures Fill(s, values) == s
  {
    if s != "" { FillPlain(s[1..], values); }
  }

  /** A separator is a character that neither a placeholder nor an encoded value contains. */
  predicate IsSeparator(c: char) {
    !IsNameChar(c) && !IsEncodedChar(c) && c != '{' && c != '}'
  }

  lemma SeparatorsOfAQuery()
    ensures IsSeparator('?') && IsSeparator('&') && IsSeparator('=')
  {
  }

  /** A character that ends an unfinished placeholder without completing it. */
  predicate Interrupts(c: char) {
    !IsNameChar(c) && c != '}'
  }

  lemma {:induction false} NameLengthUpTo(a: string, c: char, b: string)
    requires Interrupts(c)
    ensures NameLength(a + [c] + b) == NameLength(a)
  {
    if a != "" {
      assert (a + [c] + b)[1..] == a[1..] + [c] + b;
      NameLengthUpTo(a[1..], c, b);
    }
  }

  lemma PlaceholderUpTo(a: string, c: char, b: string)
    requires Interrupts(c) && a != ""
    ensures Placeholder(a + [c] + b) == Placeholder(a)
  {
    var s := a + [c] + b;
    if a[0] == '{' {
      NameLengthUpTo(a[1..], c, b);
      assert s[1..] == a[1..] + [c] + b;
      var n := NameLength(a[1..]);
      if n + 1 < |a| { assert s[n + 1] == a[n + 1] && s[1..n + 1] == a[1..n + 1]; }
    }
  }

  /** The next replacement is the same with and without what follows. */
  lemma ReplacementUpTo(a: string, c: char, b: string, values: Values)
    requires Interrupts(c) && a != ""
    ensures var s := a + [c] + b;
            && Width(s) == Width(a) && Replacement(s, values) == Replacement(a, values)
            && s[Width(s)..] == a[Width(a)..] + [c] + b
  {
    PlaceholderUpTo(a, c, b);
    hide Placeholder, Interrupts, Escape;
    assert (a + [c] + b)[Width(a)..] == a[Width(a)..] + [c] + b;
  }

  lemma Regroup(a: string, b: string, c: string)
    ensures a + (b + c) == (a + b) + c
  {
  }

  lemma FillStep(s: string, values: Values)
    requires s != ""
    ensures Fill(s, values) == Replacement(s, values) + Fill(s[Width(s)..], values)
  {
    hide Replacement, Width;
  }

  /** Text up to a character that no placeholder can go on with is filled as if it stood alone. */
  lemma {:induction false} FillUpTo(a: string, c: char, b: string, values: Values)
    requires Interrupts(c)
    ensures Fill(a + [c] + b, values) == Fill(a, values) + Fill([c] + b, values)
    decreases |a|
  {
    if a == "" {
      assert a + [c] + b == [c] + b;
    } else {
      hide Fill, Replacement, Width, Interrupts;
      ReplacementUpTo(a, c, b, values);
      FillStep(a, values);
      FillStep(a + [c] + b, values);
      FillUpTo(a[Width(a)..], c, b, values);
      Regroup(Replacement(a, values), Fill(a[Width(a)..], values), Fill([c] + b, values));
    }
  }

  lemma FillSeparator(sep: char, b: string, values: Values)
    requires IsSeparator(sep)
    ensures Fill([sep] + b, values) == [sep] + Fill(b, values)
  {
    assert ([sep] + b)[1..] == b;
  }

  /** Filling goes on independently on both sides of a separator. */
  lemma FillAround(a: string, sep: char, b: string, values: Values)
    requires IsSeparator(sep)
    ensures Fill(a + [sep] + b, values) == Fill(a, values) + [sep] + Fill(b, values)
  {
    hide Fill, IsSeparator;
    SeparatorInterrupts(sep);
    FillUpTo(a, sep, b, values);
    FillSeparator(sep, b, values);
    Regroup(Fill(a, values), [sep], Fill(b, values));
  }

  lemma SeparatorInterrupts(sep: char)
    requires IsSeparator(sep)
    ensures Interrupts(sep)
  {
  }

  lemma {:induction false} FillHasNoSeparator(a: string, sep: char, values: Values)
    requires IsSeparator(sep) && sep !in a
    ensures sep !in Fill(a, values)
    decreases |a|
  {
    if a != "" {
      if Placeholder(a).Some? { EscapeAlphabet(Lookup(values, Placeholder(a).value)); }
      FillHasNoSeparator(a[Width(a)..], sep, values);
    }
  }

  /** Filling commutes with cutting at a separator. */
  lemma FillCommutesWithCut(s: string, sep: char, values: Values)
    requires IsSeparator(sep)
    ensures var p := Cut(s, sep);
            Cut(Fill(s, values), sep) == Parts(Fill(p.before, values), Fill(p.after, values), p.found)
  {
    var p := Cut(s, sep);
    FillHasNoSeparator(p.before, sep, values);
    if p.found {
      FillAround(p.before, sep, p.after, values);
      CutAt(Fill(p.before, values), sep, Fill(p.after, values));
    } else {
      CutNone(Fill(s, values), sep);
    }
  }

  function FillAll(parts: seq<string>, values: Values): (r: seq<string>)
    ensures |r| == |parts| && forall i :: 0 <= i < |parts| ==> r[i] == Fill(parts[i], values)
  {
    seq(|parts|, i requires 0 <= i < |parts| => Fill(parts[i], values))
  }

  /** Filling commutes with splitting at a separator. */
  lemma {:induction false} FillCommutesWithSplit(s: string, sep: char, values: Values)
    requires IsSeparator(sep)
    ensures Split(Fill(s, values), sep) == FillAll(Split(s, sep), values)
    decreases |s|
  {
    hide Fill, IsSeparator, Cut;
    var p := Cut(s, sep);
    FillCommutesWithCut(s, sep, values);
    if p.found {
      FillCommutesWithSplit(p.after, sep, values);
      FillCons(p.before, Split(p.after, sep), values);
    }
  }

  lemma FillCons(part: string, parts: seq<string>, values: Values)
    ensures FillAll([part] + parts, values) == [Fill(part, values)] + FillAll(parts, values)
  {
  }

  /** A placeholder on its own is filled with the encoded value. */
  lemma FillPlaceholder(name: string, values: Values)
    requires IsName(name)
    ensures Fill("{" + name + "}", values) == Escape(Lookup(values, name))
  {
    var s := "{" + name + "}";
    PlaceholderAt(name, "");
    assert s + "" == s && s[|name| + 2..] == "";
  }

  datatype Post = Post(endpoint: string, body: string)

  /** What `getTokenFromUrlTemplate` posts, and where. */
  function TokenPost(template: string, values: Values): Post {
    var p := Cut(Fill(template, values), '?');
    Post(p.before, p.after)
  }

  /** The posted request has the template's own structure: its endpoint, and one body field for each
      field of the template's query, in order.  Where the template writes `name={v}`, the field
      decodes to exactly the value of `v`, whatever bytes that value holds. */
  lemma PostedFieldsCarryTheValues(template: string, values: Values, i: nat, v: string)
    requires var fields := Split(Cut(template, '?').after, '&');
             i < |fields| && IsName(v) && Cut(fields[i], '=').found && Cut(fields[i], '=').after == "{" + v + "}"
    ensures var post := TokenPost(template, values);
            var fields := Split(Cut(template, '?').after, '&');
            && post.endpoint == Fill(Cut(template, '?').before, values)
            && Split(post.body, '&') == FillAll(fields, values)
            && (var field := Cut(Split(post.body, '&')[i], '=');
                && field.found && field.before == Fill(Cut(fields[i], '=').before, values)
                && Unescape(field.after) == Some(if v in values then values[v] else ""))
  {
    SeparatorsOfAQuery();
    var query := Cut(template, '?').after;
    FillCommutesWithCut(template, '?', values);
    FillCommutesWithSplit(query, '&', values);
    FillCommutesWithCut(Split(query, '&')[i], '=', values);
    FillPlaceholder(v, values);
    UnescapeEscape(Lookup(values, v));
  }

  /** The values never reach the endpoint or add a field: the number of fields is the template's. */
  lemma PostedStructureIsFixed(template: string, values1: Values, values2: Values)
    ensures |Split(TokenPost(template, values1).body, '&')| == |Split(TokenPost(template, values2).body, '&')|
    ensures '{' !in Cut(template, '?').before ==>
              TokenPost(template, values1).endpoint == TokenPost(template, values2).endpoint
  {
    SeparatorsOfAQuery();
    var p := Cut(template, '?');
    FillCommutesWithCut(template, '?', values1);
    FillCommutesWithCut(template, '?', values2);
    FillCommutesWithSplit(p.after, '&', values1);
    FillCommutesWithSplit(p.after, '&', values2);
    if '{' !in p.before {
      NoBraceNoTemplate(p.before);
      FillPlain(p.before, values1);
      FillPlain(p.before, values2);
    }
  }

  lemma {:induction false} NoBraceNoTemplate(s: string)
    requires '{' !in s
    ensures !IsUrlTemplate(s)
  {
    if s != "" { NoBraceNoTemplate(s[1..]); }
  }

  // ----- Placeholders anywhere

  /** Wherever a placeholder stands, it is filled with the encoded value of its name, an unknown name with nothing, and
      the text around it is filled as if it stood alone. */
  lemma PlaceholderIsFilled(a: string, name: string, b: string, values: Values)
    requires IsName(name)
    ensures Fill(a + "{" + name + "}" + b, values)
         == Fill(a, values) + (if name in values then Escape(values[name]) else "") + Fill(b, values)
  {
    hide Fill, IsName;
    var tail := name + "}" + b;
    assert a + "{" + name + "}" + b == a + ['{'] + tail;
    FillUpTo(a, '{', tail, values);
    FillNamed(name, b, values);
    assert ['{'] + tail == "{" + name + "}" + b;
    var value := if name in values then Escape(values[name]) else "";
    Regroup(Fill(a, values), value, Fill(b, values));
  }

  lemma FillNamed(name: string, b: string, values: Values)
    requires IsName(name)
    ensures Fill("{" + name + "}" + b, values)
         == (if name in values then Escape(values[name]) else "") + Fill(b, values)
  {
    hide IsName;
    var s := "{" + name + "}" + b;
    PlaceholderAt(name, b);
    assert s[|name| + 2..] == b;
  }

  /** A URL is a template exactly when a placeholder stands somewhere in it. */
  lemma {:induction false} IsUrlTemplateExactly(s: string)
    ensures IsUrlTemplate(s) <==> exists a, name, b :: IsName(name) && s == a + "{" + name + "}" + b
  {
    if IsUrlTemplate(s) { var a, name, b := FindPlaceholder(s); }
    forall a, name, b | IsName(name) && s == a + "{" + name + "}" + b ensures IsUrlTemplate(s) {
      TemplateAround(a, name, b);
    }
  }

  lemma {:induction false} FindPlaceholder(s: string) returns (a: string, name: string, b: string)
    requires IsUrlTemplate(s)
    ensures IsName(name) && s == a + "{" + name + "}" + b
  {
    if Placeholder(s).Some? {
      a, name := "", Placeholder(s).value;
      b := s[|name| + 2..];
      assert s == "{" + name + "}" + b;
      assert "" + "{" == "{";
    } else {
      a, name, b := FindPlaceholder(s[1..]);
      assert s == [s[0]] + s[1..];
      assert [s[0]] + (a + "{" + name + "}" + b) == ([s[0]] + a) + "{" + name + "}" + b;
      a := [s[0]] + a;
    }
  }

  lemma {:induction false} TemplateAround(a: string, name: string, b: string)
    requires IsName(name)
    ensures IsUrlTemplate(a + "{" + name + "}" + b)
  {
    var s := a + "{" + name + "}" + b;
    if a == "" {
      assert s == "{" + name + "}" + b;
      PlaceholderAt(name, b);
    } else {
      assert s[1..] == a[1..] + "{" + name + "}" + b;
      TemplateAround(a[1..], name, b);
    }
  }
}
