/** Requests forwarded to an upstream MCP server: controllers/mcp_server.go.

    The proxy decides on what its own JSON decoder reads; the upstream server may decode differently.
    The key check makes every such decoder read the same.
  */
module McpKeys {
  import opened Wrappers

  /** A decoded JSON value: objects keep their members in order, with repetitions. */
  datatype Json = Null | Text(text: string) | Object(members: seq<Member>) | Other
  datatype Member = Member(key: string, value: Json)

  /** Case folding of keys: two keys are equal under folding when their images are. */
  type Folding = string -> string

  // ----- Decoders

  /** How a decoder finds the member for a field name: the first or the last match, by exact or folded keys. */
  datatype Decoder = Decoder(last: bool, folded: bool)

  predicate Matches(d: Decoder, fold: Folding, key: string, name: string) {
    if d.folded then fold(key) == fold(name) else key == name
  }

  function Read(d: Decoder, fold: Folding, members: seq<Member>, name: string): Option<Json> {
    if members == [] then None
    else if d.last then
      var m := members[|members| - 1];
      if Matches(d, fold, m.key, name) then Some(m.value) else Read(d, fold, members[..|members| - 1], name)
    else
      if Matches(d, fold, members[0].key, name) then Some(members[0].value) else Read(d, fold, members[1..], name)
  }

  // ----- The check

  /** A key that folds to the name is the name itself. */
  predicate NoVariant(fold: Folding, members: seq<Member>, name: string) {
    forall i :: 0 <= i < |members| && fold(members[i].key) == fold(name) ==> members[i].key == name
  }

  predicate NoRepeat(members: seq<Member>, name: string) {
    forall i, j :: 0 <= i < j < |members| && members[i].key == name ==> members[j].key != name
  }

  /** A name that is listed twice must not occur at all. */
  predicate ListedOnce(members: seq<Member>, names: seq<string>, k: nat)
    requires k < |names|
  {
    forall i, l :: 0 <= i < |members| && 0 <= l < |names| && l != k && members[i].key == names[k] ==>
      names[l] != names[k]
  }

  predicate IsClear(fold: Folding, members: seq<Member>, names: seq<string>) {
    forall k :: 0 <= k < |names| ==>
      NoVariant(fold, members, names[k]) && NoRepeat(members, names[k]) && ListedOnce(members, names, k)
  }

  /** The loop of `hasAmbiguousJsonKeys` over the listed names, for one member. */
  method CheckKey(fold: Folding, key: string, names: seq<string>, seen: set<string>)
    returns (ambiguous: bool, seen': set<string>)
    ensures ambiguous <==>
            exists k :: 0 <= k < |names| && fold(key) == fold(names[k])
                        && (key != names[k] || names[k] in seen || exists l :: 0 <= l < k && names[l] == names[k])
    ensures !ambiguous ==> seen' == seen + (set k | 0 <= k < |names| && key == names[k] :: names[k])
  {
    seen' := seen;
    for k := 0 to |names|
      invariant seen' == seen + (set i | 0 <= i < k && key == names[i] :: names[i])
      invariant forall i :: 0 <= i < k && fold(key) == fold(names[i]) ==>
                  key == names[i] && names[i] !in seen && forall l :: 0 <= l < i ==> names[l] != names[i]
    {
      if fold(key) == fold(names[k]) {
        if key != names[k] || names[k] in seen' {
          return true, seen';
        }
        seen' := seen' + {names[k]};
      }
    }
    ambiguous := false;
  }

  /** `hasAmbiguousJsonKeys` on data that parses; anything but an object is not ambiguous. */
  method HasAmbiguousKeys(fold: Folding, data: Json, names: seq<string>) returns (ambiguous: bool)
    ensures ambiguous <==> data.Object? && !IsClear(fold, data.members, names)
  {
    if !data.Object? {
      return false;
    }
    var members := data.members;
    var seen: set<string> := {};
    for i := 0 to |members|
      invariant forall n :: n in seen <==> n in names && exists j :: 0 <= j < i && members[j].key == n
      invariant IsClear(fold, members[..i], names)
    {
      var found;
      ghost var before := seen;
      found, seen := CheckKey(fold, members[i].key, names, seen);
      if found {
        FlaggedIsNotClear(fold, members, names, i, before);
        return true;
      }
      UnflaggedStaysClear(fold, members, names, i, before);
    }
    assert members[..|members|] == members;
    ambiguous := false;
  }

  lemma FlaggedIsNotClear(fold: Folding, members: seq<Member>, names: seq<string>, i: nat, seen: set<string>)
    requires i < |members| && forall n :: n in seen ==> exists j :: 0 <= j < i && members[j].key == n
    requires exists k :: 0 <= k < |names| && fold(members[i].key) == fold(names[k])
                         && (members[i].key != names[k] || names[k] in seen
                             || exists l :: 0 <= l < k && names[l] == names[k])
    ensures !IsClear(fold, members, names)
  {
    var k :| 0 <= k < |names| && fold(members[i].key) == fold(names[k])
             && (members[i].key != names[k] || names[k] in seen || exists l :: 0 <= l < k && names[l] == names[k]);
    if members[i].key != names[k] {
      assert !NoVariant(fold, members, names[k]);
    } else if names[k] in seen {
      var j :| 0 <= j < i && members[j].key == names[k];
      assert !NoRepeat(members, names[k]);
    } else {
      assert !ListedOnce(members, names, k);
    }
  }

  lemma UnflaggedStaysClear(fold: Folding, members: seq<Member>, names: seq<string>, i: nat, seen: set<string>)
    requires i < |members| && IsClear(fold, members[..i], names)
    requires forall n :: n in names && (exists j :: 0 <= j < i && members[j].key == n) ==> n in seen
    requires forall k :: 0 <= k < |names| && fold(members[i].key) == fold(names[k]) ==>
               members[i].key == names[k] && names[k] !in seen && forall l :: 0 <= l < k ==> names[l] != names[k]
    ensures IsClear(fold, members[..i + 1], names)
  {
    var before, after := members[..i], members[..i + 1];
    forall k | 0 <= k < |names|
      ensures NoVariant(fold, after, names[k]) && NoRepeat(after, names[k]) && ListedOnce(after, names, k)
    {
      assert NoVariant(fold, before, names[k]) && NoRepeat(before, names[k]) && ListedOnce(before, names, k);
      forall m, l | 0 <= m < |after| && 0 <= l < |names| && l != k && after[m].key == names[k]
        ensures names[l] != names[k]
      {
        if m == i { assert fold(members[i].key) == fold(names[l]) || names[l] != names[k]; }
        else { assert before[m] == after[m]; }
      }
      forall a, b | 0 <= a < b < |after| && after[a].key == names[k] ensures after[b].key != names[k] {
        if b < i { assert before[a] == after[a] && before[b] == after[b]; }
      }
      forall m | 0 <= m < |after| && fold(after[m].key) == fold(names[k]) ensures after[m].key == names[k] {
        if m < i { assert before[m] == after[m]; }
      }
    }
  }

  // ----- Agreement of decoders

  lemma {:induction false} ReadNothing(d: Decoder, fold: Folding, members: seq<Member>, name: string)
    requires forall i :: 0 <= i < |members| ==> !Matches(d, fold, members[i].key, name)
    ensures Read(d, fold, members, name).None?
  {
    if members != [] { ReadNothing(d, fold, if d.last then members[..|members| - 1] else members[1..], name); }
  }

  lemma {:induction false} ReadTheOne(d: Decoder, fold: Folding, members: seq<Member>, i: nat, name: string)
    requires i < |members|
    requires forall j :: 0 <= j < |members| ==> (Matches(d, fold, members[j].key, name) <==> j == i)
    ensures Read(d, fold, members, name) == Some(members[i].value)
  {
    var last := |members| - 1;
    if d.last && i < last { ReadTheOne(d, fold, members[..last], i, name); }
    if !d.last && i > 0 { ReadTheOne(d, fold, members[1..], i - 1, name); }
  }

  /** An object that passes the check for a name is read the same by every decoder. */
  lemma DecodersAgree(fold: Folding, members: seq<Member>, name: string, d1: Decoder, d2: Decoder)
    requires NoVariant(fold, members, name) && NoRepeat(members, name)
    ensures Read(d1, fold, members, name) == Read(d2, fold, members, name)
  {
    if i :| 0 <= i < |members| && members[i].key == name {
      ReadTheOne(d1, fold, members, i, name);
      ReadTheOne(d2, fold, members, i, name);
    } else {
      ReadNothing(d1, fold, members, name);
      ReadNothing(d2, fold, members, name);
    }
  }

  /** The same keys with values that name their positions. */
  function Numbered(members: seq<Member>): (r: seq<Member>)
    ensures |r| == |members|
    ensures forall i :: 0 <= i < |r| ==> r[i] == Member(members[i].key, Text(seq(i, j => 'x')))
  {
    seq(|members|, i requires 0 <= i < |members| => Member(members[i].key, Text(seq(i, j => 'x'))))
  }

  /** A first-match decoder reads no later member than a match, a last-match decoder no earlier one. */
  lemma {:induction false} ReadIsExtreme(d: Decoder, fold: Folding, members: seq<Member>, i: nat, name: string)
    returns (k: nat)
    requires i < |members| && Matches(d, fold, members[i].key, name)
    ensures k < |members| && Read(d, fold, members, name) == Some(members[k].value)
    ensures if d.last then i <= k else k <= i
  {
    var last := |members| - 1;
    if d.last {
      if Matches(d, fold, members[last].key, name) { k := last; }
      else { k := ReadIsExtreme(d, fold, members[..last], i, name); }
    } else {
      if Matches(d, fold, members[0].key, name) { k := 0; }
      else {
        k := ReadIsExtreme(d, fold, members[1..], i - 1, name);
        k := k + 1;
      }
    }
  }

  lemma TwoMatchesDisagree(fold: Folding, members: seq<Member>, i: nat, j: nat, name: string, folded: bool)
    requires i < j < |members|
    requires Matches(Decoder(false, folded), fold, members[i].key, name)
    requires Matches(Decoder(false, folded), fold, members[j].key, name)
    ensures Read(Decoder(false, folded), fold, Numbered(members), name)
         != Read(Decoder(true, folded), fold, Numbered(members), name)
  {
    var numbered := Numbered(members);
    var a := ReadIsExtreme(Decoder(false, folded), fold, numbered, i, name);
    var b := ReadIsExtreme(Decoder(true, folded), fold, numbered, j, name);
    assert |numbered[a].value.text| == a && |numbered[b].value.text| == b;
  }

  /** The check is exact: when it flags a name, some values make two decoders disagree on it. */
  lemma AmbiguousKeysCanDisagree(fold: Folding, members: seq<Member>, name: string) returns (d1: Decoder, d2: Decoder)
    requires !(NoVariant(fold, members, name) && NoRepeat(members, name))
    ensures Read(d1, fold, Numbered(members), name) != Read(d2, fold, Numbered(members), name)
  {
    var numbered := Numbered(members);
    if !NoRepeat(members, name) {
      var i, j :| 0 <= i < j < |members| && members[i].key == name && members[j].key == name;
      d1, d2 := Decoder(false, false), Decoder(true, false);
      TwoMatchesDisagree(fold, members, i, j, name, false);
    } else {
      var i :| 0 <= i < |members| && fold(members[i].key) == fold(name) && members[i].key != name;
      if j :| 0 <= j < |members| && members[j].key == name {
        d1, d2 := Decoder(false, true), Decoder(true, true);
        TwoMatchesDisagree(fold, members, if i < j then i else j, if i < j then j else i, name, true);
      } else {
        d1, d2 := Decoder(false, false), Decoder(false, true);
        ReadNothing(d1, fold, numbered, name);
        var k := ReadIsExtreme(d2, fold, numbered, i, name);
      }
    }
  }

  // ----- The proxy

  datatype Tool = Tool(name: string, isAllowed: bool)

  /** The proxy's own decoder: the last match under folding. */
  const OWN := Decoder(true, true)

  /** A string field: missing or null leaves it empty, another type is an error. */
  function TextField(v: Option<Json>): Option<string> {
    match v
    case None => Some("")
    case Some(Null) => Some("")
    case Some(Text(t)) => Some(t)
    case Some(_) => None
  }

  /** The tool name in the parameters of a call, or an error. */
  function ToolName(d: Decoder, fold: Folding, params: Option<Json>): Option<string> {
    match params
    case Some(Object(members)) => TextField(Read(d, fold, members, "name"))
    case Some(Null) => Some("")
    case _ => None
  }

  /** The first tool of the list with the name. */
  function FirstListing(tools: seq<Tool>, name: string): Option<Tool> {
    if tools == [] then None
    else if tools[0].name == name then Some(tools[0])
    else FirstListing(tools[1..], name)
  }

  /** The loop of `ProxyServer` over the server's tools. */
  method IsToolAllowed(tools: seq<Tool>, name: string) returns (allowed: bool)
    ensures allowed <==> IsAllowed(tools, name)
  {
    for i := 0 to |tools|
      invariant FirstListing(tools, name) == FirstListing(tools[i..], name)
    {
      if tools[i].name == name {
        return tools[i].isAllowed;
      }
    }
    allowed := false;
  }

  /** What must hold of a request before it is forwarded to a server with these tools. */
  predicate MayForward(fold: Folding, body: Json, tools: seq<Tool>) {
    && body.Object?
    && IsClear(fold, body.members, ["method", "params"])
    && (var method_ := TextField(Read(OWN, fold, body.members, "method"));
        var params := Read(OWN, fold, body.members, "params");
        && method_.Some?
        && (params.Some? && params.value.Object? ==> IsClear(fold, params.value.members, ["name"]))
        && (method_ == Some("tools/call") ==>
              && ToolName(OWN, fold, params).Some?
              && (tools != [] ==> IsAllowed(tools, ToolName(OWN, fold, params).value))))
  }

  predicate IsAllowed(tools: seq<Tool>, name: string) {
    FirstListing(tools, name).Some? && FirstListing(tools, name).value.isAllowed
  }

  /** `ProxyServer` up to the forwarding, for a server that exists and has a usable URL. */
  method ProxyServer(fold: Folding, body: Json, tools: seq<Tool>) returns (forwarded: bool)
    ensures forwarded <==> MayForward(fold, body, tools)
  {
    if !body.Object? {
      return false;
    }
    var called := TextField(Read(OWN, fold, body.members, "method"));
    if called.None? {
      return false;
    }
    var ambiguous := HasAmbiguousKeys(fold, body, ["method", "params"]);
    if ambiguous {
      return false;
    }
    var params := Read(OWN, fold, body.members, "params");
    if params.Some? {
      ambiguous := HasAmbiguousKeys(fold, params.value, ["name"]);
      if ambiguous {
        return false;
      }
    }
    if called.value == "tools/call" {
      var name := ToolName(OWN, fold, params);
      if name.None? {
        return false;
      }
      if |tools| > 0 {
        forwarded := IsToolAllowed(tools, name.value);
        return;
      }
    }
    forwarded := true;
  }

  /** Whatever decoders an upstream server uses for the request, its parameters and the name: a
      forwarded request that it reads as a tool call names a tool whose first listing is allowed. */
  lemma ForwardedCallIsAllowed(fold: Folding, body: Json, tools: seq<Tool>, d1: Decoder, d2: Decoder, d3: Decoder)
    requires MayForward(fold, body, tools) && tools != []
    requires Read(d1, fold, body.members, "method") == Some(Text("tools/call"))
    ensures var name := ToolName(d3, fold, Read(d2, fold, body.members, "params"));
            name.Some? && IsAllowed(tools, name.value)
  {
    var members := body.members;
    var names := ["method", "params"];
    assert NoVariant(fold, members, names[0]) && NoRepeat(members, names[0]);
    assert NoVariant(fold, members, names[1]) && NoRepeat(members, names[1]);
    DecodersAgree(fold, members, "method", d1, OWN);
    DecodersAgree(fold, members, "params", d2, OWN);
    var params := Read(OWN, fold, members, "params");
    if params.Some? && params.value.Object? {
      var inner := ["name"];
      assert NoVariant(fold, params.value.members, inner[0]) && NoRepeat(params.value.members, inner[0]);
      DecodersAgree(fold, params.value.members, "name", d3, OWN);
    }
  }

  // ----- What is forwarded

  /** No member has a key that the name's decoders could confuse with another. */
  predicate IsSound(fold: Folding, members: seq<Member>, name: string) {
    && (forall i :: 0 <= i < |members| && fold(members[i].key) == fold(name) ==> members[i].key == name)
    && (forall i, j :: 0 <= i < j < |members| ==> !(members[i].key == name && members[j].key == name))
  }

  /** A field that may hold a text: the text, or nothing when it is missing or null. */
  predicate Holds(v: Option<Json>, text: string) {
    v == Some(Text(text)) || (text == "" && v in {None, Some(Null)})
  }

  /** The first tool of that name is allowed. */
  predicate FirstIsAllowed(tools: seq<Tool>, name: string) {
    exists i :: 0 <= i < |tools| && tools[i].name == name && tools[i].isAllowed
                && forall j :: 0 <= j < i ==> tools[j].name != name
  }

  /** The name that a call's parameters give, to any decoder. */
  predicate Names(d: Decoder, fold: Folding, params: Json, name: string) {
    match params
    case Object(members) => Holds(Read(d, fold, members, "name"), name)
    case Null => name == ""
    case _ => false
  }

  lemma {:induction false} FirstListingIs(tools: seq<Tool>, name: string)
    ensures IsAllowed(tools, name) <==> FirstIsAllowed(tools, name)
  {
    if tools != [] {
      var rest := tools[1..];
      FirstListingIs(rest, name);
      if tools[0].name != name {
        if FirstIsAllowed(rest, name) {
          var i :| 0 <= i < |rest| && rest[i].name == name && rest[i].isAllowed
                   && forall j :: 0 <= j < i ==> rest[j].name != name;
          forall j | 0 <= j < i + 1 ensures tools[j].name != name { if j > 0 { assert tools[j] == rest[j - 1]; } }
          assert tools[i + 1] == rest[i];
        }
        if FirstIsAllowed(tools, name) {
          var i :| 0 <= i < |tools| && tools[i].name == name && tools[i].isAllowed
                   && forall j :: 0 <= j < i ==> tools[j].name != name;
          forall j | 0 <= j < i - 1 ensures rest[j].name != name { assert rest[j] == tools[j + 1]; }
          assert rest[i - 1] == tools[i];
        }
      }
    }
  }

  lemma ClearMeansSound(fold: Folding, members: seq<Member>)
    ensures IsClear(fold, members, ["name"]) <==> IsSound(fold, members, "name")
    ensures IsClear(fold, members, ["method", "params"]) <==>
            IsSound(fold, members, "method") && IsSound(fold, members, "params")
  {
    var one, two := ["name"], ["method", "params"];
    if IsSound(fold, members, "name") {
      assert NoVariant(fold, members, one[0]) && NoRepeat(members, one[0]) && ListedOnce(members, one, 0);
    }
    if IsSound(fold, members, "method") && IsSound(fold, members, "params") {
      assert NoVariant(fold, members, two[0]) && NoRepeat(members, two[0]) && ListedOnce(members, two, 0);
      assert NoVariant(fold, members, two[1]) && NoRepeat(members, two[1]) && ListedOnce(members, two, 1);
    }
    if IsClear(fold, members, one) { assert NoVariant(fold, members, one[0]) && NoRepeat(members, one[0]); }
    if IsClear(fold, members, two) {
      assert NoVariant(fold, members, two[0]) && NoRepeat(members, two[0]);
      assert NoVariant(fold, members, two[1]) && NoRepeat(members, two[1]);
    }
  }

  /** The request may be forwarded, as a given decoder reads it. */
  ghost predicate IsForwardable(d: Decoder, fold: Folding, body: Json, tools: seq<Tool>) {
    && body.Object?
    && IsSound(fold, body.members, "method") && IsSound(fold, body.members, "params")
    && (var called, params := Read(d, fold, body.members, "method"), Read(d, fold, body.members, "params");
        && HoldsText(called)
        && (params.Some? && params.value.Object? ==> IsSound(fold, params.value.members, "name"))
        && (called == Some(Text("tools/call")) ==> params.Some? && IsAllowedCall(d, fold, params.value, tools)))
  }

  /** The parameters of a call give a name, and if the server lists tools, that of a tool it allows. */
  ghost predicate IsAllowedCall(d: Decoder, fold: Folding, params: Json, tools: seq<Tool>) {
    && (params.Null? || (params.Object? && HoldsText(Read(d, fold, params.members, "name"))))
    && (tools != [] ==> forall name :: Names(d, fold, params, name) ==> FirstIsAllowed(tools, name))
  }

  predicate HoldsText(v: Option<Json>) {
    v in {None, Some(Null)} || v.value.Text?
  }

  /** A request is forwarded exactly when any one decoder, whichever it is, finds this: an object whose method and
      parameters have one key each and no variant, a method that is a text, and, for a tool call, parameters whose name
      has one key and no variant and is that of a tool whose first listing is allowed, if the server lists tools. */
  lemma ForwardedExactly(d: Decoder, fold: Folding, body: Json, tools: seq<Tool>)
    ensures MayForward(fold, body, tools) <==> IsForwardable(d, fold, body, tools)
  {
    hide Read, IsClear, IsSound, FirstIsAllowed, IsAllowed;
    if body.Object? {
      ClearMeansSound(fold, body.members);
      if IsSound(fold, body.members, "method") && IsSound(fold, body.members, "params") {
        SoundIsRead(d, fold, body.members, "method");
        SoundIsRead(d, fold, body.members, "params");
        var params := Read(OWN, fold, body.members, "params");
        if params.Some? && params.value.Object? {
          ClearMeansSound(fold, params.value.members);
          if IsSound(fold, params.value.members, "name") { SoundIsRead(d, fold, params.value.members, "name"); }
        }
        if params.Some? {
          forall name ensures IsAllowed(tools, name) <==> FirstIsAllowed(tools, name) { FirstListingIs(tools, name); }
        }
      }
    }
  }

  lemma SoundIsRead(d: Decoder, fold: Folding, members: seq<Member>, name: string)
    requires IsSound(fold, members, name)
    ensures Read(d, fold, members, name) == Read(OWN, fold, members, name)
  {
    hide Read;
    DecodersAgree(fold, members, name, d, OWN);
  }
}
