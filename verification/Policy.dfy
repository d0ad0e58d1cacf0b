/** The static policy: scope, risk, approval and profile gates, followed by checks of the
    request arguments against path, argument and metadata allow-lists. */
module Policy {
  import opened Common
  import opened GoStrings
  import Paths

  datatype Json =
    | JNull
    | JBool(b: bool)
    | JNum(n: real)
    | JStr(s: string)
    | JArr(items: seq<Json>)
    | JObj(fields: map<string, Json>)

  /** Raw request arguments: missing or the text null, not JSON, or decoded. */
  datatype RawArgs = Absent | Malformed | Payload(v: Json)

  const EMPTY_OBJECT := Payload(JObj(map[]))

  datatype Scope = Repo | Workspace | Cluster | External | UnknownScope

  datatype Risk = Low | Medium | High | UnknownRisk

  datatype Field = Field(name: string, multi: bool)

  datatype ArgField = ArgField(field: Field, maxItems: int, maxLength: int, allowedValues: seq<string>,
                               allowedPrefix: seq<string>, deniedPrefix: seq<string>, denyCharacters: seq<string>)

  /** The argument families governed by a metadata allow-list. */
  datatype Family = Profiles | Subjects | Topics | Queues | KeyPrefixes | Namespaces | Registries

  datatype Capability = Capability(name: string, scope: Scope, risk: Risk, requiresApproval: bool,
                                   pathFields: seq<Field>, argFields: seq<ArgField>, listed: Family -> seq<Field>)

  datatype Session = Session(roles: seq<string>, allowedPaths: seq<string>, metadata: map<string, string>)

  datatype Input = Input(session: Session, capability: Capability, args: RawArgs, approved: bool)

  /** Process environment: WORKSPACE_ENV and the lower-casing of characters. */
  datatype Env = Env(workspaceEnv: string, lower: char -> char)

  datatype Code = PolicyDenied | ApprovalRequired | EnvironmentMismatch

  datatype Decision = Allowed | Denied(code: Code)

  // ---- Field lookup ------------------------------------------------------------------------

  function Lookup(payload: Json, path: seq<string>): (r: Option<Json>)
  {
    if path == [] then Some(payload)
    else if payload.JObj? && path[0] in payload.fields then Lookup(payload.fields[path[0]], path[1..])
    else None
  }

  /** lookupField walks the path with a cursor. */
  method LookupField(payload: Json, path: seq<string>) returns (r: Option<Json>)
    ensures r == Lookup(payload, path)
  {
    var current := payload;
    var i := 0;
    while i < |path|
      invariant 0 <= i <= |path|
      invariant Lookup(payload, path) == Lookup(current, path[i..])
    {
      if !current.JObj? || path[i] !in current.fields { return None; }
      current := current.fields[path[i]];
      i := i + 1;
    }
    return Some(current);
  }

  /** The value at the end of a path, node by node. */
  ghost predicate Selects(payload: Json, path: seq<string>, v: Json)
  {
    exists nodes: seq<Json> :: Leads(payload, path, v, nodes)
  }

  ghost predicate Leads(payload: Json, path: seq<string>, v: Json, nodes: seq<Json>)
  {
    && |nodes| == |path| + 1 && nodes[0] == payload && nodes[|path|] == v
    && forall i :: 0 <= i < |path| ==> nodes[i].JObj? && path[i] in nodes[i].fields && nodes[i].fields[path[i]] == nodes[i + 1]
  }

  lemma {:induction false} LookupLeads(payload: Json, path: seq<string>) returns (nodes: seq<Json>)
    requires Lookup(payload, path).Some?
    ensures Leads(payload, path, Lookup(payload, path).value, nodes)
    decreases |path|
  {
    nodes := [payload];
    if path != [] {
      var rest := LookupLeads(payload.fields[path[0]], path[1..]);
      nodes := nodes + rest;
    }
  }

  lemma {:induction false} LeadsLookup(payload: Json, path: seq<string>, v: Json, nodes: seq<Json>)
    requires Leads(payload, path, v, nodes)
    ensures Lookup(payload, path) == Some(v)
    decreases |path|
  {
    if path != [] { LeadsLookup(payload.fields[path[0]], path[1..], v, nodes[1..]); }
  }

  /** A lookup finds exactly the value to which the path leads. */
  lemma LookupMeaning(payload: Json, path: seq<string>, v: Json)
    ensures Lookup(payload, path) == Some(v) <==> Selects(payload, path, v)
  {
    if Lookup(payload, path) == Some(v) { var nodes := LookupLeads(payload, path); }
    forall nodes | Leads(payload, path, v, nodes) ensures Lookup(payload, path) == Some(v) { LeadsLookup(payload, path, v, nodes); }
  }

  predicate AllStrings(items: seq<Json>)
  {
    forall i :: 0 <= i < |items| ==> items[i].JStr?
  }

  function Texts(items: seq<Json>): (r: seq<string>)
    requires AllStrings(items)
  {
    seq(|items|, i requires 0 <= i < |items| => items[i].s)
  }

  /** The strings a field selects: none when it is absent, None when it has the wrong shape. */
  function FieldValues(payload: Json, field: Field): (r: Option<seq<string>>)
  {
    var name := Trim(field.name);
    if name == "" then Some([])
    else
      match Lookup(payload, Split(name, '.'))
      case None => Some([])
      case Some(v) =>
        if field.multi then (if v.JArr? && AllStrings(v.items) then Some(Texts(v.items)) else None)
        else if v.JStr? then Some([v.s]) else None
  }

  /** Namespace and registry fields accept a string or an array of strings. */
  function StringValues(payload: Json, name: string): (r: Option<seq<string>>)
  {
    var path := Trim(name);
    if path == "" then Some([])
    else
      match Lookup(payload, Split(path, '.'))
      case None => Some([])
      case Some(v) =>
        if v.JStr? then Some([v.s])
        else if v.JArr? && AllStrings(v.items) then Some(Texts(v.items))
        else None
  }

  /** The value a dotted field name selects; a blank name selects none. */
  ghost predicate Named(payload: Json, name: string, v: Json)
  {
    Trim(name) != "" && Selects(payload, Split(Trim(name), '.'), v)
  }

  /** The value holds exactly these texts: a list of them, or a single one. */
  predicate Holds(v: Json, list: bool, texts: seq<string>)
  {
    if list then v.JArr? && |v.items| == |texts| && forall i :: 0 <= i < |texts| ==> v.items[i] == JStr(texts[i])
    else |texts| == 1 && v == JStr(texts[0])
  }

  lemma HoldsItems(v: Json, texts: seq<string>)
    requires v.JArr?
    ensures Holds(v, true, texts) <==> AllStrings(v.items) && texts == Texts(v.items)
  {
  }

  lemma HoldsText(v: Json, texts: seq<string>)
    ensures Holds(v, false, texts) <==> v.JStr? && texts == [v.s]
  {
    if Holds(v, false, texts) { assert texts == [texts[0]]; }
  }

  /** The field gives these texts: those its value holds, or none when it selects no value. */
  ghost predicate Yields(payload: Json, field: Field, texts: seq<string>)
  {
    || (exists v :: Named(payload, field.name, v) && Holds(v, field.multi, texts))
    || (texts == [] && forall v :: !Named(payload, field.name, v))
  }

  /** The same for a field that may hold one text or a list. */
  ghost predicate YieldsEither(payload: Json, name: string, texts: seq<string>)
  {
    || (exists v :: Named(payload, name, v) && (Holds(v, true, texts) || Holds(v, false, texts)))
    || (texts == [] && forall v :: !Named(payload, name, v))
  }

  lemma NamedIsFound(payload: Json, name: string, v: Json)
    ensures Named(payload, name, v) <==> Trim(name) != "" && Lookup(payload, Split(Trim(name), '.')) == Some(v)
  {
    LookupMeaning(payload, Split(Trim(name), '.'), v);
  }

  /** A field has exactly the texts it yields, and fails exactly when it yields none at all. */
  lemma FieldValuesMeaning(payload: Json, field: Field, texts: seq<string>)
    ensures FieldValues(payload, field) == Some(texts) <==> Yields(payload, field, texts)
  {
    var found := Lookup(payload, Split(Trim(field.name), '.'));
    forall v { NamedIsFound(payload, field.name, v); }
    if Trim(field.name) != "" && found.Some? {
      var v := found.value;
      assert Named(payload, field.name, v);
      if field.multi && v.JArr? { HoldsItems(v, texts); }
      HoldsText(v, texts);
    }
  }

  lemma StringValuesMeaning(payload: Json, name: string, texts: seq<string>)
    ensures StringValues(payload, name) == Some(texts) <==> YieldsEither(payload, name, texts)
  {
    var found := Lookup(payload, Split(Trim(name), '.'));
    forall v { NamedIsFound(payload, name, v); }
    if Trim(name) != "" && found.Some? {
      var v := found.value;
      assert Named(payload, name, v);
      if v.JArr? { HoldsItems(v, texts); }
      HoldsText(v, texts);
    }
  }

  method ExtractFieldValues(payload: Json, field: Field) returns (r: Option<seq<string>>)
    ensures r == FieldValues(payload, field)
  {
    var name := Trim(field.name);
    if name == "" { return Some([]); }
    var found := LookupField(payload, Split(name, '.'));
    if found.None? { return Some([]); }
    var value := found.value;
    if field.multi {
      if !value.JArr? { return None; }
      var values := [];
      var i := 0;
      while i < |value.items|
        invariant 0 <= i <= |value.items| && |values| == i
        invariant forall j :: 0 <= j < i ==> value.items[j].JStr? && values[j] == value.items[j].s
      {
        if !value.items[i].JStr? { return None; }
        values := values + [value.items[i].s];
        i := i + 1;
      }
      assert values == Texts(value.items);
      return Some(values);
    }
    if !value.JStr? { return None; }
    return Some([value.s]);
  }

  lemma NothingSelected(field: Field)
    ensures FieldValues(JObj(map[]), field) == Some([])
    ensures StringValues(JObj(map[]), field.name) == Some([])
  {
  }

  // ---- Metadata allow-lists ----------------------------------------------------------------

  function Meta(metadata: map<string, string>, key: string): (r: string)
  {
    if key in metadata then metadata[key] else ""
  }

  /** The non-empty trimmed items of a comma-separated text. */
  function Items(text: string): (r: set<string>)
  {
    set i | 0 <= i < |Split(text, ',')| && Trim(Split(text, ',')[i]) != "" :: Trim(Split(text, ',')[i])
  }

  function Allowlist(metadata: map<string, string>, key: string): (r: set<string>)
  {
    Items(Trim(Meta(metadata, key)))
  }

  method ParseAllowlist(metadata: map<string, string>, key: string) returns (r: set<string>)
    ensures r == Allowlist(metadata, key)
  {
    r := {};
    assert Split("", ',') == [""] && Trim("") == "";
    if |metadata| == 0 { return; }
    var raw := Trim(Meta(metadata, key));
    if raw == "" { return; }
    var items := Split(raw, ',');
    var i := 0;
    while i < |items|
      invariant 0 <= i <= |items|
      invariant r == set j | 0 <= j < i && Trim(items[j]) != "" :: Trim(items[j])
    {
      var candidate := Trim(items[i]);
      if candidate != "" { r := r + {candidate}; }
      i := i + 1;
    }
  }

  lemma ItemsConcat(a: string, b: string)
    ensures Items(a + "," + b) == Items(a) + Items(b)
  {
    assert a + "," + b == a + [','] + b;
    SplitAt(a, ',', b);
    var x, y := Split(a, ','), Split(b, ',');
    assert forall i :: 0 <= i < |x| ==> (x + y)[i] == x[i];
    assert forall i :: 0 <= i < |y| ==> (x + y)[|x| + i] == y[i];
    forall t | t in Items(b) ensures t in Items(a + "," + b) {
      var i :| 0 <= i < |y| && Trim(y[i]) != "" && Trim(y[i]) == t;
      assert Trim((x + y)[|x| + i]) == t;
    }
    forall t | t in Items(a) ensures t in Items(a + "," + b) {
      var i :| 0 <= i < |x| && Trim(x[i]) != "" && Trim(x[i]) == t;
      assert Trim((x + y)[i]) == t;
    }
  }

  lemma {:induction false} TrimSnoc(x: string, c: char)
    requires IsSpace(c)
    ensures Trim(x + [c]) == Trim(x)
  {
    if x == "" {
      assert ("" + [c])[1..] == "";
    } else if IsSpace(x[0]) {
      assert (x + [c])[1..] == x[1..] + [c];
      TrimSnoc(x[1..], c);
    } else {
      assert (x + [c])[..|x|] == x;
    }
  }

  /** Splitting one more character. */
  function Grown(parts: seq<string>, c: char): (r: seq<string>)
    requires parts != []
  {
    parts[..|parts| - 1] + [parts[|parts| - 1] + [c]]
  }

  lemma GrownHead(head: seq<string>, rest: seq<string>, c: char)
    requires rest != []
    ensures head + Grown(rest, c) == Grown(head + rest, c)
  {
  }

  lemma GrownFirst(x: char, rest: seq<string>, c: char)
    requires rest != []
    ensures [[x] + Grown(rest, c)[0]] + Grown(rest, c)[1..] == Grown([[x] + rest[0]] + rest[1..], c)
  {
    if |rest| == 1 {
      assert [x] + (rest[0] + [c]) == ([x] + rest[0]) + [c];
    } else {
      assert Grown(rest, c)[0] == rest[0];
    }
  }

  lemma {:induction false} SplitSnoc(s: string, c: char, sep: char)
    requires c != sep
    ensures Split(s + [c], sep) == Grown(Split(s, sep), c)
  {
    if s == "" {
      SplitNone([c], sep);
      assert s + [c] == [c] && "" + [c] == [c];
    } else {
      assert (s + [c])[1..] == s[1..] + [c];
      SplitSnoc(s[1..], c, sep);
      var rest := Split(s[1..], sep);
      if s[0] == sep { GrownHead([""], rest, c); } else { GrownFirst(s[0], rest, c); }
    }
  }

  /** Equal trimmed items give equal sets. */
  lemma SameItems(a: string, b: string)
    requires |Split(a, ',')| == |Split(b, ',')|
    requires forall i :: 0 <= i < |Split(a, ',')| ==> Trim(Split(a, ',')[i]) == Trim(Split(b, ',')[i])
    ensures Items(a) == Items(b)
  {
  }

  lemma {:induction false} ItemsTrimLeft(s: string)
    ensures Items(TrimLeft(s)) == Items(s)
  {
    if s != "" && IsSpace(s[0]) {
      ItemsTrimLeft(s[1..]);
      var rest := Split(s[1..], ',');
      assert ([s[0]] + rest[0])[1..] == rest[0];
      SameItems(s, s[1..]);
    }
  }

  lemma {:induction false} ItemsTrimRight(s: string)
    ensures Items(TrimRight(s)) == Items(s)
  {
    if s != "" && IsSpace(s[|s| - 1]) {
      var t, c := s[..|s| - 1], s[|s| - 1];
      assert s == t + [c];
      ItemsTrimRight(t);
      SplitSnoc(t, c, ',');
      var parts := Split(t, ',');
      TrimSnoc(parts[|parts| - 1], c);
      SameItems(s, t);
    }
  }

  lemma AllowlistItems(metadata: map<string, string>, key: string)
    ensures Allowlist(metadata, key) == Items(Meta(metadata, key))
  {
    var s := Meta(metadata, key);
    ItemsTrimLeft(s);
    ItemsTrimRight(TrimLeft(s));
  }

  /** Appending ",entry" to a metadata value adds exactly the items of the entry. */
  lemma AllowlistAppend(metadata: map<string, string>, key: string, entry: string)
    ensures Allowlist(metadata[key := Meta(metadata, key) + "," + entry], key) == Allowlist(metadata, key) + Items(entry)
  {
    AllowlistItems(metadata, key);
    AllowlistItems(metadata[key := Meta(metadata, key) + "," + entry], key);
    ItemsConcat(Meta(metadata, key), entry);
  }

  // ---- Matchers ------------------------------------------------------------------------------

  /** "*" stands for one token, ">" for all remaining tokens, including none. */
  predicate TokensMatch(pattern: seq<string>, subject: seq<string>)
  {
    if pattern == [] then subject == []
    else if pattern[0] == ">" then true
    else if subject == [] then false
    else (pattern[0] == "*" || pattern[0] == subject[0]) && TokensMatch(pattern[1..], subject[1..])
  }

  predicate SubjectMatch(pattern: string, subject: string)
  {
    TokensMatch(Split(Trim(pattern), '.'), Split(Trim(subject), '.'))
  }

  /** The indexed loop, with its equality shortcut, computes the token specification. */
  method NatsSubjectMatch(pattern: string, subject: string) returns (r: bool)
    ensures r == SubjectMatch(pattern, subject)
  {
    if pattern == subject {
      TokensMatchSelf(Split(Trim(pattern), '.'));
      return true;
    }
    var patternTokens, subjectTokens := Split(Trim(pattern), '.'), Split(Trim(subject), '.');
    var i := 0;
    while i < |patternTokens|
      invariant 0 <= i <= |patternTokens| && i <= |subjectTokens|
      invariant TokensMatch(patternTokens, subjectTokens) == TokensMatch(patternTokens[i..], subjectTokens[i..])
    {
      var token := patternTokens[i];
      if token == ">" { return true; }
      if token == "*" {
        if i >= |subjectTokens| { return false; }
      } else {
        if i >= |subjectTokens| || subjectTokens[i] != token { return false; }
      }
      i := i + 1;
    }
    return |patternTokens| == |subjectTokens|;
  }

  /** Every token list matches itself, so the equality shortcut changes no answer. */
  lemma {:induction false} TokensMatchSelf(tokens: seq<string>)
    ensures TokensMatch(tokens, tokens)
  {
    if tokens != [] { TokensMatchSelf(tokens[1..]); }
  }

  /** The first k tokens fit one by one. */
  predicate Fits(p: seq<string>, s: seq<string>, k: nat)
  {
    k <= |p| && k <= |s| && forall i :: 0 <= i < k ==> p[i] == "*" || p[i] == s[i]
  }

  lemma FitsTail(p: seq<string>, s: seq<string>, k: nat)
    requires p != [] && s != []
    ensures Fits(p, s, k + 1) <==> (p[0] == "*" || p[0] == s[0]) && Fits(p[1..], s[1..], k)
  {
    if Fits(p, s, k + 1) {
      assert forall i :: 0 <= i < k ==> p[1..][i] == p[i + 1] && s[1..][i] == s[i + 1];
    }
    if (p[0] == "*" || p[0] == s[0]) && Fits(p[1..], s[1..], k) {
      forall i | 0 <= i < k + 1 ensures p[i] == "*" || p[i] == s[i] {
        if i > 0 { assert p[i] == p[1..][i - 1] && s[i] == s[1..][i - 1]; }
      }
    }
  }

  /** A match token by token up to the first ">", or over the whole equal length without one. */
  lemma {:induction false} TokensMatchMeaning(p: seq<string>, s: seq<string>)
    ensures TokensMatch(p, s) <==>
            (|p| == |s| && Fits(p, s, |p|)) || exists k :: 0 <= k < |p| && p[k] == ">" && Fits(p, s, k)
  {
    if p != [] && p[0] == ">" {
      assert Fits(p, s, 0);
    } else if p != [] && s != [] {
      var p', s' := p[1..], s[1..];
      TokensMatchMeaning(p', s');
      FitsTail(p, s, |p'|);
      forall k: nat { FitsTail(p, s, k); }
      if exists k :: 0 <= k < |p'| && p'[k] == ">" && Fits(p', s', k) {
        var k :| 0 <= k < |p'| && p'[k] == ">" && Fits(p', s', k);
        assert p[k + 1] == ">";
      }
      if exists k :: 0 <= k < |p| && p[k] == ">" && Fits(p, s, k) {
        var k :| 0 <= k < |p| && p[k] == ">" && Fits(p, s, k);
        assert k > 0 && p'[k - 1] == ">";
        FitsTail(p, s, k - 1);
      }
    }
  }

  /** Putting "*" for a token other than ">", or ">" for a tail, only widens a pattern. */
  lemma {:induction false} TokensWiden(a: seq<string>, t: string, b: seq<string>, s: seq<string>)
    ensures t != ">" && TokensMatch(a + [t] + b, s) ==> TokensMatch(a + ["*"] + b, s)
    ensures TokensMatch(a + b, s) ==> TokensMatch(a + [">"], s)
  {
    if a == [] {
      assert ([] + [t] + b)[1..] == b && ([] + ["*"] + b)[1..] == b;
    } else if a[0] != ">" && s != [] {
      TokensWiden(a[1..], t, b, s[1..]);
      assert (a + [t] + b)[1..] == a[1..] + [t] + b;
      assert (a + ["*"] + b)[1..] == a[1..] + ["*"] + b;
      assert (a + b)[1..] == a[1..] + b && (a + [">"])[1..] == a[1..] + [">"];
    }
  }

  /** wildcardPatternMatch. */
  predicate WildcardMatch(pattern: string, value: string)
  {
    var p, v := Trim(pattern), Trim(value);
    if p == "" || v == "" then false
    else if p == "*" || p == v then true
    else if HasSuffix(p, ".>") then HasPrefix(v, p[..|p| - 1])
    else if |Split(p, '*')| == 2 then HasPrefix(v, Split(p, '*')[0]) && HasSuffix(v, Split(p, '*')[1])
    else (HasSuffix(p, ".") || HasSuffix(p, ":") || HasSuffix(p, "/")) && HasPrefix(v, p)
  }

  /** A value of the form prefix, anything, suffix. */
  ghost predicate Glob(prefix: string, suffix: string, value: string)
  {
    exists mid :: value == prefix + mid + suffix
  }

  lemma GlobAffixes(prefix: string, suffix: string, value: string)
    ensures Glob(prefix, suffix, value) <==>
            HasPrefix(value, prefix) && HasSuffix(value, suffix) && |prefix| + |suffix| <= |value|
  {
    if HasPrefix(value, prefix) && HasSuffix(value, suffix) && |prefix| + |suffix| <= |value| {
      var mid := value[|prefix|..|value| - |suffix|];
      assert value == prefix + mid + suffix;
    }
    if Glob(prefix, suffix, value) {
      var mid :| value == prefix + mid + suffix;
      assert value[..|prefix|] == prefix && value[|prefix + mid|..] == suffix;
    }
  }

  /** A pattern with exactly one star is its prefix, the star and its suffix. */
  predicate OneStar(pattern: string)
  {
    |Split(Trim(pattern), '*')| == 2
  }

  function Before(pattern: string): (prefix: string)
    requires OneStar(pattern)
  {
    Split(Trim(pattern), '*')[0]
  }

  function Behind(pattern: string): (suffix: string)
    requires OneStar(pattern)
  {
    Split(Trim(pattern), '*')[1]
  }

  lemma OneStarParts(pattern: string)
    requires OneStar(pattern)
    ensures Trim(pattern) == Before(pattern) + ['*'] + Behind(pattern)
    ensures '*' !in Before(pattern) && '*' !in Behind(pattern)
  {
    var parts := Split(Trim(pattern), '*');
    JoinSplit(Trim(pattern), '*');
    SplitFree(Trim(pattern), '*');
    assert parts[1..] == [parts[1]];
  }

  /** What wildcardPatternMatch decides for a one-star pattern, branch by branch: nothing for a
      blank value, a literal prefix for a pattern that ends in ".>", and otherwise the two affix
      tests, which also settle the equality and bare-star shortcuts. */
  lemma OneStarBranches(pattern: string, value: string)
    requires OneStar(pattern)
    ensures var p, v := Trim(pattern), Trim(value);
            WildcardMatch(pattern, value) <==>
              && v != ""
              && if HasSuffix(p, ".>") then HasPrefix(v, p[..|p| - 1])
                 else HasPrefix(v, Before(pattern)) && HasSuffix(v, Behind(pattern))
  {
    var p, v := Trim(pattern), Trim(value);
    OneStarParts(pattern);
    if p == v {
      assert HasPrefix(v, Before(pattern)) && HasSuffix(v, Behind(pattern));
    }
    if p == "*" {
      assert |Before(pattern)| == 0 && |Behind(pattern)| == 0;
      assert v[|v|..] == "";
    }
  }

  /** For every one-star pattern and every value: on a non-blank value long enough to hold prefix
      and suffix side by side, and for a pattern that does not end in ".>", the match is glob
      matching. Each condition that fails is a class of its own: a blank value is never matched,
      so only the bare star differs; on a short value no glob matches while the affixes may still
      both be there; ".>" asks for the star itself. */
  lemma OneStarExact(pattern: string, value: string)
    requires OneStar(pattern)
    ensures var p, v, a, b := Trim(pattern), Trim(value), Before(pattern), Behind(pattern);
            var matched, glob := WildcardMatch(pattern, value), Glob(a, b, v);
            && (v == "" ==> !matched && (glob <==> p == "*"))
            && (!HasSuffix(p, ".>") && v != "" && |a| + |b| <= |v| ==> (matched <==> glob))
            && (!HasSuffix(p, ".>") && v != "" && |v| < |a| + |b| ==>
                  !glob && (matched <==> HasPrefix(v, a) && HasSuffix(v, b)))
            && (HasSuffix(p, ".>") && v != "" ==> (matched <==> HasPrefix(v, p[..|p| - 1])))
  {
    var p, v, a, b := Trim(pattern), Trim(value), Before(pattern), Behind(pattern);
    OneStarParts(pattern);
    OneStarBranches(pattern, value);
    GlobAffixes(a, b, v);
    assert |p| == |a| + 1 + |b|;
    assert a == "" && b == "" ==> p == ['*'];
  }

  /** ".>" at the end of a one-star pattern is part of its suffix. */
  lemma TailAfterStar(p: string, a: string, b: string)
    requires p == a + ['*'] + b && HasSuffix(p, ".>")
    ensures b != "" && b[|b| - 1] == '>' && a + "*" <= p[..|p| - 1]
  {
    assert p[|p| - 2..][1] == '>';
    assert p[|p| - 1] == '>';
    assert p[|a|] == '*';
    assert p[..|a| + 1] == a + "*";
  }

  /** The end of the prefix is also the start of the suffix. */
  ghost predicate Overlaps(a: string, b: string)
  {
    exists k :: 0 < k <= |a| && k <= |b| && a[|a| - k..] == b[..k]
  }

  /** Both affixes in a text too short to hold them side by side overlap. */
  lemma ShortOverlaps(a: string, b: string, v: string)
    requires HasPrefix(v, a) && HasSuffix(v, b) && |v| < |a| + |b|
    ensures Overlaps(a, b)
  {
    var k := |a| + |b| - |v|;
    assert a[|a| - k..] == v[|a| - k..|a|] == b[..k];
  }

  lemma OverlapText(a: string, b: string, k: nat) returns (v: string)
    requires 0 < k <= |a| && k <= |b| && a[|a| - k..] == b[..k]
    ensures HasPrefix(v, a) && HasSuffix(v, b) && |v| < |a| + |b|
    ensures v != "" && v[0] == a[0] && v[|v| - 1] == b[|b| - 1]
  {
    v := a + b[k..];
    assert v[|v| - |b|..] == a[|a| - k..] + b[k..] == b;
    assert v[|v| - |b|..][|b| - 1] == v[|v| - 1];
  }

  lemma StarDiffers(pattern: string)
    requires OneStar(pattern) && Trim(pattern) == "*"
    ensures !WildcardMatch(pattern, "") && Glob(Before(pattern), Behind(pattern), Trim(""))
  {
    OneStarExact(pattern, "");
  }

  lemma TailDiffers(pattern: string) returns (v: string)
    requires OneStar(pattern) && HasSuffix(Trim(pattern), ".>")
    ensures !WildcardMatch(pattern, v) && Glob(Before(pattern), Behind(pattern), Trim(v))
  {
    var p, a, b := Trim(pattern), Before(pattern), Behind(pattern);
    OneStarParts(pattern);
    TailAfterStar(p, a, b);
    TrimExact(pattern);
    v := a + "z" + b;
    assert v[0] == if a == "" then 'z' else p[0];
    assert v[|v| - 1] == '>';
    TrimExact(v);
    OneStarExact(pattern, v);
    assert v[|a|] == 'z' && p[..|p| - 1][|a|] == '*';
  }

  lemma OverlapDiffers(pattern: string) returns (v: string)
    requires OneStar(pattern) && !HasSuffix(Trim(pattern), ".>") && Overlaps(Before(pattern), Behind(pattern))
    ensures WildcardMatch(pattern, v) && !Glob(Before(pattern), Behind(pattern), Trim(v))
  {
    var p, a, b := Trim(pattern), Before(pattern), Behind(pattern);
    OneStarParts(pattern);
    TrimExact(pattern);
    var k :| 0 < k <= |a| && k <= |b| && a[|a| - k..] == b[..k];
    v := OverlapText(a, b, k);
    assert p[0] == a[0] && p[|p| - 1] == b[|b| - 1];
    TrimExact(v);
    OneStarExact(pattern, v);
  }

  /** A one-star pattern is glob matching on all values exactly when it is not the bare star, does
      not end in ".>", and its prefix and suffix do not overlap. */
  lemma OneStarPatterns(pattern: string)
    requires OneStar(pattern)
    ensures (forall value :: WildcardMatch(pattern, value) <==> Glob(Before(pattern), Behind(pattern), Trim(value)))
            <==> Trim(pattern) != "*" && !HasSuffix(Trim(pattern), ".>") && !Overlaps(Before(pattern), Behind(pattern))
  {
    var p, a, b := Trim(pattern), Before(pattern), Behind(pattern);
    if p == "*" {
      StarDiffers(pattern);
    } else if HasSuffix(p, ".>") {
      var v := TailDiffers(pattern);
    } else if Overlaps(a, b) {
      var v := OverlapDiffers(pattern);
    } else {
      forall value ensures WildcardMatch(pattern, value) <==> Glob(a, b, Trim(value)) {
        OneStarExact(pattern, value);
        if HasPrefix(Trim(value), a) && HasSuffix(Trim(value), b) && |Trim(value)| < |a| + |b| {
          ShortOverlaps(a, b, Trim(value));
        }
      }
    }
  }

  lemma Parts(pattern: string, a: string, b: string)
    requires Trimmed(pattern) && pattern == a + ['*'] + b && '*' !in a && '*' !in b
    ensures OneStar(pattern) && Before(pattern) == a && Behind(pattern) == b && Trim(pattern) == pattern
  {
    TrimExact(pattern);
    SplitAt(a, '*', b);
    SplitNone(a, '*');
    SplitNone(b, '*');
  }

  /** A failing input of each class: a short value that is matched though no glob fits it. */
  lemma OneStarOverlap()
    ensures WildcardMatch("ab*ba", "aba") && !Glob("ab", "ba", "aba")
  {
    Parts("ab*ba", "ab", "ba");
    TrimExact("aba");
    assert "aba"[1..] == "ba";
    OneStarExact("ab*ba", "aba");
  }

  /** A value that fits the glob and is refused, since ".>" asks for the star itself. */
  lemma OneStarTail()
    ensures !WildcardMatch("x*.>", "xa.>") && Glob("x", ".>", "xa.>")
  {
    Parts("x*.>", "x", ".>");
    TrimExact("xa.>");
    OneStarExact("x*.>", "xa.>");
    assert "xa.>" == "x" + "a" + ".>";
    assert "xa.>"[1] == 'a' && "x*.>"[..3][1] == '*';
    assert "x*.>"[2..] == ".>";
  }

  /** A blank value, refused by the bare star. */
  lemma OneStarBlank()
    ensures !WildcardMatch("*", "") && Glob("", "", "")
  {
    Parts("*", "", "");
    OneStarExact("*", "");
  }

  lemma BareStar(p: string)
    ensures p == "*" ==> |Split(p, '*')| == 2
  {
    assert "*"[1..] == "" && Split("", '*') == [""];
  }

  lemma EndsWith(p: string, c: char)
    requires p != ""
    ensures HasSuffix(p, [c]) <==> p[|p| - 1] == c
  {
    assert p[|p| - 1..] == [p[|p| - 1]];
  }

  predicate Separated(p: string)
  {
    p != "" && (p[|p| - 1] == '.' || p[|p| - 1] == ':' || p[|p| - 1] == '/')
  }

  lemma SeparatedMeaning(p: string)
    ensures Separated(p) <==> HasSuffix(p, ".") || HasSuffix(p, ":") || HasSuffix(p, "/")
  {
    if p != "" {
      EndsWith(p, '.');
      EndsWith(p, ':');
      EndsWith(p, '/');
    }
  }

  /** Patterns with no star or several: the value itself, a literal prefix up to a final ">", or a
      prefix that ends in a separator. */
  lemma OtherPatterns(pattern: string, value: string)
    requires !OneStar(pattern)
    ensures var p, v := Trim(pattern), Trim(value);
            WildcardMatch(pattern, value) <==>
              && p != "" && v != ""
              && (p == v
                  || (HasSuffix(p, ".>") && p[..|p| - 1] <= v)
                  || (!HasSuffix(p, ".>") && Separated(p) && p <= v))
  {
    BareStar(Trim(pattern));
    SeparatedMeaning(Trim(pattern));
  }

  predicate PatternAllowed(value: string, allow: set<string>)
  {
    exists p :: p in allow && WildcardMatch(p, value)
  }

  function ImageRegistry(imageRef: string): (r: string)
  {
    var trimmed := Trim(imageRef);
    if trimmed == "" then ""
    else
      var segments := Split(Split(trimmed, '@')[0], '/');
      var first := Trim(segments[0]);
      if |segments| > 1 && ('.' in first || ':' in first || first == "localhost") then first else "docker.io"
  }

  /** The registry of an image: what precedes the first slash if that looks like a host, and
      docker.io otherwise or when there is no slash before the digest. */
  lemma RegistryMeaning(first: string, rest: string)
    requires '/' !in first && '@' !in first && Trimmed(first + "/" + rest)
    ensures ImageRegistry(first + "/" + rest) ==
            if '.' in Trim(first) || ':' in Trim(first) || Trim(first) == "localhost" then Trim(first) else "docker.io"
  {
    var image := first + "/" + rest;
    TrimExact(image);
    var parts := Split(rest, '@');
    HeadSplit(first + "/", rest, '@');
    assert Split(image, '@')[0] == first + ['/'] + parts[0];
    SplitAt(first, '/', parts[0]);
    SplitNone(first, '/');
  }

  /** A text without the separator joins the first part of what follows it. */
  lemma {:induction false} HeadSplit(head: string, rest: string, c: char)
    requires c !in head
    ensures Split(head + rest, c)[0] == head + Split(rest, c)[0]
  {
    if head == "" {
      assert head + rest == rest && "" + Split(rest, c)[0] == Split(rest, c)[0];
    } else {
      assert (head + rest)[1..] == head[1..] + rest;
      HeadSplit(head[1..], rest, c);
      assert head == [head[0]] + head[1..];
    }
  }

  lemma RegistryDefault(image: string)
    requires Trim(image) != "" && '/' !in Split(Trim(image), '@')[0]
    ensures ImageRegistry(image) == "docker.io"
  {
    SplitNone(Split(Trim(image), '@')[0], '/');
  }

  /** Whether one trimmed value passes the allow-list of its family. */
  predicate Matches(family: Family, value: string, allow: set<string>)
  {
    match family
    case Profiles => value in allow
    case Subjects => exists p :: p in allow && SubjectMatch(p, value)
    case KeyPrefixes => exists p :: p in allow && (p == "*" || HasPrefix(value, p))
    case Registries => PatternAllowed(value, allow) || PatternAllowed(ImageRegistry(value), allow)
    case _ => PatternAllowed(value, allow)
  }

  // ---- Argument checks -----------------------------------------------------------------------

  function MetaKey(family: Family): (k: string)
  {
    match family
    case Profiles => "allowed_profiles"
    case Subjects => "allowed_nats_subjects"
    case Topics => "allowed_kafka_topics"
    case Queues => "allowed_rabbit_queues"
    case KeyPrefixes => "allowed_redis_key_prefixes"
    case Namespaces => "allowed_k8s_namespaces"
    case Registries => "allowed_image_registries"
  }

  /** The governed families: the metadata key of each list, and what an entry of it admits. */
  lemma FamilyTable(family: Family, value: string, allow: set<string>)
    ensures var some := (exists p :: p in allow && WildcardMatch(p, value));
            match family
            case Profiles => MetaKey(family) == "allowed_profiles" && (Matches(family, value, allow) <==> value in allow)
            case Subjects =>
              (MetaKey(family) == "allowed_nats_subjects" &&
               (Matches(family, value, allow) <==> exists p :: p in allow && SubjectMatch(p, value)))
            case Topics => MetaKey(family) == "allowed_kafka_topics" && (Matches(family, value, allow) <==> some)
            case Queues => MetaKey(family) == "allowed_rabbit_queues" && (Matches(family, value, allow) <==> some)
            case KeyPrefixes =>
              (MetaKey(family) == "allowed_redis_key_prefixes" &&
               (Matches(family, value, allow) <==> "*" in allow || exists p :: p in allow && p <= value))
            case Namespaces => MetaKey(family) == "allowed_k8s_namespaces" && (Matches(family, value, allow) <==> some)
            case Registries =>
              (MetaKey(family) == "allowed_image_registries" &&
               (Matches(family, value, allow) <==> some || exists p :: p in allow && WildcardMatch(p, ImageRegistry(value))))
  {
  }

  function FamilyValues(family: Family, payload: Json, field: Field): (r: Option<seq<string>>)
  {
    if family.Namespaces? || family.Registries? then StringValues(payload, field.name) else FieldValues(payload, field)
  }

  /** An empty allow-list and "*" allow everything; otherwise every non-blank value of every
      field must match. */
  predicate FamilyAllowed(family: Family, args: RawArgs, fields: seq<Field>, allow: set<string>)
  {
    || fields == [] || args.Absent? || allow == {} || "*" in allow
    || (args.Payload? && forall i :: 0 <= i < |fields| ==>
          var values := FamilyValues(family, args.v, fields[i]);
          values.Some? && forall j :: 0 <= j < |values.value| ==>
            Trim(values.value[j]) == "" || Matches(family, Trim(values.value[j]), allow))
  }

  predicate PathsAllowed(args: RawArgs, allowedPaths: seq<string>, fields: seq<Field>)
  {
    || fields == [] || args.Absent?
    || (args.Payload? && forall i :: 0 <= i < |fields| ==>
          var values := FieldValues(args.v, fields[i]);
          values.Some? && forall j :: 0 <= j < |values.value| ==>
            values.value[j] == "" || Paths.Within(values.value[j], Paths.OrDot(allowedPaths)))
  }

  predicate Contains(s: string, sub: string)
  {
    sub <= s || (s != "" && Contains(s[1..], sub))
  }

  predicate ValueAllowed(value: string, f: ArgField)
  {
    var v := Trim(value);
    && v != ""
    && (f.maxLength > 0 ==> |v| <= f.maxLength)
    && (forall i :: 0 <= i < |f.denyCharacters| ==> f.denyCharacters[i] == "" || !Contains(v, f.denyCharacters[i]))
    && (forall i :: 0 <= i < |f.deniedPrefix| ==> f.deniedPrefix[i] == "" || !HasPrefix(v, f.deniedPrefix[i]))
    && (if f.allowedValues != [] then v in f.allowedValues
        else f.allowedPrefix != [] ==> exists i :: 0 <= i < |f.allowedPrefix| && f.allowedPrefix[i] != "" && HasPrefix(v, f.allowedPrefix[i]))
  }

  predicate ArgsAllowed(args: RawArgs, fields: seq<ArgField>)
  {
    || fields == [] || args.Absent?
    || (args.Payload? && forall i :: 0 <= i < |fields| ==>
          ArgFieldAllowed(args.v, fields[i]))
  }

  predicate ArgFieldAllowed(payload: Json, f: ArgField)
  {
    var values := FieldValues(payload, f.field);
    values.Some? && (f.maxItems > 0 ==> |values.value| <= f.maxItems) && AllAllowed(values.value, f)
  }

  predicate AllAllowed(values: seq<string>, f: ArgField)
  {
    forall j :: 0 <= j < |values| ==> ValueAllowed(values[j], f)
  }

  // ---- Capability gates ----------------------------------------------------------------------

  predicate HasRole(roles: seq<string>, target: string, env: Env)
  {
    exists i :: 0 <= i < |roles| && ToLower(Trim(roles[i]), env.lower) == ToLower(Trim(target), env.lower)
  }

  predicate ScopeAllowed(roles: seq<string>, scope: Scope, env: Env)
  {
    match scope
    case Workspace => true
    case Repo => true
    case UnknownScope => false
    case _ => HasRole(roles, "devops", env) || HasRole(roles, "platform_admin", env) || HasRole(roles, "incident_communicator", env)
  }

  function RuntimeEnvironment(metadata: map<string, string>, env: Env): (r: string)
  {
    var own := ToLower(Trim(Meta(metadata, "runtime_environment")), env.lower);
    if own != "" && own != "unknown" then own
    else
      var value := ToLower(Trim(env.workspaceEnv), env.lower);
      if value == "unknown" then "" else value
  }

  predicate EnvironmentMatches(metadata: map<string, string>, env: Env)
  {
    var runtime := RuntimeEnvironment(metadata, env);
    runtime == "" || ToLower(Trim(Meta(metadata, "environment")), env.lower) == runtime
  }

  function ToolProfile(metadata: map<string, string>): (r: string)
  {
    Trim(Meta(metadata, "tool_profile"))
  }

  /** The rollout tools need their profile, and the writing ones a matching environment. */
  function RolloutGate(input: Input, env: Env): (r: Option<Decision>)
  {
    var name, metadata := Trim(input.capability.name), input.session.metadata;
    if name !in {"k8s.get_replicasets", "k8s.rollout_pause", "k8s.rollout_undo"} then None
    else if ToolProfile(metadata) != "runtime-rollout-narrow" then Some(Denied(PolicyDenied))
    else if name in {"k8s.rollout_pause", "k8s.rollout_undo"} && !EnvironmentMatches(metadata, env) then
      Some(Denied(EnvironmentMismatch))
    else None
  }

  function Digits(s: string): (r: int)
    requires forall i :: 0 <= i < |s| ==> '0' <= s[i] <= '9'
  {
    if s == "" then 0 else 10 * Digits(s[..|s| - 1]) + (s[|s| - 1] as int - '0' as int)
  }

  /** strconv.Atoi on 64-bit integers. */
  function Atoi(s: string): (r: Option<int>)
  {
    var body := if s != "" && (s[0] == '-' || s[0] == '+') then s[1..] else s;
    if body == "" || !(forall i :: 0 <= i < |body| ==> '0' <= body[i] <= '9') then None
    else
      var n := if s[0] == '-' then -Digits(body) else Digits(body);
      if -0x8000_0000_0000_0000 <= n < 0x8000_0000_0000_0000 then Some(n) else None
  }

  /** A JSON number truncated toward zero, or a decimal string. */
  function AsInt(v: Json): (r: Option<int>)
  {
    match v
    case JNum(n) => Some(if n >= 0.0 then n.Floor else -((-n).Floor))
    case JStr(s) => Atoi(Trim(s))
    case _ => None
  }

  /** Numbers are cut off toward zero. */
  lemma NumberMeaning(n: real)
    ensures var v := AsInt(JNum(n));
            && v.Some?
            && (n >= 0.0 ==> v.value as real <= n < v.value as real + 1.0)
            && (n < 0.0 ==> v.value as real - 1.0 < n <= v.value as real)
  {
  }

  /** The decimal digits of a number. */
  function Decimal(n: nat): (s: string)
    ensures s != "" && forall i :: 0 <= i < |s| ==> '0' <= s[i] <= '9'
  {
    if n < 10 then [('0' as int + n) as char] else Decimal(n / 10) + [('0' as int + n % 10) as char]
  }

  lemma {:induction false} DecimalRead(n: nat)
    ensures Digits(Decimal(n)) == n
  {
    var s := Decimal(n);
    if n < 10 {
      assert s[..0] == "" && Digits("") == 0;
    } else {
      DecimalRead(n / 10);
      assert s[..|s| - 1] == Decimal(n / 10);
    }
  }

  predicate AllDigits(d: string)
  {
    forall i :: 0 <= i < |d| ==> '0' <= d[i] <= '9'
  }

  lemma UnsignedRead(d: string, m: int)
    requires d != "" && AllDigits(d) && Digits(d) == m && m < 0x8000_0000_0000_0000 && m >= 0
    ensures Atoi(d) == Some(m)
  {
    assert '0' <= d[0];
  }

  lemma SignedRead(sign: char, d: string, m: int)
    requires d != "" && AllDigits(d) && Digits(d) == m && m < 0x8000_0000_0000_0000 && m >= 0 && (sign == '+' || sign == '-')
    ensures Atoi([sign] + d) == Some(if sign == '-' then -m else m)
  {
    assert ([sign] + d)[1..] == d;
  }

  /** Decimal text of a 64-bit number is read back, with or without a sign. */
  lemma TextMeaning(n: int)
    requires 0 <= n < 0x8000_0000_0000_0000
    ensures Atoi(Decimal(n)) == Some(n) && Atoi("+" + Decimal(n)) == Some(n) && Atoi("-" + Decimal(n)) == Some(-n)
  {
    DecimalRead(n);
    UnsignedRead(Decimal(n), n);
    SignedRead('+', Decimal(n), n);
    SignedRead('-', Decimal(n), n);
  }

  predicate InBounds(fields: map<string, Json>, key: string, lo: int, hi: int)
  {
    key in fields && AsInt(fields[key]).Some? ==> lo <= AsInt(fields[key]).value <= hi
  }

  function SaturationGate(input: Input, env: Env): (d: Decision)
  {
    var name := Trim(input.capability.name);
    if ToolProfile(input.session.metadata) != "saturation-operator-bounded" then Denied(PolicyDenied)
    else if !EnvironmentMatches(input.session.metadata, env) then Denied(EnvironmentMismatch)
    else if input.args.Malformed? || (input.args.Payload? && !input.args.v.JObj? && !input.args.v.JNull?) then Denied(PolicyDenied)
    else
      var fields := if input.args.Payload? && input.args.v.JObj? then input.args.v.fields else map[];
      if name == "k8s.scale_deployment" && !(InBounds(fields, "replicas", 0, 200) && InBounds(fields, "replicas_delta", -50, 50))
      then Denied(PolicyDenied)
      else if name == "k8s.circuit_break" && !InBounds(fields, "ttl_seconds", 60, 1800) then Denied(PolicyDenied)
      else Allowed
  }

  function NotifyGate(input: Input, env: Env): (d: Decision)
  {
    if ToolProfile(input.session.metadata) != "human-escalation-minimal" then Denied(PolicyDenied)
    else if !EnvironmentMatches(input.session.metadata, env) then Denied(EnvironmentMismatch)
    else Allowed
  }

  function SpecialistGate(input: Input, env: Env): (r: Option<Decision>)
  {
    var name := Trim(input.capability.name);
    if name in {"k8s.scale_deployment", "k8s.restart_pods", "k8s.circuit_break"} then Some(SaturationGate(input, env))
    else if name == "notify.escalation_channel" then Some(NotifyGate(input, env))
    else None
  }

  predicate ListsAllowed(input: Input)
  {
    forall family: Family ::
      FamilyAllowed(family, input.args, input.capability.listed(family), Allowlist(input.session.metadata, MetaKey(family)))
  }

  /** Scope and risk against the roles of the principal. */
  predicate RoleGates(input: Input, env: Env)
  {
    && ScopeAllowed(input.session.roles, input.capability.scope, env)
    && (input.capability.risk.High? ==> HasRole(input.session.roles, "platform_admin", env))
  }

  predicate ArgumentsAllowed(input: Input)
  {
    && PathsAllowed(input.args, input.session.allowedPaths, input.capability.pathFields)
    && ArgsAllowed(input.args, input.capability.argFields)
    && ListsAllowed(input)
  }

  function Authorize(input: Input, env: Env): (d: Decision)
  {
    if !RoleGates(input, env) then Denied(PolicyDenied)
    else if input.capability.requiresApproval && !input.approved then Denied(ApprovalRequired)
    else if RolloutGate(input, env).Some? then RolloutGate(input, env).value
    else if SpecialistGate(input, env).Some? then SpecialistGate(input, env).value
    else if ArgumentsAllowed(input) then Allowed
    else Denied(PolicyDenied)
  }

  // ---- Authorization, stated from the fields of the input --------------------------------------

  /** Some role reads as the target once trimmed and lower-cased. */
  ghost predicate Bears(roles: seq<string>, target: string, env: Env)
  {
    exists role :: role in roles && ToLower(Trim(role), env.lower) == ToLower(target, env.lower)
  }

  lemma HasRoleMeaning(roles: seq<string>, target: string, env: Env)
    requires Trimmed(target)
    ensures HasRole(roles, target, env) <==> Bears(roles, target, env)
  {
    TrimExact(target);
    if HasRole(roles, target, env) {
      var i :| 0 <= i < |roles| && ToLower(Trim(roles[i]), env.lower) == ToLower(Trim(target), env.lower);
      assert roles[i] in roles;
    }
  }

  /** Tools of the workspace and its repository are for everybody, cluster and external ones for
      three roles, no others for anybody; high risk is for platform administrators. */
  ghost predicate MayUse(input: Input, env: Env)
  {
    var roles, cap := input.session.roles, input.capability;
    && (cap.scope.Repo? || cap.scope.Workspace? ||
        ((cap.scope.Cluster? || cap.scope.External?) &&
         (Bears(roles, "devops", env) || Bears(roles, "platform_admin", env) || Bears(roles, "incident_communicator", env))))
    && (cap.risk.High? ==> Bears(roles, "platform_admin", env))
  }

  lemma RoleGatesMeaning(input: Input, env: Env)
    ensures RoleGates(input, env) <==> MayUse(input, env)
  {
    HasRoleMeaning(input.session.roles, "devops", env);
    HasRoleMeaning(input.session.roles, "platform_admin", env);
    HasRoleMeaning(input.session.roles, "incident_communicator", env);
  }

  /** The environment the runtime says it is in: its own word, else the process's, never "unknown". */
  predicate RunsIn(metadata: map<string, string>, env: Env, e: string)
  {
    var own := ToLower(Trim(Meta(metadata, "runtime_environment")), env.lower);
    && e != "" && e != "unknown"
    && (e == own || ((own == "" || own == "unknown") && e == ToLower(Trim(env.workspaceEnv), env.lower)))
  }

  /** The session is meant for the environment the runtime is in, if that is known. */
  ghost predicate InRuntime(metadata: map<string, string>, env: Env)
  {
    forall e :: RunsIn(metadata, env, e) ==> ToLower(Trim(Meta(metadata, "environment")), env.lower) == e
  }

  lemma EnvironmentMeaning(metadata: map<string, string>, env: Env)
    ensures EnvironmentMatches(metadata, env) <==> InRuntime(metadata, env)
  {
    var runtime := RuntimeEnvironment(metadata, env);
    assert RunsIn(metadata, env, runtime) <==> runtime != "";
    assert forall e :: RunsIn(metadata, env, e) ==> e == runtime;
  }

  /** The profile a tool needs, "" for none, and whether it also needs the right environment. */
  function NeededProfile(name: string): (p: string)
  {
    if name == "k8s.get_replicasets" || name == "k8s.rollout_pause" || name == "k8s.rollout_undo" then "runtime-rollout-narrow"
    else if name == "k8s.scale_deployment" || name == "k8s.restart_pods" || name == "k8s.circuit_break" then "saturation-operator-bounded"
    else if name == "notify.escalation_channel" then "human-escalation-minimal"
    else ""
  }

  predicate BoundToEnvironment(name: string)
  {
    NeededProfile(name) != "" && name != "k8s.get_replicasets"
  }

  predicate HasProfile(input: Input)
  {
    var p := NeededProfile(Trim(input.capability.name));
    p == "" || Trim(Meta(input.session.metadata, "tool_profile")) == p
  }

  /** These tools are decided without the argument checks. */
  predicate Specialist(name: string)
  {
    BoundToEnvironment(name) && NeededProfile(name) != "runtime-rollout-narrow"
  }

  predicate IntWithin(args: RawArgs, key: string, lo: int, hi: int)
  {
    args.Payload? && args.v.JObj? && key in args.v.fields && AsInt(args.v.fields[key]).Some? ==>
      lo <= AsInt(args.v.fields[key]).value <= hi
  }

  predicate WithinLimits(input: Input)
  {
    var name := Trim(input.capability.name);
    && (name == "k8s.scale_deployment" ==> IntWithin(input.args, "replicas", 0, 200) && IntWithin(input.args, "replicas_delta", -50, 50))
    && (name == "k8s.circuit_break" ==> IntWithin(input.args, "ttl_seconds", 60, 1800))
    && (NeededProfile(name) == "saturation-operator-bounded" ==>
          input.args.Absent? || (input.args.Payload? && (input.args.v.JObj? || input.args.v.JNull?)))
  }

  lemma RolloutMeaning(input: Input, env: Env)
    ensures var name := Trim(input.capability.name);
            RolloutGate(input, env) ==
            if NeededProfile(name) != "runtime-rollout-narrow" then None
            else if !HasProfile(input) then Some(Denied(PolicyDenied))
            else if BoundToEnvironment(name) && !InRuntime(input.session.metadata, env) then Some(Denied(EnvironmentMismatch))
            else None
  {
    EnvironmentMeaning(input.session.metadata, env);
  }

  lemma SaturationMeaning(input: Input, env: Env)
    requires NeededProfile(Trim(input.capability.name)) == "saturation-operator-bounded"
    ensures SaturationGate(input, env) ==
            if !HasProfile(input) then Denied(PolicyDenied)
            else if !InRuntime(input.session.metadata, env) then Denied(EnvironmentMismatch)
            else if WithinLimits(input) then Allowed else Denied(PolicyDenied)
  {
    EnvironmentMeaning(input.session.metadata, env);
  }

  lemma NotifyMeaning(input: Input, env: Env)
    requires Trim(input.capability.name) == "notify.escalation_channel"
    ensures NotifyGate(input, env) ==
            if !HasProfile(input) then Denied(PolicyDenied)
            else if !InRuntime(input.session.metadata, env) then Denied(EnvironmentMismatch)
            else Allowed
    ensures WithinLimits(input)
  {
    EnvironmentMeaning(input.session.metadata, env);
  }

  lemma SpecialistNames(name: string)
    ensures Specialist(name) <==> NeededProfile(name) == "saturation-operator-bounded" || name == "notify.escalation_channel"
  {
  }

  lemma SpecialistMeaning(input: Input, env: Env)
    ensures var name := Trim(input.capability.name);
            SpecialistGate(input, env) ==
            if !Specialist(name) then None
            else if !HasProfile(input) then Some(Denied(PolicyDenied))
            else if !InRuntime(input.session.metadata, env) then Some(Denied(EnvironmentMismatch))
            else if WithinLimits(input) then Some(Allowed) else Some(Denied(PolicyDenied))
  {
    var name := Trim(input.capability.name);
    SpecialistNames(name);
    if NeededProfile(name) == "saturation-operator-bounded" {
      SaturationMeaning(input, env);
    } else if name == "notify.escalation_channel" {
      NotifyMeaning(input, env);
    }
  }

  /** The text is made of something before, the part, and something after. */
  ghost predicate Inside(s: string, part: string)
  {
    exists a, b :: s == a + part + b
  }

  lemma InsideTail(s: string, part: string)
    requires s != ""
    ensures Inside(s, part) <==> part <= s || Inside(s[1..], part)
  {
    if part <= s { assert s == "" + part + s[|part|..]; }
    if Inside(s[1..], part) {
      var a, b :| s[1..] == a + part + b;
      assert s == ([s[0]] + a) + part + b;
    }
    if Inside(s, part) {
      var a, b :| s == a + part + b;
      if a == "" { assert s[..|part|] == part; } else { assert s[1..] == a[1..] + part + b; }
    }
  }

  lemma InsideNothing(part: string)
    ensures Inside("", part) <==> part == ""
  {
    if Inside("", part) {
      var a, b :| "" == a + part + b;
      assert |a + part + b| == 0;
    }
    assert "" == "" + "" + "";
  }

  lemma {:induction false} ContainsMeaning(s: string, sub: string)
    ensures Contains(s, sub) <==> Inside(s, sub)
  {
    if s == "" {
      InsideNothing(sub);
    } else {
      InsideTail(s, sub);
      ContainsMeaning(s[1..], sub);
    }
  }

  /** The rules of an argument field for one trimmed text. */
  ghost predicate TextFine(t: string, f: ArgField)
  {
    && t != "" && (f.maxLength > 0 ==> |t| <= f.maxLength)
    && (forall d :: d in f.denyCharacters && d != "" ==> !Inside(t, d))
    && (forall d :: d in f.deniedPrefix && d != "" ==> !(d <= t))
    && (f.allowedValues != [] ==> t in f.allowedValues)
    && (f.allowedValues == [] && f.allowedPrefix != [] ==> exists a :: a in f.allowedPrefix && a != "" && a <= t)
  }

  lemma NoneContained(t: string, denied: seq<string>)
    ensures (forall i :: 0 <= i < |denied| ==> denied[i] == "" || !Contains(t, denied[i])) <==>
            (forall d :: d in denied && d != "" ==> !Inside(t, d))
  {
    forall i | 0 <= i < |denied| ensures Contains(t, denied[i]) <==> Inside(t, denied[i]) {
      ContainsMeaning(t, denied[i]);
    }
    assert forall i :: 0 <= i < |denied| ==> denied[i] in denied;
  }

  lemma SomePrefix(t: string, allowed: seq<string>)
    ensures (exists i :: 0 <= i < |allowed| && allowed[i] != "" && HasPrefix(t, allowed[i])) <==>
            (exists a :: a in allowed && a != "" && a <= t)
  {
    if exists i :: 0 <= i < |allowed| && allowed[i] != "" && HasPrefix(t, allowed[i]) {
      var i :| 0 <= i < |allowed| && allowed[i] != "" && HasPrefix(t, allowed[i]);
      assert allowed[i] in allowed;
    }
  }

  lemma ValueAllowedMeaning(value: string, f: ArgField)
    ensures ValueAllowed(value, f) <==> TextFine(Trim(value), f)
  {
    NoneContained(Trim(value), f.denyCharacters);
    SomePrefix(Trim(value), f.allowedPrefix);
    SomePrefix(Trim(value), f.deniedPrefix);
  }

  ghost predicate PathTexts(texts: seq<string>, allowedPaths: seq<string>)
  {
    forall t :: t in texts && t != "" ==> exists a :: a in Paths.OrDot(allowedPaths) && Paths.Covers(a, t)
  }

  ghost predicate ArgTexts(texts: seq<string>, f: ArgField)
  {
    (f.maxItems > 0 ==> |texts| <= f.maxItems) && forall t :: t in texts ==> TextFine(Trim(t), f)
  }

  ghost predicate ListTexts(texts: seq<string>, family: Family, allow: set<string>)
  {
    forall t :: t in texts && Trim(t) != "" ==> Matches(family, Trim(t), allow)
  }

  ghost predicate PathsFine(payload: Json, fields: seq<Field>, allowedPaths: seq<string>)
  {
    forall f :: f in fields ==> exists texts :: Yields(payload, f, texts) && PathTexts(texts, allowedPaths)
  }

  ghost predicate ArgsFine(payload: Json, fields: seq<ArgField>)
  {
    forall f :: f in fields ==> exists texts :: Yields(payload, f.field, texts) && ArgTexts(texts, f)
  }

  ghost predicate ListFieldFine(payload: Json, family: Family, f: Field, allow: set<string>)
  {
    exists texts :: ListTexts(texts, family, allow) &&
      if family.Namespaces? || family.Registries? then YieldsEither(payload, f.name, texts) else Yields(payload, f, texts)
  }

  ghost predicate ListFine(payload: Json, family: Family, fields: seq<Field>, allow: set<string>)
  {
    forall f :: f in fields ==> ListFieldFine(payload, family, f, allow)
  }

  /** A family without restriction: its list is empty or holds "*". */
  predicate Open(input: Input, family: Family)
  {
    var allow := Allowlist(input.session.metadata, MetaKey(family));
    allow == {} || "*" in allow
  }

  /** Missing arguments are fine; those that are no JSON only where nothing is to be checked; all
      others when every field holds texts that keep its rules. */
  ghost predicate ArgumentsFine(input: Input)
  {
    var cap, session := input.capability, input.session;
    match input.args
    case Absent => true
    case Malformed =>
      cap.pathFields == [] && cap.argFields == [] && forall family: Family :: cap.listed(family) == [] || Open(input, family)
    case Payload(v) =>
      && PathsFine(v, cap.pathFields, session.allowedPaths)
      && ArgsFine(v, cap.argFields)
      && forall family: Family ::
           Open(input, family) || ListFine(v, family, cap.listed(family), Allowlist(session.metadata, MetaKey(family)))
  }

  predicate AllWithin(values: seq<string>, allowedPaths: seq<string>)
  {
    forall j :: 0 <= j < |values| ==> values[j] == "" || Paths.Within(values[j], Paths.OrDot(allowedPaths))
  }

  lemma PathTextsMeaning(values: seq<string>, allowedPaths: seq<string>)
    ensures PathTexts(values, allowedPaths) <==> AllWithin(values, allowedPaths)
  {
    forall j | 0 <= j < |values| ensures values[j] in values && (Paths.Within(values[j], Paths.OrDot(allowedPaths)) <==>
        exists a :: a in Paths.OrDot(allowedPaths) && Paths.Covers(a, values[j])) {
      Paths.WithinExists(values[j], Paths.OrDot(allowedPaths));
    }
  }

  lemma PathFieldMeaning(payload: Json, f: Field, allowedPaths: seq<string>)
    ensures (exists texts :: Yields(payload, f, texts) && PathTexts(texts, allowedPaths)) <==>
            var values := FieldValues(payload, f); values.Some? && AllWithin(values.value, allowedPaths)
  {
    forall texts { FieldValuesMeaning(payload, f, texts); }
    var values := FieldValues(payload, f);
    if values.Some? { PathTextsMeaning(values.value, allowedPaths); }
  }

  lemma PathsMeaning(payload: Json, fields: seq<Field>, allowedPaths: seq<string>)
    ensures PathsAllowed(Payload(payload), allowedPaths, fields) <==> PathsFine(payload, fields, allowedPaths)
  {
    forall f { PathFieldMeaning(payload, f, allowedPaths); }
    assert forall i :: 0 <= i < |fields| ==> fields[i] in fields;
  }

  lemma ArgTextsMeaning(values: seq<string>, f: ArgField)
    ensures ArgTexts(values, f) <==> (f.maxItems > 0 ==> |values| <= f.maxItems) && AllAllowed(values, f)
  {
    forall j | 0 <= j < |values| ensures values[j] in values && (ValueAllowed(values[j], f) <==> TextFine(Trim(values[j]), f)) {
      ValueAllowedMeaning(values[j], f);
    }
  }

  lemma ArgFieldMeaning(payload: Json, f: ArgField)
    ensures (exists texts :: Yields(payload, f.field, texts) && ArgTexts(texts, f)) <==> ArgFieldAllowed(payload, f)
  {
    forall texts { FieldValuesMeaning(payload, f.field, texts); }
    var values := FieldValues(payload, f.field);
    if values.Some? { ArgTextsMeaning(values.value, f); }
  }

  lemma ArgsMeaning(payload: Json, fields: seq<ArgField>)
    ensures ArgsAllowed(Payload(payload), fields) <==> ArgsFine(payload, fields)
  {
    forall f { ArgFieldMeaning(payload, f); }
    assert forall i :: 0 <= i < |fields| ==> fields[i] in fields;
  }

  predicate AllMatch(values: seq<string>, family: Family, allow: set<string>)
  {
    forall j :: 0 <= j < |values| ==> Trim(values[j]) == "" || Matches(family, Trim(values[j]), allow)
  }

  lemma ListTextsMeaning(values: seq<string>, family: Family, allow: set<string>)
    ensures ListTexts(values, family, allow) <==> AllMatch(values, family, allow)
  {
    assert forall j :: 0 <= j < |values| ==> values[j] in values;
  }

  lemma ListFieldMeaning(payload: Json, family: Family, f: Field, allow: set<string>)
    ensures ListFieldFine(payload, family, f, allow) <==>
            var values := FamilyValues(family, payload, f); values.Some? && AllMatch(values.value, family, allow)
  {
    var values := FamilyValues(family, payload, f);
    if family.Namespaces? || family.Registries? {
      forall texts { StringValuesMeaning(payload, f.name, texts); }
    } else {
      forall texts { FieldValuesMeaning(payload, f, texts); }
    }
    if values.Some? { ListTextsMeaning(values.value, family, allow); }
  }

  lemma ListMeaning(payload: Json, family: Family, fields: seq<Field>, allow: set<string>)
    requires allow != {} && "*" !in allow
    ensures FamilyAllowed(family, Payload(payload), fields, allow) <==> ListFine(payload, family, fields, allow)
  {
    forall f { ListFieldMeaning(payload, family, f, allow); }
    assert forall i :: 0 <= i < |fields| ==> fields[i] in fields;
  }

  lemma FamilyMeaning(input: Input, payload: Json, family: Family)
    requires input.args == Payload(payload)
    ensures var allow := Allowlist(input.session.metadata, MetaKey(family));
            FamilyAllowed(family, input.args, input.capability.listed(family), allow) <==>
            Open(input, family) || ListFine(payload, family, input.capability.listed(family), allow)
  {
    var allow := Allowlist(input.session.metadata, MetaKey(family));
    if allow != {} && "*" !in allow { ListMeaning(payload, family, input.capability.listed(family), allow); }
  }

  lemma ArgumentsMeaning(input: Input)
    ensures ArgumentsAllowed(input) <==> ArgumentsFine(input)
  {
    if input.args.Payload? {
      PathsMeaning(input.args.v, input.capability.pathFields, input.session.allowedPaths);
      ArgsMeaning(input.args.v, input.capability.argFields);
      forall family: Family { FamilyMeaning(input, input.args.v, family); }
    }
  }

  /** What each decision means, from the input's fields: the exact condition of an allow, of the
      demand for approval, and of a mismatch of environments; every other denial is policy_denied. */
  lemma AuthorizeMeaning(input: Input, env: Env)
    ensures var d, name := Authorize(input, env), Trim(input.capability.name);
            var approved := input.capability.requiresApproval ==> input.approved;
            var placed := BoundToEnvironment(name) ==> InRuntime(input.session.metadata, env);
            && (d.Allowed? <==> MayUse(input, env) && approved && HasProfile(input) && placed
                                && if Specialist(name) then WithinLimits(input) else ArgumentsFine(input))
            && (d == Denied(ApprovalRequired) <==> MayUse(input, env) && !approved)
            && (d == Denied(EnvironmentMismatch) <==> MayUse(input, env) && approved && HasProfile(input) && !placed)
  {
    RoleGatesMeaning(input, env);
    RolloutMeaning(input, env);
    SpecialistMeaning(input, env);
    ArgumentsMeaning(input);
  }

  // ---- Listing is complete for authorization ---------------------------------------------------

  /** The empty object passes every argument check. */
  lemma EmptyObjectPasses(input: Input)
    requires input.args == EMPTY_OBJECT
    ensures ArgumentsAllowed(input)
  {
    forall field { NothingSelected(field); }
  }

  /** The rollout and specialist gates refuse {} only where they refuse any arguments. */
  lemma EmptyObjectGates(input: Input, env: Env)
    ensures var asked := input.(args := EMPTY_OBJECT, approved := true);
            && RolloutGate(asked, env) == RolloutGate(input, env)
            && (SpecialistGate(asked, env).None? <==> SpecialistGate(input, env).None?)
            && (SpecialistGate(input, env) == Some(Allowed) ==> SpecialistGate(asked, env) == Some(Allowed))
  {
  }

  /** What is allowed with any arguments and any approval flag is allowed with {} and approval. */
  lemma ListingComplete(input: Input, env: Env)
    requires Authorize(input, env).Allowed?
    ensures Authorize(input.(args := EMPTY_OBJECT, approved := true), env).Allowed?
  {
    var asked := input.(args := EMPTY_OBJECT, approved := true);
    EmptyObjectPasses(asked);
    EmptyObjectGates(input, env);
  }

  // ---- What an allow guarantees ----------------------------------------------------------------

  /** Past the specialist gate, which decides alone, an allow means that every path argument has
      the right shape and that path resolution never rejects it for the allow-list: it resolves
      exactly when it does not back out of the workspace and the workspace has room. */
  lemma AllowedPathsResolve(input: Input, env: Env, workspace: string, i: nat, j: nat)
    requires Authorize(input, env).Allowed? && SpecialistGate(input, env).None?
    requires input.args.Payload? && i < |input.capability.pathFields|
    ensures var values := FieldValues(input.args.v, input.capability.pathFields[i]);
            && values.Some?
            && (j < |values.value| && values.value[j] != "" ==>
                  var path := values.value[j];
                  var r := Paths.ResolvePath(workspace, input.session.allowedPaths, path);
                  && !r.OutsideAllowed?
                  && (r.Resolved? <==> !HasPrefix(Paths.Clean(path), "..") && Paths.HasRoom(workspace, path)))
  {
    var values := FieldValues(input.args.v, input.capability.pathFields[i]);
    assert values.Some?;
    if j < |values.value| && values.value[j] != "" {
      Paths.ResolveWithin(workspace, input.session.allowedPaths, values.value[j]);
    }
  }

  /** Likewise every non-blank value of a listed family matches an entry of its allow-list, unless
      the list is empty or holds "*". */
  lemma AllowedValuesMatch(input: Input, env: Env, family: Family, i: nat, j: nat)
    requires Authorize(input, env).Allowed? && SpecialistGate(input, env).None?
    requires input.args.Payload? && i < |input.capability.listed(family)|
    ensures var allow := Allowlist(input.session.metadata, MetaKey(family));
            allow != {} && "*" !in allow ==>
              var values := FamilyValues(family, input.args.v, input.capability.listed(family)[i]);
              && values.Some?
              && (j < |values.value| && Trim(values.value[j]) != "" ==> Matches(family, Trim(values.value[j]), allow))
  {
    assert FamilyAllowed(family, input.args, input.capability.listed(family), Allowlist(input.session.metadata, MetaKey(family)));
  }

  // ---- Monotonicity ----------------------------------------------------------------------------

  /** `b` grants at least what `a` grants: more roles, approval, more entries in a non-empty
      path list, more entries in metadata allow-lists that were not empty; nothing else differs. */
  ghost predicate Widens(a: Input, b: Input)
  {
    && a.capability == b.capability && a.args == b.args && (a.approved ==> b.approved)
    && (forall r :: r in a.session.roles ==> r in b.session.roles)
    && (a.session.allowedPaths == b.session.allowedPaths
        || (a.session.allowedPaths != [] && forall p :: p in a.session.allowedPaths ==> p in b.session.allowedPaths))
    && (forall key :: (forall f: Family :: key != MetaKey(f)) ==> Meta(a.session.metadata, key) == Meta(b.session.metadata, key))
    && (forall f: Family ::
          var x, y := Allowlist(a.session.metadata, MetaKey(f)), Allowlist(b.session.metadata, MetaKey(f));
          x <= y && (x == {} ==> y == {}))
  }

  lemma MatchesMore(family: Family, value: string, x: set<string>, y: set<string>)
    requires x <= y && Matches(family, value, x)
    ensures Matches(family, value, y)
  {
  }

  lemma PathsMore(args: RawArgs, a: seq<string>, b: seq<string>, fields: seq<Field>)
    requires a == b || (a != [] && forall p :: p in a ==> p in b)
    requires PathsAllowed(args, a, fields)
    ensures PathsAllowed(args, b, fields)
  {
    if a != b {
      assert a[0] in b;
      forall path | Paths.Within(path, a) ensures Paths.Within(path, b) {
        Paths.WithinExists(path, a);
        Paths.WithinExists(path, b);
      }
    }
  }

  lemma ListsMore(a: Input, b: Input)
    requires Widens(a, b) && ListsAllowed(a)
    ensures ListsAllowed(b)
  {
    forall family: Family
      ensures FamilyAllowed(family, b.args, b.capability.listed(family), Allowlist(b.session.metadata, MetaKey(family)))
    {
      var x, y := Allowlist(a.session.metadata, MetaKey(family)), Allowlist(b.session.metadata, MetaKey(family));
      assert FamilyAllowed(family, a.args, a.capability.listed(family), x);
      forall value | Matches(family, value, x) { MatchesMore(family, value, x, y); }
    }
  }

  lemma RolesMore(a: seq<string>, b: seq<string>, target: string, env: Env)
    requires (forall r :: r in a ==> r in b) && HasRole(a, target, env)
    ensures HasRole(b, target, env)
  {
    var i :| 0 <= i < |a| && ToLower(Trim(a[i]), env.lower) == ToLower(Trim(target), env.lower);
    assert a[i] in b;
  }

  lemma MetaKeyLength(f: Family)
    ensures |MetaKey(f)| !in {11, 12, 19}
  {
  }

  lemma EnvironmentSame(a: map<string, string>, b: map<string, string>, env: Env)
    requires forall key :: (forall f: Family :: key != MetaKey(f)) ==> Meta(a, key) == Meta(b, key)
    ensures ToolProfile(a) == ToolProfile(b) && EnvironmentMatches(a, env) == EnvironmentMatches(b, env)
  {
    forall f: Family { MetaKeyLength(f); }
    assert |"tool_profile"| == 12 && |"environment"| == 11 && |"runtime_environment"| == 19;
    assert Meta(a, "tool_profile") == Meta(b, "tool_profile");
    assert Meta(a, "environment") == Meta(b, "environment");
    assert Meta(a, "runtime_environment") == Meta(b, "runtime_environment");
  }

  lemma SaturationSame(a: Input, b: Input, env: Env)
    requires a.capability == b.capability && a.args == b.args
    requires var m, m' := a.session.metadata, b.session.metadata;
             ToolProfile(m) == ToolProfile(m') && EnvironmentMatches(m, env) == EnvironmentMatches(m', env)
    ensures SaturationGate(a, env) == SaturationGate(b, env)
  {
  }

  lemma NotifySame(a: Input, b: Input, env: Env)
    requires a.capability == b.capability && a.args == b.args
    requires var m, m' := a.session.metadata, b.session.metadata;
             ToolProfile(m) == ToolProfile(m') && EnvironmentMatches(m, env) == EnvironmentMatches(m', env)
    ensures NotifyGate(a, env) == NotifyGate(b, env) && RolloutGate(a, env) == RolloutGate(b, env)
  {
  }

  lemma GatesSame(a: Input, b: Input, env: Env)
    requires a.capability == b.capability && a.args == b.args
    requires var m, m' := a.session.metadata, b.session.metadata;
             ToolProfile(m) == ToolProfile(m') && EnvironmentMatches(m, env) == EnvironmentMatches(m', env)
    ensures RolloutGate(a, env) == RolloutGate(b, env) && SpecialistGate(a, env) == SpecialistGate(b, env)
  {
    SaturationSame(a, b, env);
    NotifySame(a, b, env);
  }

  lemma ScopeMore(a: seq<string>, b: seq<string>, scope: Scope, env: Env)
    requires (forall r :: r in a ==> r in b) && ScopeAllowed(a, scope, env)
    ensures ScopeAllowed(b, scope, env)
  {
    if HasRole(a, "devops", env) { RolesMore(a, b, "devops", env); }
    if HasRole(a, "platform_admin", env) { RolesMore(a, b, "platform_admin", env); }
    if HasRole(a, "incident_communicator", env) { RolesMore(a, b, "incident_communicator", env); }
  }

  lemma RoleGatesMore(a: Input, b: Input, env: Env)
    requires a.capability == b.capability && (forall r :: r in a.session.roles ==> r in b.session.roles) && RoleGates(a, env)
    ensures RoleGates(b, env)
  {
    ScopeMore(a.session.roles, b.session.roles, a.capability.scope, env);
    if a.capability.risk.High? { RolesMore(a.session.roles, b.session.roles, "platform_admin", env); }
  }

  lemma ArgumentsMore(a: Input, b: Input)
    requires Widens(a, b) && ArgumentsAllowed(a)
    ensures ArgumentsAllowed(b)
  {
    PathsMore(a.args, a.session.allowedPaths, b.session.allowedPaths, a.capability.pathFields);
    ListsMore(a, b);
  }

  /** Authorization is monotone: widening what a session grants never turns an allow into a deny. */
  lemma AuthorizeMonotone(a: Input, b: Input, env: Env)
    requires Widens(a, b) && Authorize(a, env).Allowed?
    ensures Authorize(b, env).Allowed?
  {
    EnvironmentSame(a.session.metadata, b.session.metadata, env);
    GatesSame(a, b, env);
    RoleGatesMore(a, b, env);
    if ArgumentsAllowed(a) { ArgumentsMore(a, b); }
  }

  lemma MetaKeysDistinct(f: Family, g: Family)
    ensures MetaKey(f) == MetaKey(g) <==> f == g
  {
    assert |MetaKey(Profiles)| == 16 && |MetaKey(Subjects)| == 21 && |MetaKey(Topics)| == 20 && |MetaKey(Queues)| == 21;
    assert MetaKey(Subjects)[8] == 'n' && MetaKey(Queues)[8] == 'r';
  }

  /** The metadata with ",entry" appended to one family's allow-list. */
  function Appended(m: map<string, string>, family: Family, entry: string): (m': map<string, string>)
  {
    m[MetaKey(family) := Meta(m, MetaKey(family)) + "," + entry]
  }

  lemma AppendGrows(m: map<string, string>, family: Family, entry: string, f: Family)
    requires Allowlist(m, MetaKey(family)) != {}
    ensures var x, y := Allowlist(m, MetaKey(f)), Allowlist(Appended(m, family, entry), MetaKey(f));
            x <= y && (x == {} ==> y == {})
  {
    MetaKeysDistinct(f, family);
    if f == family {
      AllowlistAppend(m, MetaKey(family), entry);
    } else {
      assert Meta(m, MetaKey(f)) == Meta(Appended(m, family, entry), MetaKey(f));
    }
  }

  lemma AppendWidens(input: Input, family: Family, entry: string)
    requires Allowlist(input.session.metadata, MetaKey(family)) != {}
    ensures Widens(input, input.(session := input.session.(metadata := Appended(input.session.metadata, family, entry))))
  {
    var m := input.session.metadata;
    forall f: Family
      ensures var x, y := Allowlist(m, MetaKey(f)), Allowlist(Appended(m, family, entry), MetaKey(f)); x <= y && (x == {} ==> y == {})
    {
      AppendGrows(m, family, entry, f);
    }
  }

  /** The concrete grants: a role, the approval, a path entry, and an entry appended to a
      metadata allow-list that already parses non-empty. */
  lemma GrantsKeepAllow(input: Input, env: Env, role: string, path: string, family: Family, entry: string)
    requires Authorize(input, env).Allowed?
    ensures Authorize(input.(session := input.session.(roles := input.session.roles + [role])), env).Allowed?
    ensures Authorize(input.(approved := true), env).Allowed?
    ensures input.session.allowedPaths != [] ==>
            Authorize(input.(session := input.session.(allowedPaths := input.session.allowedPaths + [path])), env).Allowed?
    ensures var m := input.session.metadata;
            Allowlist(m, MetaKey(family)) != {} ==>
              Authorize(input.(session := input.session.(metadata := Appended(m, family, entry))), env).Allowed?
  {
    AuthorizeMonotone(input, input.(session := input.session.(roles := input.session.roles + [role])), env);
    AuthorizeMonotone(input, input.(approved := true), env);
    if input.session.allowedPaths != [] {
      AuthorizeMonotone(input, input.(session := input.session.(allowedPaths := input.session.allowedPaths + [path])), env);
    }
    var m := input.session.metadata;
    if Allowlist(m, MetaKey(family)) != {} {
      AppendWidens(input, family, entry);
      AuthorizeMonotone(input, input.(session := input.session.(metadata := Appended(m, family, entry))), env);
    }
  }
}
