/** Dependency inventories: the line parsers and the npm tree walk, both collecting entries with
    distinct keys up to a maximum. */
module Dependencies {
  import opened Common
  import opened GoStrings
  import opened Sorting
  import opened Policy

  datatype Entry = Entry(name: string, version: string)

  const GO := "go"
  const NODE := "node"

  function Key(ecosystem: string, e: Entry): (k: string)
  {
    ecosystem + "|" + e.name + "|" + e.version
  }

  /** Keys tell entries apart as long as names hold no bar. */
  lemma KeyInjective(ecosystem: string, a: Entry, b: Entry)
    requires '|' !in a.name && '|' !in b.name
    ensures Key(ecosystem, a) == Key(ecosystem, b) <==> a == b
  {
    if Key(ecosystem, a) == Key(ecosystem, b) {
      var n := |ecosystem| + 1;
      assert Key(ecosystem, a)[n..] == a.name + ['|'] + a.version;
      assert Key(ecosystem, b)[n..] == b.name + ['|'] + b.version;
      CutAt(a.name, '|', a.version, b.name, b.version);
    }
  }

  // ---- Distinct entries ----------------------------------------------------------------------

  function Keys(ecosystem: string, out: seq<Entry>): (keys: set<string>)
  {
    set e | e in out :: Key(ecosystem, e)
  }

  /** The first entry of every key, in order. */
  function Distinct(ecosystem: string, items: seq<Entry>): (d: seq<Entry>)
  {
    if items == [] then []
    else
      var d, last := Distinct(ecosystem, items[..|items| - 1]), items[|items| - 1];
      if Key(ecosystem, last) in Keys(ecosystem, d) then d else d + [last]
  }

  /** No earlier item has the key of item i. */
  ghost predicate IsFirst(ecosystem: string, items: seq<Entry>, i: nat)
    requires i < |items|
  {
    forall j :: 0 <= j < i ==> Key(ecosystem, items[j]) != Key(ecosystem, items[i])
  }

  lemma KeysAppend(ecosystem: string, items: seq<Entry>, e: Entry)
    ensures Keys(ecosystem, items + [e]) == Keys(ecosystem, items) + {Key(ecosystem, e)}
  {
  }

  lemma {:induction false} DistinctKeys(ecosystem: string, items: seq<Entry>)
    ensures Keys(ecosystem, Distinct(ecosystem, items)) == Keys(ecosystem, items)
  {
    if items != [] {
      var front := items[..|items| - 1];
      DistinctKeys(ecosystem, front);
      assert items == front + [items[|items| - 1]];
      KeysAppend(ecosystem, front, items[|items| - 1]);
      KeysAppend(ecosystem, Distinct(ecosystem, front), items[|items| - 1]);
    }
  }

  lemma DistinctAppend(ecosystem: string, items: seq<Entry>, e: Entry)
    ensures Distinct(ecosystem, items + [e]) ==
            if Key(ecosystem, e) in Keys(ecosystem, items) then Distinct(ecosystem, items) else Distinct(ecosystem, items) + [e]
  {
    assert (items + [e])[..|items|] == items;
    DistinctKeys(ecosystem, items);
  }

  lemma {:induction false} DistinctPrefix(ecosystem: string, a: seq<Entry>, b: seq<Entry>)
    ensures Distinct(ecosystem, a) <= Distinct(ecosystem, a + b)
  {
    if b == [] {
      assert a + b == a;
    } else {
      var front, e := b[..|b| - 1], b[|b| - 1];
      DistinctPrefix(ecosystem, a, front);
      assert a + b == (a + front) + [e];
      DistinctAppend(ecosystem, a + front, e);
    }
  }

  /** Item i sits at the place given by the number of keys before it exactly when it is the first
      of its key; keys never repeat. */
  lemma DistinctMeaning(ecosystem: string, items: seq<Entry>, i: nat)
    requires i < |items|
    ensures var d, p := Distinct(ecosystem, items), |Distinct(ecosystem, items[..i])|;
            IsFirst(ecosystem, items, i) <==> p < |d| && d[p] == items[i]
    ensures ApartKeys(ecosystem, Distinct(ecosystem, items))
    ensures |Distinct(ecosystem, items)| == |Keys(ecosystem, items)|
  {
    var front, e := items[..i], items[i];
    NoRepeat(ecosystem, items);
    DistinctKeys(ecosystem, items);
    PrefixPlace(ecosystem, items, i);
    assert IsFirst(ecosystem, items, i) <==> Key(ecosystem, e) !in Keys(ecosystem, front) by {
      forall j | 0 <= j < i ensures items[j] in front { assert front[j] == items[j]; }
    }
  }

  /** The distinct list of a prefix starts the whole one, and goes on with the next item exactly
      when that brings a new key. */
  lemma PrefixPlace(ecosystem: string, items: seq<Entry>, i: nat)
    requires i < |items|
    ensures var d, f := Distinct(ecosystem, items), Distinct(ecosystem, items[..i]);
            && f <= d
            && (Key(ecosystem, items[i]) !in Keys(ecosystem, items[..i]) ==> |f| < |d| && d[|f|] == items[i])
            && (Key(ecosystem, items[i]) in Keys(ecosystem, items[..i]) ==>
                  exists x :: 0 <= x < |f| && Key(ecosystem, d[x]) == Key(ecosystem, items[i]))
  {
    var front, e := items[..i], items[i];
    var f := Distinct(ecosystem, front);
    assert items == front + [e] + items[i + 1..];
    DistinctPrefix(ecosystem, front + [e], items[i + 1..]);
    DistinctAppend(ecosystem, front, e);
    DistinctKeys(ecosystem, front);
    if Key(ecosystem, e) in Keys(ecosystem, f) {
      var y :| y in f && Key(ecosystem, y) == Key(ecosystem, e);
      var x :| 0 <= x < |f| && f[x] == y;
    }
  }

  ghost predicate ApartKeys(ecosystem: string, d: seq<Entry>)
  {
    forall x, y :: 0 <= x < y < |d| ==> Key(ecosystem, d[x]) != Key(ecosystem, d[y])
  }

  lemma ApartAppend(ecosystem: string, d: seq<Entry>, e: Entry)
    requires ApartKeys(ecosystem, d) && |d| == |Keys(ecosystem, d)| && Key(ecosystem, e) !in Keys(ecosystem, d)
    ensures ApartKeys(ecosystem, d + [e]) && |d + [e]| == |Keys(ecosystem, d + [e])|
  {
    KeysAppend(ecosystem, d, e);
    assert forall x :: 0 <= x < |d| ==> d[x] in d;
  }

  lemma {:induction false} NoRepeat(ecosystem: string, items: seq<Entry>)
    ensures var d := Distinct(ecosystem, items); ApartKeys(ecosystem, d) && |d| == |Keys(ecosystem, d)|
  {
    if items != [] {
      var front, last := items[..|items| - 1], items[|items| - 1];
      NoRepeat(ecosystem, front);
      if Key(ecosystem, last) !in Keys(ecosystem, Distinct(ecosystem, front)) {
        ApartAppend(ecosystem, Distinct(ecosystem, front), last);
      }
    }
  }

  /** The result of a collection: what is kept of a list, and whether something was dropped. */
  datatype Inventory = Inventory(out: seq<Entry>, truncated: bool)

  function Cut(d: seq<Entry>, max: nat): (r: Inventory)
  {
    if |d| > max then Inventory(d[..max], true) else Inventory(d, false)
  }

  // ---- go list -------------------------------------------------------------------------------

  function Prune(raw: seq<string>): (lines: seq<string>)
  {
    if raw == [] then []
    else
      var lines, line := Prune(raw[..|raw| - 1]), Trim(raw[|raw| - 1]);
      if line == "" then lines else lines + [line]
  }

  /** Pruning goes line by line: it keeps the trimmed text of each line that has one. */
  lemma {:induction false} PruneConcat(a: seq<string>, b: seq<string>)
    ensures Prune(a + b) == Prune(a) + Prune(b)
    decreases |b|
  {
    if b == [] {
      assert a + b == a;
    } else {
      PruneConcat(a, b[..|b| - 1]);
      assert (a + b)[..|a + b| - 1] == a + b[..|b| - 1];
    }
  }

  lemma PruneOne(line: string)
    ensures Prune([line]) == if Trim(line) == "" then [] else [Trim(line)]
  {
    assert [line][..0] == [];
  }

  /** splitOutputLines: the trimmed non-empty lines. */
  method SplitOutputLines(output: string) returns (lines: seq<string>)
    ensures lines == Prune(Split(output, '\n'))
  {
    var raw := Split(output, '\n');
    lines := [];
    var i := 0;
    while i < |raw|
      invariant 0 <= i <= |raw| && lines == Prune(raw[..i])
    {
      assert raw[..i + 1][..i] == raw[..i];
      var trimmed := Trim(raw[i]);
      if trimmed != "" { lines := lines + [trimmed]; }
      i := i + 1;
    }
    assert raw[..i] == raw;
  }

  /** The first word that starts with v, without the v. */
  function Version(words: seq<string>): (v: string)
  {
    if words == [] then "unknown"
    else if HasPrefix(Trim(words[0]), "v") then Trim(words[0])[1..]
    else Version(words[1..])
  }

  /** The version is what follows the v of the first word that starts with one. */
  lemma {:induction false} VersionMeaning(words: seq<string>, k: nat)
    requires forall i :: 0 <= i < k && i < |words| ==> !HasPrefix(Trim(words[i]), "v")
    ensures k >= |words| ==> Version(words) == "unknown"
    ensures k < |words| && HasPrefix(Trim(words[k]), "v") ==> Trim(words[k]) == "v" + Version(words)
    decreases |words|
  {
    if words != [] && k > 0 {
      VersionMeaning(words[1..], k - 1);
    } else if words != [] && HasPrefix(Trim(words[0]), "v") {
      assert Trim(words[0]) == "v" + Trim(words[0])[1..];
    }
  }

  function GoEntry(line: string): (e: Option<Entry>)
  {
    var words := Fields(line);
    if words == [] || Trim(words[0]) == "" then None else Some(Entry(Trim(words[0]), Version(words[1..])))
  }

  function GoEntries(lines: seq<string>): (items: seq<Entry>)
  {
    if lines == [] then []
    else
      var items, e := GoEntries(lines[..|lines| - 1]), GoEntry(lines[|lines| - 1]);
      if e.None? then items else items + [e.value]
  }

  /** The candidates come line by line: for each line with a word, its first word and version. */
  lemma {:induction false} GoEntriesConcat(a: seq<string>, b: seq<string>)
    ensures GoEntries(a + b) == GoEntries(a) + GoEntries(b)
    decreases |b|
  {
    if b == [] {
      assert a + b == a;
    } else {
      GoEntriesConcat(a, b[..|b| - 1]);
      assert (a + b)[..|a + b| - 1] == a + b[..|b| - 1];
    }
  }

  lemma GoEntriesOne(line: string)
    ensures var words := Fields(line);
            GoEntries([line]) ==
            if words == [] || Trim(words[0]) == "" then [] else [Entry(Trim(words[0]), Version(words[1..]))]
  {
    assert [line][..0] == [];
  }

  method FindVersion(words: seq<string>) returns (version: string)
    ensures version == Version(words)
  {
    version := "unknown";
    var i := 0;
    while i < |words|
      invariant 0 <= i <= |words| && version == "unknown" && Version(words) == Version(words[i..])
    {
      var token := Trim(words[i]);
      if HasPrefix(token, "v") { return token[1..]; }
      assert words[i..][1..] == words[i + 1..];
      i := i + 1;
    }
  }

  method ReadGoLine(line: string) returns (e: Option<Entry>)
    ensures e == GoEntry(line)
  {
    var words := Fields(line);
    if |words| == 0 { return None; }
    var name := Trim(words[0]);
    if name == "" { return None; }
    var version := FindVersion(words[1..]);
    return Some(Entry(name, version));
  }

  lemma {:induction false} GoEntriesPrefix(lines: seq<string>, i: nat)
    requires i <= |lines|
    ensures GoEntries(lines[..i]) <= GoEntries(lines)
  {
    if i == |lines| {
      assert lines[..i] == lines;
    } else {
      var front := lines[..|lines| - 1];
      GoEntriesPrefix(front, i);
      assert front[..i] == lines[..i];
    }
  }

  lemma GoEntriesStep(lines: seq<string>, i: nat)
    requires i < |lines|
    ensures GoEntries(lines[..i + 1]) ==
            if GoEntry(lines[i]).Some? then GoEntries(lines[..i]) + [GoEntry(lines[i]).value] else GoEntries(lines[..i])
  {
    assert lines[..i + 1][..i] == lines[..i];
  }

  /** More distinct entries than the maximum among the first items mean the same cut of all. */
  lemma EarlyCut(ecosystem: string, a: seq<Entry>, items: seq<Entry>, e: Entry, max: nat)
    requires a + [e] <= items && Key(ecosystem, e) !in Keys(ecosystem, a) && |Distinct(ecosystem, a)| == max
    ensures Cut(Distinct(ecosystem, items), max) == Inventory(Distinct(ecosystem, a), true)
  {
    var rest := items[|a| + 1..];
    assert items == (a + [e]) + rest;
    DistinctAppend(ecosystem, a, e);
    DistinctPrefix(ecosystem, a + [e], rest);
  }

  /** `out` and `seen` hold what the items leave after dropping repeated keys. */
  ghost predicate Collected(ecosystem: string, items: seq<Entry>, out: seq<Entry>, seen: set<string>, max: nat)
  {
    out == Distinct(ecosystem, items) && seen == Keys(ecosystem, items) && |out| <= max
  }

  /** One candidate: a known key changes nothing, a new one is kept unless the list is full. */
  method Collect(ecosystem: string, e: Entry, out: seq<Entry>, seen: set<string>, max: nat, ghost items: seq<Entry>)
    returns (out': seq<Entry>, seen': set<string>, full: bool)
    requires Collected(ecosystem, items, out, seen, max)
    ensures full <==> Key(ecosystem, e) !in Keys(ecosystem, items) && |Distinct(ecosystem, items)| == max
    ensures full ==> out' == out
    ensures !full ==> Collected(ecosystem, items + [e], out', seen', max)
  {
    var key := Key(ecosystem, e);
    DistinctAppend(ecosystem, items, e);
    KeysAppend(ecosystem, items, e);
    if key in seen { return out, seen, false; }
    if |out| >= max { return out, seen, true; }
    return out + [e], seen + {key}, false;
  }

  /** One line of the loop, with the place it takes in the candidates. */
  method CollectLine(lines: seq<string>, i: nat, out: seq<Entry>, seen: set<string>, max: nat)
    returns (out': seq<Entry>, seen': set<string>, full: bool)
    requires i < |lines| && Collected(GO, GoEntries(lines[..i]), out, seen, max)
    ensures full ==> Inventory(out', true) == Cut(Distinct(GO, GoEntries(lines)), max)
    ensures !full ==> Collected(GO, GoEntries(lines[..i + 1]), out', seen', max)
  {
    ghost var items := GoEntries(lines[..i]);
    GoEntriesStep(lines, i);
    var e := ReadGoLine(lines[i]);
    if e.None? { return out, seen, false; }
    out', seen', full := Collect(GO, e.value, out, seen, max, items);
    if full {
      GoEntriesPrefix(lines, i + 1);
      EarlyCut(GO, items, GoEntries(lines), e.value, max);
    }
  }

  lemma WholeCut(ecosystem: string, items: seq<Entry>, out: seq<Entry>, seen: set<string>, max: nat)
    requires Collected(ecosystem, items, out, seen, max)
    ensures Inventory(out, false) == Cut(Distinct(ecosystem, items), max)
  {
  }

  /** The loop over the lines. */
  method CollectLines(lines: seq<string>, max: nat) returns (out: seq<Entry>, truncated: bool)
    ensures Inventory(out, truncated) == Cut(Distinct(GO, GoEntries(lines)), max)
  {
    out, truncated := [], false;
    var seen: set<string> := {};
    var i := 0;
    assert lines[..0] == [];
    while i < |lines|
      invariant 0 <= i <= |lines| && !truncated
      invariant Collected(GO, GoEntries(lines[..i]), out, seen, max)
    {
      out, seen, truncated := CollectLine(lines, i, out, seen, max);
      if truncated { return; }
      i := i + 1;
    }
    assert lines[..i] == lines;
    WholeCut(GO, GoEntries(lines), out, seen, max);
  }

  /** parseGoDependencyInventory returns the first max distinct entries in line order, and is
      truncated exactly when another distinct entry exists. */
  method ParseGoDependencyInventory(output: string, max: nat) returns (out: seq<Entry>, truncated: bool)
    ensures Inventory(out, truncated) == Cut(Distinct(GO, GoEntries(Prune(Split(output, '\n')))), max)
  {
    var lines := SplitOutputLines(output);
    out, truncated := CollectLines(lines, max);
  }

  // ---- npm tree ------------------------------------------------------------------------------

  /** One name met by the walk: a package, or an entry of another shape. */
  datatype Visit = Package(e: Entry) | Other

  function NodeVersion(node: map<string, Json>): (v: string)
  {
    var raw := if "version" in node && node["version"].JStr? then Trim(node["version"].s) else "";
    if raw == "" then "unknown" else raw
  }

  /** The elements of a set in some order. */
  ghost function AnyOrder(names: set<string>): (r: seq<string>)
    ensures multiset(r) == multiset(names)
  {
    if names == {} then []
    else
      var n :| n in names;
      assert multiset(names) == multiset(names - {n}) + multiset{n};
      [n] + AnyOrder(names - {n})
  }

  ghost function SortedNames(tree: map<string, Json>): (names: seq<string>)
    ensures multiset(names) == multiset(tree.Keys)
  {
    Sort(AnyOrder(tree.Keys), Less)
  }

  lemma LessOrder()
    ensures StrictOrder(Less)
  {
    forall a: string ensures !Less(a, a) { LessIrreflexive(a); }
    forall a: string, b: string, c: string | Less(a, b) && Less(b, c) ensures Less(a, c) { LessTransitive(a, b, c); }
    forall a: string, b: string, c: string | !Less(a, b) && !Less(b, c) ensures !Less(a, c) { NotLessTransitive(a, b, c); }
  }

  lemma LessSeparates(names: seq<string>)
    ensures Separates(names, Less)
  {
    forall a, b | a in names && b in names && !Less(a, b) && !Less(b, a) ensures a == b { LessTotal(a, b); }
  }

  /** The names met below `tree` in pre-order, each level sorted, from the given names on. */
  ghost function Visits(tree: Json, names: seq<string>): (v: seq<Visit>)
    decreases tree, 1, |names|
  {
    if !tree.JObj? || names == [] || names[0] !in tree.fields then []
    else Below(names[0], tree.fields[names[0]]) + Visits(tree, names[1..])
  }

  /** One name and everything below it. */
  ghost function Below(name: string, node: Json): (v: seq<Visit>)
    decreases node, 3, 0
  {
    if !node.JObj? then [Other]
    else
      [Package(Entry(name, NodeVersion(node.fields)))] +
      (if "dependencies" in node.fields then AllVisits(node.fields["dependencies"]) else [])
  }

  ghost function AllVisits(tree: Json): (v: seq<Visit>)
    decreases tree, 2, 0
  {
    if tree.JObj? then Visits(tree, SortedNames(tree.fields)) else []
  }

  // ---- What the walk meets -------------------------------------------------------------------

  /** The node at the end of a chain of names: each name but the last leads through an object to
      its "dependencies". */
  function Reach(tree: Json, chain: seq<string>): (node: Option<Json>)
    requires chain != []
    decreases |chain|
  {
    if !tree.JObj? || chain[0] !in tree.fields then None
    else
      var first := tree.fields[chain[0]];
      if |chain| == 1 then Some(first)
      else if first.JObj? && "dependencies" in first.fields then Reach(first.fields["dependencies"], chain[1..])
      else None
  }

  /** The version a package states: its trimmed "version" text, or "unknown" when that is missing,
      blank or no text. */
  predicate StatesVersion(fields: map<string, Json>, v: string)
  {
    if "version" in fields && fields["version"].JStr? && Trim(fields["version"].s) != ""
    then v == Trim(fields["version"].s) else v == "unknown"
  }

  /** The visit tells what the chain leads to: an object is a package of the last name and the
      version it states. */
  ghost predicate Tells(tree: Json, chain: seq<string>, v: Visit)
  {
    && chain != [] && Reach(tree, chain).Some?
    && var node := Reach(tree, chain).value;
       if node.JObj? then v.Package? && v.e.name == chain[|chain| - 1] && StatesVersion(node.fields, v.e.version)
       else v.Other?
  }

  /** A chain comes before those that go on from it, and by name where two part. */
  predicate ChainBefore(a: seq<string>, b: seq<string>)
  {
    if b == [] then false
    else if a == [] then true
    else if a[0] != b[0] then Less(a[0], b[0])
    else ChainBefore(a[1..], b[1..])
  }

  ghost predicate InOrder(chains: seq<seq<string>>)
  {
    forall i, j :: 0 <= i < j < |chains| ==> ChainBefore(chains[i], chains[j])
  }

  ghost predicate AllTell(tree: Json, chains: seq<seq<string>>, visits: seq<Visit>)
  {
    |chains| == |visits| && forall i :: 0 <= i < |chains| ==> Tells(tree, chains[i], visits[i])
  }

  /** Every chain that leads somewhere and starts with one of the names is listed. */
  ghost predicate Complete(tree: Json, names: seq<string>, chains: seq<seq<string>>)
  {
    && (forall i :: 0 <= i < |chains| ==> chains[i] != [] && chains[i][0] in names)
    && (forall chain :: chain != [] && chain[0] in names && Reach(tree, chain).Some? ==> chain in chains)
  }

  /** The visits are exactly those of the chains, one for each, in order. */
  ghost predicate Spells(tree: Json, names: seq<string>, chains: seq<seq<string>>, visits: seq<Visit>)
  {
    AllTell(tree, chains, visits) && InOrder(chains) && Complete(tree, names, chains)
  }

  function Prefixed(name: string, chains: seq<seq<string>>): (r: seq<seq<string>>)
    ensures |r| == |chains| && forall i :: 0 <= i < |r| ==> r[i] == [name] + chains[i]
  {
    seq(|chains|, i requires 0 <= i < |chains| => [name] + chains[i])
  }

  ghost predicate Strict(names: seq<string>)
  {
    forall i, j :: 0 <= i < j < |names| ==> Less(names[i], names[j])
  }

  lemma SortedStrict(tree: map<string, Json>)
    ensures Strict(SortedNames(tree)) && forall n :: n in SortedNames(tree) <==> n in tree
  {
    var names := SortedNames(tree);
    LessOrder();
    SortSorted(AnyOrder(tree.Keys), Less);
    forall i, j | 0 <= i < j < |names| ensures Less(names[i], names[j]) {
      if names[i] == names[j] { TwoCopies(names, i, j); }
      LessTotal(names[i], names[j]);
    }
    forall n ensures n in names <==> n in tree {
      assert n in names <==> n in multiset(names);
    }
  }

  lemma PrefixBefore(name: string, a: seq<string>, b: seq<string>)
    requires ChainBefore(a, b)
    ensures ChainBefore([name] + a, [name] + b)
  {
    assert ([name] + a)[1..] == a && ([name] + b)[1..] == b;
  }

  lemma ReachThrough(tree: Json, name: string, chain: seq<string>)
    requires tree.JObj? && name in tree.fields && chain != []
    ensures var node := tree.fields[name];
            Reach(tree, [name] + chain) ==
            if node.JObj? && "dependencies" in node.fields then Reach(node.fields["dependencies"], chain) else None
    ensures Reach(tree, [name]) == Some(tree.fields[name])
  {
    assert ([name] + chain)[1..] == chain;
  }

  lemma HeadTells(tree: Json, name: string)
    requires tree.JObj? && name in tree.fields
    ensures Tells(tree, [name], Below(name, tree.fields[name])[0])
  {
    assert Reach(tree, [name]) == Some(tree.fields[name]);
  }

  lemma ChildTells(tree: Json, name: string, child: seq<string>, v: Visit)
    requires tree.JObj? && name in tree.fields && tree.fields[name].JObj? && "dependencies" in tree.fields[name].fields
    requires Tells(tree.fields[name].fields["dependencies"], child, v)
    ensures Tells(tree, [name] + child, v)
  {
    ReachThrough(tree, name, child);
    assert ([name] + child)[|child|] == child[|child| - 1];
  }

  lemma ChildrenTell(tree: Json, name: string, children: seq<seq<string>>, visits: seq<Visit>)
    requires tree.JObj? && name in tree.fields && tree.fields[name].JObj? && "dependencies" in tree.fields[name].fields
    requires AllTell(tree.fields[name].fields["dependencies"], children, visits)
    ensures AllTell(tree, Prefixed(name, children), visits)
  {
    forall i | 0 <= i < |children| ensures Tells(tree, Prefixed(name, children)[i], visits[i]) {
      ChildTells(tree, name, children[i], visits[i]);
    }
  }

  lemma HeadTell(tree: Json, name: string, v: Visit, chains: seq<seq<string>>, visits: seq<Visit>)
    requires Tells(tree, [name], v) && AllTell(tree, chains, visits)
    ensures AllTell(tree, [[name]] + chains, [v] + visits)
  {
  }

  /** One name without anything below it. */
  lemma LeafSpelled(tree: Json, name: string) returns (chains: seq<seq<string>>)
    requires tree.JObj? && name in tree.fields
    requires var node := tree.fields[name]; !node.JObj? || "dependencies" !in node.fields
    ensures Spells(tree, [name], chains, Below(name, tree.fields[name]))
  {
    chains := [[name]] + Prefixed(name, []);
    HeadTells(tree, name);
    BelowOrder(name, []);
    BelowComplete(tree, name, []);
    assert |Below(name, tree.fields[name])| == 1;
  }

  /** One name and everything below it. */
  lemma BelowSpelled(tree: Json, name: string) returns (chains: seq<seq<string>>)
    requires tree.JObj? && name in tree.fields
    ensures Spells(tree, [name], chains, Below(name, tree.fields[name]))
    decreases tree.fields[name], 3, 0
  {
    var node := tree.fields[name];
    if node.JObj? && "dependencies" in node.fields {
      var deps := node.fields["dependencies"];
      var children := WalkSpelled(deps);
      chains := [[name]] + Prefixed(name, children);
      HeadTells(tree, name);
      ChildrenTell(tree, name, children, AllVisits(deps));
      HeadTell(tree, name, Below(name, node)[0], Prefixed(name, children), AllVisits(deps));
      BelowOrder(name, children);
      BelowComplete(tree, name, children);
    } else {
      chains := LeafSpelled(tree, name);
    }
  }

  lemma BelowOrder(name: string, children: seq<seq<string>>)
    requires InOrder(children) && forall i :: 0 <= i < |children| ==> children[i] != []
    ensures InOrder([[name]] + Prefixed(name, children))
  {
    var chains := [[name]] + Prefixed(name, children);
    forall i, j | 0 <= i < j < |chains| ensures ChainBefore(chains[i], chains[j]) {
      if i == 0 {
        assert chains[j] == [name] + children[j - 1];
        assert ([name] + children[j - 1])[1..] == children[j - 1] && [name][1..] == [];
      } else {
        PrefixBefore(name, children[i - 1], children[j - 1]);
      }
    }
  }

  lemma BelowComplete(tree: Json, name: string, children: seq<seq<string>>)
    requires tree.JObj? && name in tree.fields
    requires var node := tree.fields[name];
             if node.JObj? && "dependencies" in node.fields
             then forall chain :: chain != [] && Reach(node.fields["dependencies"], chain).Some? ==> chain in children
             else children == []
    ensures Complete(tree, [name], [[name]] + Prefixed(name, children))
  {
    var chains := [[name]] + Prefixed(name, children);
    forall chain | chain != [] && chain[0] in [name] && Reach(tree, chain).Some? ensures chain in chains {
      if |chain| == 1 {
        assert chain == chains[0];
      } else {
        assert chain == [name] + chain[1..];
        ReachThrough(tree, name, chain[1..]);
        var i :| 0 <= i < |children| && children[i] == chain[1..];
        assert chains[i + 1] == chain;
      }
    }
  }

  lemma JoinTell(tree: Json, a: seq<seq<string>>, x: seq<Visit>, b: seq<seq<string>>, y: seq<Visit>)
    requires AllTell(tree, a, x) && AllTell(tree, b, y)
    ensures AllTell(tree, a + b, x + y)
  {
  }

  lemma JoinComplete(tree: Json, name: string, names: seq<string>, a: seq<seq<string>>, b: seq<seq<string>>)
    requires Complete(tree, [name], a) && Complete(tree, names, b)
    ensures Complete(tree, [name] + names, a + b)
  {
    forall chain | chain != [] && chain[0] in [name] + names && Reach(tree, chain).Some? ensures chain in a + b {
      assert chain[0] in [name] || chain[0] in names;
    }
  }

  lemma NamesSpelled(tree: Json, names: seq<string>) returns (chains: seq<seq<string>>)
    requires tree.JObj? && Strict(names) && forall n :: n in names ==> n in tree.fields
    ensures Spells(tree, names, chains, Visits(tree, names))
    decreases tree, 1, |names|
  {
    chains := [];
    if names != [] {
      var name, rest := names[0], names[1..];
      var first := BelowSpelled(tree, name);
      var others := NamesSpelled(tree, rest);
      chains := first + others;
      JoinTell(tree, first, Below(name, tree.fields[name]), others, Visits(tree, rest));
      JoinOrder(name, rest, first, others);
      JoinComplete(tree, name, rest, first, others);
      assert [name] + rest == names;
    }
  }

  lemma JoinOrder(name: string, names: seq<string>, first: seq<seq<string>>, rest: seq<seq<string>>)
    requires InOrder(first) && InOrder(rest) && forall n :: n in names ==> Less(name, n)
    requires forall i :: 0 <= i < |first| ==> first[i] != [] && first[i][0] == name
    requires forall i :: 0 <= i < |rest| ==> rest[i] != [] && rest[i][0] in names
    ensures InOrder(first + rest)
  {
    LessIrreflexive(name);
  }

  /** What the npm walk meets, for every tree: the chains of names that lead somewhere, each once,
      a package before what lies below it and siblings with all below them in name order; and
      for every chain that ends in an object the package of its last name and stated version. */
  lemma WalkSpelled(tree: Json) returns (chains: seq<seq<string>>)
    ensures AllTell(tree, chains, AllVisits(tree)) && InOrder(chains)
    ensures forall chain :: chain in chains <==> chain != [] && Reach(tree, chain).Some?
    decreases tree, 2, 0
  {
    chains := [];
    if tree.JObj? {
      SortedStrict(tree.fields);
      chains := NamesSpelled(tree, SortedNames(tree.fields));
    }
  }

  /** A package is met exactly when a chain of names leads to an object that states its version. */
  lemma PackageMet(tree: Json, e: Entry)
    ensures Package(e) in AllVisits(tree) <==>
            exists chain :: chain != [] && Reach(tree, chain).Some? && Reach(tree, chain).value.JObj?
                            && chain[|chain| - 1] == e.name && StatesVersion(Reach(tree, chain).value.fields, e.version)
  {
    var chains := WalkSpelled(tree);
    var visits := AllVisits(tree);
    if Package(e) in visits {
      var i :| 0 <= i < |visits| && visits[i] == Package(e);
      assert chains[i] in chains;
    }
    forall chain | chain != [] && Reach(tree, chain).Some? && Reach(tree, chain).value.JObj?
                   && chain[|chain| - 1] == e.name && StatesVersion(Reach(tree, chain).value.fields, e.version)
      ensures Package(e) in visits
    {
      assert chain in chains;
      var i :| 0 <= i < |chains| && chains[i] == chain;
      assert visits[i] == Package(e);
    }
  }

  function Packages(visits: seq<Visit>): (items: seq<Entry>)
  {
    if visits == [] then []
    else
      var items, v := Packages(visits[..|visits| - 1]), visits[|visits| - 1];
      if v.Package? then items + [v.e] else items
  }

  /** What one visit does to the collection. */
  function Visited(r: Inventory, v: Visit, max: nat): (r': Inventory)
  {
    if r.truncated then r
    else if |r.out| >= max then r.(truncated := true)
    else if v.Package? && Key(NODE, v.e) !in Keys(NODE, r.out) then r.(out := r.out + [v.e])
    else r
  }

  function Fold(r: Inventory, visits: seq<Visit>, max: nat): (r': Inventory)
  {
    if visits == [] then r else Visited(Fold(r, visits[..|visits| - 1], max), visits[|visits| - 1], max)
  }

  lemma {:induction false} FoldConcat(r: Inventory, a: seq<Visit>, b: seq<Visit>, max: nat)
    ensures Fold(r, a + b, max) == Fold(Fold(r, a, max), b, max)
  {
    if b == [] {
      assert a + b == a;
    } else {
      assert (a + b)[..|a + b| - 1] == a + b[..|b| - 1];
      FoldConcat(r, a, b[..|b| - 1], max);
    }
  }

  lemma {:induction false} FoldStopped(r: Inventory, visits: seq<Visit>, max: nat)
    requires r.truncated
    ensures Fold(r, visits, max) == r
  {
    if visits != [] { FoldStopped(r, visits[..|visits| - 1], max); }
  }

  lemma FoldFirst(r: Inventory, v: Visit, rest: seq<Visit>, max: nat)
    ensures Fold(r, [v] + rest, max) == Fold(Visited(r, v, max), rest, max)
  {
    FoldConcat(r, [v], rest, max);
    assert [v][..0] == [];
    assert Fold(r, [v][..0], max) == r;
  }

  lemma FoldFull(r: Inventory, visits: seq<Visit>, max: nat)
    requires !r.truncated && |r.out| >= max && visits != []
    ensures Fold(r, visits, max) == r.(truncated := true)
  {
    assert visits == [visits[0]] + visits[1..];
    FoldFirst(r, visits[0], visits[1..], max);
    FoldStopped(r.(truncated := true), visits[1..], max);
  }

  /** The walk is truncated exactly when some name is met after max distinct packages were found.
      Untruncated it holds all distinct packages in pre-order; truncated it holds the first max. */
  lemma {:induction false} WalkExact(visits: seq<Visit>, max: nat)
    ensures var r, d := Fold(Inventory([], false), visits, max), Distinct(NODE, Packages(visits));
            && (r.truncated <==> visits != [] && |Distinct(NODE, Packages(visits[..|visits| - 1]))| >= max)
            && (!r.truncated ==> r.out == d && |d| <= max)
            && (r.truncated ==> |d| >= max && r.out == d[..max])
  {
    if visits != [] {
      var front, v := visits[..|visits| - 1], visits[|visits| - 1];
      WalkExact(front, max);
      var p := Packages(front);
      DistinctKeys(NODE, p);
      if v.Package? {
        DistinctAppend(NODE, p, v.e);
        DistinctPrefix(NODE, p, [v.e]);
      }
    }
  }

  /** The payload {"a": {"version": "1"}, "b": null}. */
  const LEAF := JObj(map["version" := JStr("1")])
  const ALARM := JObj(map["a" := LEAF, "b" := JNull])

  lemma AlarmNames()
    ensures SortedNames(ALARM.fields) == ["a", "b"]
  {
    var names := ["a", "b"];
    assert ALARM.fields.Keys == {"a", "b"};
    assert multiset(names) == multiset(ALARM.fields.Keys);
    assert Less("a", "b") && !Less("b", "a");
    assert Sorted(names, Less);
    LessOrder();
    SortSorted(AnyOrder(ALARM.fields.Keys), Less);
    LessSeparates(names);
    SortedUnique(names, SortedNames(ALARM.fields), Less);
  }

  lemma TwoVisits(tree: Json, a: string, b: string)
    requires tree.JObj? && a in tree.fields && b in tree.fields
    ensures Visits(tree, [a, b]) == Below(a, tree.fields[a]) + Below(b, tree.fields[b])
  {
    assert [a, b][1..] == [b] && [b][1..] == [];
    assert Visits(tree, [b]) == Below(b, tree.fields[b]) + Visits(tree, []);
  }

  lemma LeafBelow(name: string, node: Json)
    requires node.JObj? && "dependencies" !in node.fields
    ensures Below(name, node) == [Package(Entry(name, NodeVersion(node.fields)))]
  {
  }

  lemma LeafVersion()
    ensures LEAF.JObj? && "dependencies" !in LEAF.fields && NodeVersion(LEAF.fields) == "1"
  {
    TrimExact("1");
    assert "dependencies"[0] == 'd' && "version"[0] == 'v';
  }

  lemma AlarmVisits()
    ensures AllVisits(ALARM) == [Package(Entry("a", "1")), Other]
  {
    var tree, leaf := ALARM, LEAF;
    AlarmNames();
    LeafVersion();
    assert tree.JObj? && tree.fields["a"] == leaf && tree.fields["b"] == JNull;
    TwoVisits(tree, "a", "b");
    LeafBelow("a", leaf);
  }

  lemma OnePackage(e: Entry)
    ensures var visits := [Package(e), Other];
            Packages(visits) == Packages(visits[..1]) == [e] && Distinct(NODE, [e]) == [e]
  {
    var visits := [Package(e), Other];
    assert visits[..1] == [Package(e)] && visits[..1][..0] == [] && [e][..0] == [];
    assert Packages(visits[..1]) == [e];
  }

  /** Unlike a line parser, the walk can report truncation when no package is left: with a maximum
      of 1 it does on this payload, which holds one package. */
  lemma TruncationAlarm()
    ensures Fold(Inventory([], false), AllVisits(ALARM), 1).truncated
    ensures |Distinct(NODE, Packages(AllVisits(ALARM)))| == 1
  {
    AlarmVisits();
    OnePackage(Entry("a", "1"));
    WalkExact([Package(Entry("a", "1")), Other], 1);
  }

  /** The shared state of the recursive walk. */
  class NodeWalk {
    const max: nat
    var seen: set<string>
    var out: seq<Entry>
    var truncated: bool

    ghost predicate Valid()
      reads this
    {
      seen == Keys(NODE, out)
    }

    ghost function State(): (r: Inventory)
      reads this
    {
      Inventory(out, truncated)
    }

    constructor (max: nat)
      ensures Valid() && State() == Inventory([], false) && this.max == max
    {
      this.max, seen, out, truncated := max, {}, [], false;
    }

    method AppendNodeDependencyEntry(name: string, node: map<string, Json>)
      requires Valid() && !truncated && |out| < max
      modifies this
      ensures Valid() && State() == Visited(old(State()), Package(Entry(name, NodeVersion(node))), max)
    {
      var e := Entry(name, NodeVersion(node));
      var key := Key(NODE, e);
      if key in seen { return; }
      seen := seen + {key};
      out := out + [e];
    }

    /** The walk below one tree folds its visits. */
    method Walk(tree: Json)
      requires Valid()
      modifies this
      ensures Valid() && State() == Fold(old(State()), AllVisits(tree), max)
      decreases tree, 2
    {
      if !tree.JObj? { return; }
      if truncated {
        FoldStopped(State(), AllVisits(tree), max);
        return;
      }
      var names := CollectNames(tree.fields);
      NamesExist(tree.fields, names);
      assert names[0..] == names;
      var i := 0;
      while i < |names|
        invariant 0 <= i <= |names| && Valid() && !truncated
        invariant Fold(State(), Visits(tree, names[i..]), max) == Fold(old(State()), AllVisits(tree), max)
      {
        ghost var before, rest := State(), Visits(tree, names[i + 1..]);
        assert names[i..][1..] == names[i + 1..] && names[i..][0] == names[i];
        var node := tree.fields[names[i]];
        assert Visits(tree, names[i..]) == Below(names[i], node) + rest;
        if |out| >= max {
          FoldFull(before, Below(names[i], node) + rest, max);
          truncated := true;
          return;
        }
        FoldConcat(before, Below(names[i], node), rest, max);
        WalkBelow(names[i], node);
        if truncated {
          FoldStopped(State(), rest, max);
          return;
        }
        i := i + 1;
      }
      assert names[i..] == [];
    }

    /** One round of the loop over the names. */
    method WalkBelow(name: string, node: Json)
      requires Valid() && !truncated && |out| < max
      modifies this
      ensures Valid() && State() == Fold(old(State()), Below(name, node), max)
      decreases node, 1
    {
      ghost var before := State();
      if !node.JObj? {
        FoldFirst(before, Other, [], max);
        return;
      }
      AppendNodeDependencyEntry(name, node.fields);
      ghost var rest := if "dependencies" in node.fields then AllVisits(node.fields["dependencies"]) else [];
      FoldFirst(before, Package(Entry(name, NodeVersion(node.fields))), rest, max);
      if "dependencies" in node.fields { Walk(node.fields["dependencies"]); }
    }
  }

  lemma NamesExist(tree: map<string, Json>, names: seq<string>)
    requires multiset(names) == multiset(tree.Keys)
    ensures forall i :: 0 <= i < |names| ==> names[i] in tree
  {
    forall i | 0 <= i < |names| ensures names[i] in tree { assert names[i] in multiset(names); }
  }

  /** parseNodeDependencyInventory: a prefix of the distinct packages in name-sorted pre-order,
      complete when not truncated and of exactly max entries when truncated. */
  method ParseNodeDependencyInventory(payload: map<string, Json>, max: nat) returns (out: seq<Entry>, truncated: bool)
    ensures var v := if "dependencies" in payload then AllVisits(payload["dependencies"]) else [];
            var d := Distinct(NODE, Packages(v));
            && (truncated <==> v != [] && |Distinct(NODE, Packages(v[..|v| - 1]))| >= max)
            && out <= d && (!truncated ==> out == d) && (truncated ==> |out| == max)
  {
    var walk := new NodeWalk(max);
    if "dependencies" in payload { walk.Walk(payload["dependencies"]); }
    out, truncated := walk.out, walk.truncated;
    WalkExact(if "dependencies" in payload then AllVisits(payload["dependencies"]) else [], max);
  }

  /** The names of one level, gathered in any order and sorted. */
  method CollectNames(tree: map<string, Json>) returns (names: seq<string>)
    ensures names == SortedNames(tree) && Sorted(names, Less)
  {
    names := [];
    var left := tree.Keys;
    while left != {}
      invariant left <= tree.Keys && multiset(names) + multiset(left) == multiset(tree.Keys)
    {
      var n :| n in left;
      assert multiset(left) == multiset(left - {n}) + multiset{n};
      names := names + [n];
      left := left - {n};
    }
    ghost var gathered := names;
    names := Sort(names, Less);
    LessOrder();
    SortSorted(gathered, Less);
    SortSorted(AnyOrder(tree.Keys), Less);
    LessSeparates(names);
    SortedUnique(names, SortedNames(tree), Less);
  }
}
