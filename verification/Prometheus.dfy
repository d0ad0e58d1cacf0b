/** The Prometheus text output (exposition format 0.0.4): label escaping, label blocks and
    cumulative histogram rows. */
module Prometheus {
  import opened GoStrings
  import opened Sorting

  // ---- Label values --------------------------------------------------------------------------

  function EscapeChar(c: char): (s: string)
  {
    if c == '\\' then "\\\\" else if c == '\"' then "\\\"" else if c == '\n' then "\\n" else [c]
  }

  /** escapePrometheusLabelValue: one pass over the characters. */
  function Escape(raw: string): (s: string)
  {
    if raw == "" then "" else EscapeChar(raw[0]) + Escape(raw[1..])
  }

  datatype Scanned = NoQuote | Value(v: string, rest: string)

  /** The length of the first, possibly escaped, character and the character itself. */
  function Width(s: string): (n: nat)
    requires s != ""
    ensures 1 <= n <= |s|
  {
    if s[0] == '\\' && |s| > 1 then 2 else 1
  }

  function Decoded(s: string): (c: char)
    requires s != ""
  {
    if Width(s) == 1 then s[0] else if s[1] == 'n' then '\n' else s[1]
  }

  function Prepend(c: char, r: Scanned): (r': Scanned)
  {
    match r case NoQuote => NoQuote case Value(v, rest) => Value([c] + v, rest)
  }

  /** The reader's side: undo escapes up to the first bare quote. */
  function Scan(s: string): (r: Scanned)
  {
    if s == "" then NoQuote
    else if s[0] == '\"' then Value("", s[1..])
    else Prepend(Decoded(s), Scan(s[Width(s)..]))
  }

  lemma ScanChar(c: char, t: string)
    ensures Scan(EscapeChar(c) + t) == Prepend(c, Scan(t))
  {
    var s := EscapeChar(c) + t;
    assert s[Width(s)..] == t && Decoded(s) == c;
  }

  lemma Associative(a: string, b: string, c: string)
    ensures (a + b) + c == a + (b + c)
  {
  }

  lemma {:induction false} ScanMany(raw: string, t: string, v: string, rest: string)
    requires Scan(t) == Value(v, rest)
    ensures Scan(Escape(raw) + t) == Value(raw + v, rest)
  {
    if raw == "" {
      assert Escape(raw) + t == t && raw + v == v;
    } else {
      ScanMany(raw[1..], t, v, rest);
      ScanChar(raw[0], Escape(raw[1..]) + t);
      Associative(EscapeChar(raw[0]), Escape(raw[1..]), t);
      Associative([raw[0]], raw[1..], v);
      assert raw == [raw[0]] + raw[1..];
    }
  }

  /** Whatever follows the closing quote, the reader recovers the raw value and stops there. */
  lemma ScanEscape(raw: string, rest: string)
    ensures Scan(Escape(raw) + ("\"" + rest)) == Value(raw, rest)
  {
    assert ("\"" + rest)[1..] == rest;
    ScanMany(raw, "\"" + rest, "", rest);
  }

  /** Backslashes only in the three escapes, and no bare quote or newline. */
  predicate Escaped(s: string)
  {
    s == ""
    || (if s[0] == '\\' then |s| > 1 && s[1] in ['\\', '\"', 'n'] && Escaped(s[2..])
        else s[0] != '\"' && s[0] != '\n' && Escaped(s[1..]))
  }

  lemma EscapedFirst(c: char, t: string)
    requires Escaped(t)
    ensures Escaped(EscapeChar(c) + t)
  {
    var e := EscapeChar(c);
    assert (e + t)[|e|..] == t;
  }

  lemma {:induction false} EscapeEscaped(raw: string)
    ensures Escaped(Escape(raw))
  {
    if raw != "" {
      EscapeEscaped(raw[1..]);
      EscapedFirst(raw[0], Escape(raw[1..]));
    }
  }

  lemma {:induction false} EscapedIsEscape(s: string) returns (raw: string)
    requires Escaped(s)
    ensures Escape(raw) == s
    decreases |s|
  {
    if s == "" {
      raw := "";
    } else if s[0] == '\\' {
      var tail := EscapedIsEscape(s[2..]);
      raw := [if s[1] == 'n' then '\n' else s[1]] + tail;
      assert raw[1..] == tail && s == [s[0], s[1]] + s[2..];
    } else {
      var tail := EscapedIsEscape(s[1..]);
      raw := [s[0]] + tail;
      assert raw[1..] == tail && s == [s[0]] + s[1..];
    }
  }

  /** Escaping produces exactly the texts without bare quote, newline or stray backslash. */
  lemma EscapeImage(s: string)
    ensures Escaped(s) <==> exists raw :: Escape(raw) == s
  {
    if Escaped(s) { var raw := EscapedIsEscape(s); }
    forall raw | Escape(raw) == s ensures Escaped(s) { EscapeEscaped(raw); }
  }

  // ---- Label blocks --------------------------------------------------------------------------

  datatype Label = Label(key: string, value: string)

  function Rank(key: string): (r: int)
  {
    if key == "tool" then 0 else if key in ["status", "reason", "task"] then 1 else if key == "le" then 99 else 10
  }

  predicate ByRank(a: Label, b: Label)
  {
    if Rank(a.key) != Rank(b.key) then Rank(a.key) < Rank(b.key) else Less(a.key, b.key)
  }

  /** First the tool, then reason, status and task, then all others, and the bucket bound last; by
      name where that leaves a choice. */
  lemma RankMeaning(a: Label, b: Label)
    ensures var second, third := ["reason", "status", "task"], (k: string) => k !in ["tool", "reason", "status", "task", "le"];
            && (a.key == "tool" != b.key ==> ByRank(a, b))
            && (a.key in second && b.key != "tool" && b.key !in second ==> ByRank(a, b))
            && (third(a.key) && b.key == "le" ==> ByRank(a, b))
            && ((a.key in second && b.key in second) || (third(a.key) && third(b.key)) ==> (ByRank(a, b) <==> Less(a.key, b.key)))
  {
    assert "tool"[0] == 't' && "le"[0] == 'l' && |"reason"| == 6 && |"task"| == 4 && "task"[1] == 'a' && "tool"[1] == 'o';
  }

  lemma ByRankOrder()
    ensures StrictOrder(ByRank)
  {
    forall a: Label ensures !ByRank(a, a) { LessIrreflexive(a.key); }
    forall a: Label, b: Label, c: Label | ByRank(a, b) && ByRank(b, c) ensures ByRank(a, c) {
      if Rank(a.key) == Rank(b.key) == Rank(c.key) { LessTransitive(a.key, b.key, c.key); }
    }
    forall a: Label, b: Label, c: Label | !ByRank(a, b) && !ByRank(b, c) ensures !ByRank(a, c) {
      if Rank(a.key) == Rank(b.key) == Rank(c.key) { NotLessTransitive(a.key, b.key, c.key); }
    }
  }

  function Pair(l: Label): (s: string)
  {
    l.key + (['='] + ("\"" + (Escape(l.value) + "\"")))
  }

  /** A label, the labels after it and the closing brace. */
  function Opened(labels: seq<Label>): (s: string)
    requires labels != []
    decreases |labels|, 0
  {
    Pair(labels[0]) + Tail(labels[1..])
  }

  function Tail(labels: seq<Label>): (s: string)
    ensures s != "" && s[0] == if labels == [] then '}' else ','
    decreases |labels|, 1
  {
    if labels == [] then "}" else "," + Opened(labels)
  }

  function Block(labels: seq<Label>): (s: string)
  {
    if labels == [] then "" else "{" + Opened(labels)
  }

  /** The text of each label. */
  function Texts(labels: seq<Label>): (r: seq<string>)
  {
    seq(|labels|, i requires 0 <= i < |labels| => labels[i].key + "=\"" + Escape(labels[i].value) + "\"")
  }

  lemma {:induction false} OpenedText(labels: seq<Label>)
    requires labels != []
    ensures Opened(labels) == Join(Texts(labels), ',') + "}"
    decreases |labels|
  {
    var texts := Texts(labels);
    assert Pair(labels[0]) == texts[0];
    if |labels| == 1 {
      assert labels[1..] == [];
    } else {
      OpenedText(labels[1..]);
      assert texts[1..] == Texts(labels[1..]);
      JoinText(texts[0], texts[1..]);
    }
  }

  lemma JoinText(first: string, rest: seq<string>)
    requires rest != []
    ensures first + ("," + (Join(rest, ',') + "}")) == Join([first] + rest, ',') + "}"
  {
    assert ([first] + rest)[1..] == rest;
  }

  /** What a block looks like: name="value" for each label, commas between, braces around. */
  lemma BlockText(labels: seq<Label>)
    ensures Block(labels) == if labels == [] then "" else "{" + (Join(Texts(labels), ',') + "}")
  {
    if labels != [] { OpenedText(labels); }
  }

  /** Label names of the format hold no equals sign. */
  predicate Named(labels: seq<Label>)
  {
    forall i :: 0 <= i < |labels| ==> '=' !in labels[i].key
  }

  /** What follows the key of a label. */
  function AfterKey(value: string, x: string): (s: string)
  {
    "\"" + (Escape(value) + ("\"" + x))
  }

  lemma AfterKeyInjective(v: string, x: string, w: string, y: string)
    requires AfterKey(v, x) == AfterKey(w, y)
    ensures v == w && x == y
  {
    assert AfterKey(v, x)[1..] == Escape(v) + ("\"" + x) && AfterKey(w, y)[1..] == Escape(w) + ("\"" + y);
    ScanEscape(v, x);
    ScanEscape(w, y);
  }

  lemma PairInjective(a: Label, x: string, b: Label, y: string)
    requires '=' !in a.key && '=' !in b.key && Pair(a) + x == Pair(b) + y
    ensures a == b && x == y
  {
    assert Pair(a) + x == a.key + ['='] + AfterKey(a.value, x);
    assert Pair(b) + y == b.key + ['='] + AfterKey(b.value, y);
    CutAt(a.key, '=', AfterKey(a.value, x), b.key, AfterKey(b.value, y));
    AfterKeyInjective(a.value, x, b.value, y);
  }

  lemma {:induction false} OpenedInjective(a: seq<Label>, b: seq<Label>)
    requires a != [] && b != [] && Named(a) && Named(b) && Opened(a) == Opened(b)
    ensures a == b
    decreases |a|
  {
    PairInjective(a[0], Tail(a[1..]), b[0], Tail(b[1..]));
    if |a| > 1 && |b| > 1 {
      assert Tail(a[1..])[1..] == Opened(a[1..]) && Tail(b[1..])[1..] == Opened(b[1..]);
      OpenedInjective(a[1..], b[1..]);
    }
    assert a == [a[0]] + a[1..] && b == [b[0]] + b[1..];
  }

  /** Printed blocks determine the printed label list. */
  lemma BlockInjective(a: seq<Label>, b: seq<Label>)
    requires Named(a) && Named(b) && Block(a) == Block(b)
    ensures a == b
  {
    if a != [] && b != [] {
      assert Block(a)[1..] == Opened(a) && Block(b)[1..] == Opened(b);
      OpenedInjective(a, b);
    }
  }

  ghost predicate DistinctKeys(labels: seq<Label>)
  {
    forall a, b :: a in labels && b in labels && a.key == b.key ==> a == b
  }

  lemma KeysSeparate(labels: seq<Label>)
    requires DistinctKeys(labels)
    ensures Separates(labels, ByRank)
  {
    forall a, b | a in labels && b in labels && !ByRank(a, b) && !ByRank(b, a) ensures a == b {
      LessTotal(a.key, b.key);
    }
  }

  /** The block of a set of labels is the same in whatever order they come, and two sets of
      labels print the same block only if they are equal. */
  lemma BlockOfSet(a: seq<Label>, b: seq<Label>)
    requires Named(a) && Named(b) && DistinctKeys(a) && DistinctKeys(b)
    ensures Block(Sort(a, ByRank)) == Block(Sort(b, ByRank)) <==> multiset(a) == multiset(b)
  {
    var x, y := Sort(a, ByRank), Sort(b, ByRank);
    ByRankOrder();
    SortSorted(a, ByRank);
    SortSorted(b, ByRank);
    SameMembers(x, a);
    SameMembers(y, b);
    assert Named(x) by { forall i | 0 <= i < |x| ensures '=' !in x[i].key { assert x[i] in a; } }
    assert Named(y) by { forall i | 0 <= i < |y| ensures '=' !in y[i].key { assert y[i] in b; } }
    if Block(x) == Block(y) { BlockInjective(x, y); }
    if multiset(a) == multiset(b) {
      KeysSeparate(x);
      SortedUnique(x, y, ByRank);
    }
  }

  /** A bucket bound is printed after every other label. */
  lemma BoundIsLast(labels: seq<Label>, i: nat, j: nat)
    requires Sorted(labels, ByRank) && i < |labels| && j < |labels| && labels[i].key == "le" != labels[j].key
    ensures j < i
  {
    assert ByRank(labels[j], labels[i]);
  }

  /** prometheusLabelBlock sorts and writes the labels one after the other. */
  method PrometheusLabelBlock(attrs: seq<Label>, extras: seq<Label>) returns (r: string)
    ensures r == Block(Sort(attrs + extras, ByRank))
  {
    var labels := attrs + extras;
    if |labels| == 0 { return ""; }
    labels := Sort(labels, ByRank);
    SameMembers(labels, attrs + extras);
    r := WriteLabels(labels);
  }

  method WriteLabels(labels: seq<Label>) returns (r: string)
    requires labels != []
    ensures r == Block(labels)
  {
    r := "{" + Pair(labels[0]);
    var i := 1;
    while i < |labels|
      invariant 1 <= i <= |labels| && r + Tail(labels[i..]) == Block(labels)
    {
      ghost var rest := Tail(labels[i + 1..]);
      assert labels[i..][1..] == labels[i + 1..];
      assert Tail(labels[i..]) == "," + (Pair(labels[i]) + rest);
      assert r + Tail(labels[i..]) == (r + "," + Pair(labels[i])) + rest;
      r := r + "," + Pair(labels[i]);
      i := i + 1;
    }
    r := r + "}";
  }

  // ---- Histogram rows ------------------------------------------------------------------------

  const WORD := 0x1_0000_0000_0000_0000

  type Counter = x: nat | x < WORD

  /** Exact sum of the first n buckets, as many as there are. */
  function First(counts: seq<Counter>, n: nat): (s: nat)
  {
    if n == 0 then 0 else First(counts, n - 1) + if n <= |counts| then counts[n - 1] else 0
  }

  lemma {:induction false} FirstGrows(counts: seq<Counter>, m: nat, n: nat)
    requires m <= n
    ensures First(counts, m) <= First(counts, n)
  {
    if m < n { FirstGrows(counts, m, n - 1); }
  }

  lemma AddWrapped(a: nat, b: nat)
    ensures (a % WORD + b) % WORD == (a + b) % WORD
  {
  }

  /** One point's bucket rows: one per bound and the +Inf row, on wrapping 64-bit counters. */
  method HistogramRows(bounds: nat, counts: seq<Counter>) returns (rows: seq<Counter>)
    ensures |rows| == bounds + 1
    ensures forall i :: 0 <= i < |rows| ==> rows[i] == First(counts, i + 1) % WORD
  {
    rows := [];
    var cumulative: Counter := 0;
    var idx := 0;
    while idx < bounds
      invariant 0 <= idx <= bounds && |rows| == idx && cumulative == First(counts, idx) % WORD
      invariant forall i :: 0 <= i < idx ==> rows[i] == First(counts, i + 1) % WORD
    {
      if idx < |counts| {
        AddWrapped(First(counts, idx), counts[idx]);
        cumulative := (cumulative + counts[idx]) % WORD;
      }
      rows := rows + [cumulative];
      idx := idx + 1;
    }
    if |counts| > bounds {
      AddWrapped(First(counts, bounds), counts[bounds]);
      cumulative := (cumulative + counts[bounds]) % WORD;
    }
    rows := rows + [cumulative];
  }

  ghost predicate Rising(rows: seq<Counter>)
  {
    forall i, j :: 0 <= i <= j < |rows| ==> rows[i] <= rows[j]
  }

  lemma {:induction false} RisingFits(counts: seq<Counter>, rows: seq<Counter>, n: nat)
    requires Rising(rows) && n <= |rows| && forall i :: 0 <= i < |rows| ==> rows[i] == First(counts, i + 1) % WORD
    ensures First(counts, n) < WORD
  {
    if n > 0 {
      RisingFits(counts, rows, n - 1);
      assert First(counts, n) < First(counts, n - 1) + WORD;
      if n > 1 {
        assert rows[n - 2] <= rows[n - 1];
        assert rows[n - 2] == First(counts, n - 1);
      }
    }
  }

  /** The rows never fall exactly when the true total they count fits the 64-bit counter. */
  lemma RowsRiseExact(counts: seq<Counter>, rows: seq<Counter>)
    requires rows != [] && forall i :: 0 <= i < |rows| ==> rows[i] == First(counts, i + 1) % WORD
    ensures Rising(rows) <==> First(counts, |rows|) < WORD
  {
    if Rising(rows) { RisingFits(counts, rows, |rows|); }
    if First(counts, |rows|) < WORD {
      forall i, j | 0 <= i <= j < |rows| ensures rows[i] <= rows[j] {
        FirstGrows(counts, i + 1, j + 1);
        FirstGrows(counts, j + 1, |rows|);
      }
    }
  }

  /** The +Inf row is the sum of all buckets exactly when that sum fits the counter and nothing
      lies beyond the single overflow bucket. */
  lemma InfinityRowExact(bounds: nat, counts: seq<Counter>, last: Counter)
    requires last == First(counts, bounds + 1) % WORD
    ensures last == First(counts, |counts|) <==>
            First(counts, |counts|) < WORD && forall i :: bounds + 1 <= i < |counts| ==> counts[i] == 0
  {
    var n := bounds + 1;
    if |counts| <= n {
      FirstStops(counts, n);
    } else {
      FirstGrows(counts, n, |counts|);
      BeyondSum(counts, n, |counts|);
    }
  }

  lemma {:induction false} FirstStops(counts: seq<Counter>, n: nat)
    requires |counts| <= n
    ensures First(counts, n) == First(counts, |counts|)
  {
    if |counts| < n { FirstStops(counts, n - 1); }
  }

  lemma {:induction false} BeyondSum(counts: seq<Counter>, n: nat, m: nat)
    requires n <= m <= |counts|
    ensures First(counts, n) == First(counts, m) <==> forall i :: n <= i < m ==> counts[i] == 0
  {
    if n < m {
      BeyondSum(counts, n, m - 1);
      FirstGrows(counts, n, m - 1);
    }
  }
}
