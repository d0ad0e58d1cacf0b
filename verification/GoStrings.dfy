/** The parts of Go's `strings` package that the runtime relies on, over sequences of
    Unicode characters: white-space trimming, splitting and joining on one separator
    character, prefixes, lower-casing through a given character map, and byte order. */
module GoStrings {

  /** `unicode.IsSpace`. */
  predicate IsSpace(c: char)
  {
    var n := c as int;
    (9 <= n <= 13) || n == 0x20 || n == 0x85 || n == 0xA0 || n == 0x1680 ||
    (0x2000 <= n <= 0x200A) || n == 0x2028 || n == 0x2029 || n == 0x202F || n == 0x205F || n == 0x3000
  }

  function TrimLeft(s: string): (r: string)
  {
    if s != "" && IsSpace(s[0]) then TrimLeft(s[1..]) else s
  }

  function TrimRight(s: string): (r: string)
  {
    if s != "" && IsSpace(s[|s| - 1]) then TrimRight(s[..|s| - 1]) else s
  }

  /** `strings.TrimSpace`. */
  function Trim(s: string): (r: string)
  {
    TrimRight(TrimLeft(s))
  }

  /** The text is empty or has no white space at either end. */
  predicate Trimmed(s: string)
  {
    s == "" || (!IsSpace(s[0]) && !IsSpace(s[|s| - 1]))
  }

  lemma {:induction false} TrimLeftEnds(s: string)
    ensures var r := TrimLeft(s); r == "" || !IsSpace(r[0])
  {
    if s != "" && IsSpace(s[0]) { TrimLeftEnds(s[1..]); }
  }

  lemma {:induction false} TrimRightEnds(s: string)
    requires s == "" || !IsSpace(s[0])
    ensures Trimmed(TrimRight(s))
  {
    if s != "" && IsSpace(s[|s| - 1]) { TrimRightEnds(s[..|s| - 1]); }
  }

  /** Trimming yields exactly the trimmed texts, and leaves those alone. */
  lemma TrimExact(s: string)
    ensures Trimmed(Trim(s)) && (Trim(s) == s <==> Trimmed(s))
  {
    TrimLeftEnds(s);
    TrimRightEnds(TrimLeft(s));
  }

  predicate Spaces(s: string)
  {
    forall i :: 0 <= i < |s| ==> IsSpace(s[i])
  }

  lemma {:induction false} TrimLeftCuts(s: string) returns (a: string)
    ensures s == a + TrimLeft(s) && Spaces(a)
  {
    a := "";
    if s != "" && IsSpace(s[0]) {
      var rest := TrimLeftCuts(s[1..]);
      a := [s[0]] + rest;
    }
  }

  lemma {:induction false} TrimRightCuts(s: string) returns (b: string)
    ensures s == TrimRight(s) + b && Spaces(b)
  {
    b := "";
    if s != "" && IsSpace(s[|s| - 1]) {
      var rest := TrimRightCuts(s[..|s| - 1]);
      b := rest + [s[|s| - 1]];
    }
  }

  /** Trimming takes white space off both ends and nothing else. */
  lemma TrimMeaning(s: string)
    ensures exists a, b :: s == a + Trim(s) + b && Spaces(a) && Spaces(b)
    ensures Trimmed(Trim(s))
  {
    TrimExact(s);
    var a := TrimLeftCuts(s);
    var b := TrimRightCuts(TrimLeft(s));
    assert s == a + Trim(s) + b;
  }

  /** The longest prefix without white space. */
  function Word(s: string): (w: string)
    ensures |w| <= |s|
    ensures s != "" && !IsSpace(s[0]) ==> w != ""
  {
    if s == "" || IsSpace(s[0]) then "" else [s[0]] + Word(s[1..])
  }

  /** `strings.Fields`. */
  function Fields(s: string): (words: seq<string>)
    decreases |s|
  {
    if s == "" then []
    else if IsSpace(s[0]) then Fields(s[1..])
    else [Word(s)] + Fields(s[|Word(s)|..])
  }

  predicate SpaceFree(s: string)
  {
    forall i :: 0 <= i < |s| ==> !IsSpace(s[i])
  }

  lemma {:induction false} WordMeaning(s: string)
    ensures Word(s) <= s && SpaceFree(Word(s)) && (|Word(s)| < |s| ==> IsSpace(s[|Word(s)|]))
  {
    if s != "" && !IsSpace(s[0]) { WordMeaning(s[1..]); }
  }

  /** Words are what lies between white space: white space in front is skipped, and a word ends
      where white space begins. */
  lemma FieldsMeaning(gap: string, word: string, rest: string)
    requires Spaces(gap) && SpaceFree(word) && (rest == "" || IsSpace(rest[0]))
    ensures Fields(gap + (word + rest)) == (if word == "" then [] else [word]) + Fields(rest)
  {
    SkipSpaces(gap, word + rest);
    if word == "" {
      assert "" + rest == rest && [] + Fields(rest) == Fields(rest);
    } else {
      WordTaken(word, rest);
      assert (word + rest)[|word|..] == rest;
    }
  }

  lemma {:induction false} SkipSpaces(gap: string, s: string)
    requires Spaces(gap)
    ensures Fields(gap + s) == Fields(s)
  {
    if gap == "" {
      assert gap + s == s;
    } else {
      assert (gap + s)[1..] == gap[1..] + s;
      SkipSpaces(gap[1..], s);
    }
  }

  lemma {:induction false} WordTaken(word: string, rest: string)
    requires SpaceFree(word) && (rest == "" || IsSpace(rest[0]))
    ensures Word(word + rest) == word
  {
    if word == "" {
      assert word + rest == rest;
    } else {
      assert (word + rest)[1..] == word[1..] + rest;
      WordTaken(word[1..], rest);
    }
  }

  predicate HasPrefix(s: string, p: string)
  {
    p <= s
  }

  predicate HasSuffix(s: string, p: string)
  {
    |p| <= |s| && s[|s| - |p|..] == p
  }

  /** `strings.ToLower`, for a given character mapping. */
  function ToLower(s: string, lower: char -> char): (r: string)
  {
    seq(|s|, i requires 0 <= i < |s| => lower(s[i]))
  }

  /** `strings.Split` with a one-character separator. */
  function Split(s: string, c: char): (parts: seq<string>)
    ensures parts != []
  {
    if s == "" then [""]
    else
      var rest := Split(s[1..], c);
      if s[0] == c then [""] + rest else [[s[0]] + rest[0]] + rest[1..]
  }

  /** `strings.Join` with a one-character separator. */
  function Join(parts: seq<string>, c: char): (s: string)
  {
    if parts == [] then ""
    else if |parts| == 1 then parts[0]
    else parts[0] + [c] + Join(parts[1..], c)
  }

  /** No part holds the separator. */
  predicate Free(parts: seq<string>, c: char)
  {
    forall i :: 0 <= i < |parts| ==> c !in parts[i]
  }

  lemma {:induction false} SplitFree(s: string, c: char)
    ensures Free(Split(s, c), c)
  {
    if s != "" { SplitFree(s[1..], c); }
  }

  lemma JoinExtend(c: char, d: char, rest: seq<string>)
    requires rest != []
    ensures Join([[d] + rest[0]] + rest[1..], c) == [d] + Join(rest, c)
  {
    var parts := [[d] + rest[0]] + rest[1..];
    assert parts[1..] == rest[1..];
  }

  lemma JoinEmpty(c: char, rest: seq<string>)
    requires rest != []
    ensures Join([""] + rest, c) == [c] + Join(rest, c)
  {
    assert ([""] + rest)[1..] == rest;
  }

  /** Joining undoes splitting, for every string. */
  lemma {:induction false} JoinSplit(s: string, c: char)
    ensures Join(Split(s, c), c) == s
  {
    if s != "" {
      JoinSplit(s[1..], c);
      if s[0] == c { JoinEmpty(c, Split(s[1..], c)); } else { JoinExtend(c, s[0], Split(s[1..], c)); }
      assert s == [s[0]] + s[1..];
    }
  }

  /** A separator splits the string into the parts on its left and the parts on its right. */
  lemma {:induction false} SplitAt(a: string, c: char, b: string)
    ensures Split(a + [c] + b, c) == Split(a, c) + Split(b, c)
  {
    var s := a + [c] + b;
    if a == "" {
      assert s[1..] == b;
    } else {
      assert s[1..] == a[1..] + [c] + b;
      SplitAt(a[1..], c, b);
    }
  }

  lemma {:induction false} SplitNone(s: string, c: char)
    requires c !in s
    ensures Split(s, c) == [s]
  {
    if s != "" {
      SplitNone(s[1..], c);
      assert [s[0]] + s[1..] == s;
    }
  }

  /** Splitting undoes joining, for separator-free parts. */
  lemma {:induction false} SplitJoin(parts: seq<string>, c: char)
    requires parts != [] && Free(parts, c)
    ensures Split(Join(parts, c), c) == parts
  {
    SplitNone(parts[0], c);
    if |parts| > 1 {
      SplitJoin(parts[1..], c);
      SplitAt(parts[0], c, Join(parts[1..], c));
      assert parts == [parts[0]] + parts[1..];
    }
  }

  lemma {:induction false} JoinConcat(a: seq<string>, b: seq<string>, c: char)
    requires a != [] && b != []
    ensures Join(a + b, c) == Join(a, c) + [c] + Join(b, c)
  {
    if |a| == 1 {
      assert (a + b)[1..] == b;
    } else {
      assert (a + b)[1..] == a[1..] + b;
      JoinConcat(a[1..], b, c);
    }
  }

  /** The first separator cuts a sequence in one way only. */
  lemma {:induction false} CutAt<T>(a: seq<T>, c: T, b: seq<T>, x: seq<T>, y: seq<T>)
    requires c !in a && c !in x && a + [c] + b == x + [c] + y
    ensures a == x && b == y
  {
    var s := a + [c] + b;
    assert s[0] == if a == [] then c else a[0];
    assert s[0] == if x == [] then c else x[0];
    if a == [] {
      assert b == s[1..] == y;
    } else {
      assert s[1..] == a[1..] + [c] + b == x[1..] + [c] + y;
      CutAt(a[1..], c, b, x[1..], y);
      assert a == [a[0]] + a[1..] && x == [x[0]] + x[1..];
    }
  }

  lemma SameTail<T>(p: seq<T>, a: seq<T>, b: seq<T>)
    requires p + a == p + b
    ensures a == b
  {
    assert a == (p + a)[|p|..] && b == (p + b)[|p|..];
  }

  /** Go compares strings by bytes; on UTF-8 text that is the order of the characters. */
  predicate Less(a: string, b: string)
  {
    if b == "" then false
    else if a == "" then true
    else if a[0] != b[0] then a[0] < b[0]
    else Less(a[1..], b[1..])
  }

  /** Lexicographic: a proper prefix comes first, and otherwise the first difference decides. */
  lemma LessMeaning(p: string, a: string, b: string)
    ensures Less(p + a, p + b) <==> Less(a, b)
    ensures Less("", a) <==> a != ""
    ensures a != "" && b != "" && a[0] != b[0] ==> (Less(a, b) <==> a[0] < b[0])
    decreases |p|
  {
    if p == "" {
      assert p + a == a && p + b == b;
    } else {
      assert (p + a)[1..] == p[1..] + a && (p + b)[1..] == p[1..] + b;
      LessMeaning(p[1..], a, b);
    }
  }

  lemma {:induction false} LessIrreflexive(a: string)
    ensures !Less(a, a)
  {
    if a != "" { LessIrreflexive(a[1..]); }
  }

  lemma {:induction false} LessTransitive(a: string, b: string, c: string)
    requires Less(a, b) && Less(b, c)
    ensures Less(a, c)
  {
    if a != "" && a[0] == b[0] && b[0] == c[0] { LessTransitive(a[1..], b[1..], c[1..]); }
  }

  lemma {:induction false} LessTotal(a: string, b: string)
    ensures a == b || Less(a, b) || Less(b, a)
  {
    if a != "" && b != "" && a[0] == b[0] {
      LessTotal(a[1..], b[1..]);
      assert a == [a[0]] + a[1..] && b == [b[0]] + b[1..];
    }
  }

  lemma NotLessTransitive(a: string, b: string, c: string)
    requires !Less(a, b) && !Less(b, c)
    ensures !Less(a, c)
  {
    LessTotal(a, b);
    LessTotal(b, c);
    if a != b && b != c { LessTransitive(c, b, a); }
    LessIrreflexive(a);
    LessAsymmetric(c, a);
  }

  lemma LessAsymmetric(a: string, b: string)
    ensures !(Less(a, b) && Less(b, a))
  {
    if Less(a, b) && Less(b, a) {
      LessTransitive(a, b, a);
      LessIrreflexive(a);
    }
  }
}
