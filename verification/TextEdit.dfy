/** The two text transformations behind fs.edit and fs.insert. */
module TextEdit {
  import opened GoStrings

  // ---- Occurrences ---------------------------------------------------------------------------

  /** `pat` occurs in `s` at position i. */
  predicate OccursAt(s: string, pat: string, i: nat)
  {
    i <= |s| && pat <= s[i..]
  }

  /** Leftmost occurrence, or -1. */
  function Index(s: string, pat: string): (i: int)
    ensures -1 <= i <= |s| && (i >= 0 ==> i + |pat| <= |s|)
  {
    if pat <= s then 0
    else if s == "" then -1
    else
      var r := Index(s[1..], pat);
      if r < 0 then -1 else r + 1
  }

  lemma OccursLater(s: string, pat: string, j: nat)
    requires s != "" && j >= 1
    ensures OccursAt(s, pat, j) <==> OccursAt(s[1..], pat, j - 1)
  {
    assert j <= |s| ==> s[j..] == s[1..][j - 1..];
  }

  lemma {:induction false} IndexLeftmost(s: string, pat: string)
    ensures var i := Index(s, pat);
            && (i >= 0 ==> OccursAt(s, pat, i))
            && (forall j: nat :: (i < 0 || j < i) ==> !OccursAt(s, pat, j))
  {
    assert s[0..] == s;
    if !(pat <= s) && s != "" {
      IndexLeftmost(s[1..], pat);
      var i := Index(s, pat);
      forall j: nat | i < 0 || j < i ensures !OccursAt(s, pat, j) {
        if j > 0 { OccursLater(s, pat, j); }
      }
      if i >= 0 { OccursLater(s, pat, i); }
    }
  }

  /** Non-overlapping occurrences from the left. */
  function Count(s: string, pat: string): (n: nat)
    requires pat != ""
    decreases |s|
  {
    var i := Index(s, pat);
    if i < 0 then 0 else 1 + Count(s[i + |pat|..], pat)
  }

  /** The text between those occurrences. */
  function SplitOn(s: string, pat: string): (parts: seq<string>)
    requires pat != ""
    ensures |parts| == Count(s, pat) + 1
    decreases |s|
  {
    var i := Index(s, pat);
    if i < 0 then [s] else [s[..i]] + SplitOn(s[i + |pat|..], pat)
  }

  function JoinWith(parts: seq<string>, sep: string): (s: string)
    requires parts != []
  {
    if |parts| == 1 then parts[0] else parts[0] + sep + JoinWith(parts[1..], sep)
  }

  lemma PrefixGrows(p: string, a: string, b: string)
    ensures p <= a ==> p <= a + b
  {
  }

  lemma NotWithin(s: string, pat: string, i: nat, j: nat)
    requires pat != "" && i <= |s| && forall k: nat :: k < i ==> !OccursAt(s, pat, k)
    ensures !OccursAt(s[..i], pat, j)
  {
    if j < i {
      assert s[j..] == s[..i][j..] + s[i..];
      PrefixGrows(pat, s[..i][j..], s[i..]);
      assert !OccursAt(s, pat, j);
    }
  }

  /** Joining with `pat` gives the text back, and no part holds `pat`. */
  lemma {:induction false} SplitOnExact(s: string, pat: string)
    requires pat != ""
    ensures JoinWith(SplitOn(s, pat), pat) == s
    ensures forall p, j: nat :: p in SplitOn(s, pat) ==> !OccursAt(p, pat, j)
    decreases |s|
  {
    var i := Index(s, pat);
    IndexLeftmost(s, pat);
    if i >= 0 {
      var rest := SplitOn(s[i + |pat|..], pat);
      SplitOnExact(s[i + |pat|..], pat);
      assert ([s[..i]] + rest)[1..] == rest;
      assert s[i..][..|pat|] == pat;
      assert s == s[..i] + pat + s[i + |pat|..];
      forall j: nat ensures !OccursAt(s[..i], pat, j) {
        NotWithin(s, pat, i, j);
      }
    }
  }

  function TotalLength(parts: seq<string>): (n: nat)
  {
    if parts == [] then 0 else |parts[0]| + TotalLength(parts[1..])
  }

  lemma {:induction false} JoinLength(parts: seq<string>, sep: string)
    requires parts != []
    ensures |JoinWith(parts, sep)| == TotalLength(parts) + (|parts| - 1) * |sep|
  {
    if |parts| > 1 { JoinLength(parts[1..], sep); }
  }

  /** Replacing every occurrence changes the length by count * (|new| - |old|). */
  lemma LengthLaw(s: string, pat: string, sub: string)
    requires pat != ""
    ensures |JoinWith(SplitOn(s, pat), sub)| == |s| + Count(s, pat) * (|sub| - |pat|)
  {
    var parts := SplitOn(s, pat);
    SplitOnExact(s, pat);
    JoinLength(parts, pat);
    JoinLength(parts, sub);
    Distribute(Count(s, pat), |sub|, |pat|);
  }

  lemma Distribute(n: int, a: int, b: int)
    ensures n * (a - b) == n * a - n * b
  {
  }

  // ---- Replacement ---------------------------------------------------------------------------

  datatype EditError = NotFound | Ambiguous(count: nat)

  datatype Edited = Edited(text: string, replacements: nat) | Failed(error: EditError)

  /** `strings.Replace`: rewrite the first n occurrences from the left, all of them when n < 0. */
  function Replace(s: string, pat: string, sub: string, n: int): (r: string)
    requires pat != ""
    decreases |s|
  {
    var i := Index(s, pat);
    if n == 0 || i < 0 then s else s[..i] + sub + Replace(s[i + |pat|..], pat, sub, n - 1)
  }

  function FsEditApply(original: string, pat: string, sub: string, replaceAll: bool): (r: Edited)
    requires pat != ""
  {
    var count := Count(original, pat);
    if count == 0 then Failed(NotFound)
    else if !replaceAll && count > 1 then Failed(Ambiguous(count))
    else if replaceAll then Edited(Replace(original, pat, sub, -1), count)
    else Edited(Replace(original, pat, sub, 1), 1)
  }

  lemma JoinFront(x: string, rest: seq<string>, sep: string)
    requires rest != []
    ensures JoinWith([x] + rest, sep) == x + sep + JoinWith(rest, sep)
  {
    assert ([x] + rest)[1..] == rest;
  }

  lemma SplitOnStep(s: string, pat: string)
    requires pat != "" && Index(s, pat) >= 0
    ensures var i := Index(s, pat);
            SplitOn(s, pat) == [s[..i]] + SplitOn(s[i + |pat|..], pat) && Count(s, pat) == 1 + Count(s[i + |pat|..], pat)
  {
  }

  lemma ReplaceStep(s: string, pat: string, sub: string, n: int)
    requires pat != "" && n < 0
    ensures var i := Index(s, pat);
            Replace(s, pat, sub, n) == if i < 0 then s else s[..i] + sub + Replace(s[i + |pat|..], pat, sub, n - 1)
  {
  }

  lemma OnePart(s: string, pat: string, sub: string)
    requires pat != "" && Index(s, pat) < 0
    ensures JoinWith(SplitOn(s, pat), sub) == s
  {
  }

  lemma {:induction false} ReplaceAllJoins(s: string, pat: string, sub: string, n: int)
    requires pat != "" && n < 0
    ensures Replace(s, pat, sub, n) == JoinWith(SplitOn(s, pat), sub)
    decreases |s|
  {
    var i := Index(s, pat);
    ReplaceStep(s, pat, sub, n);
    if i < 0 {
      OnePart(s, pat, sub);
    } else {
      var tail := s[i + |pat|..];
      ReplaceAllJoins(tail, pat, sub, n - 1);
      SplitOnStep(s, pat);
      JoinFront(s[..i], SplitOn(tail, pat), sub);
    }
  }

  /** The edit fails exactly when the old text is missing, or is counted more than once without
      replace_all. With replace_all the result is split-on-pat joined with new; otherwise the
      leftmost occurrence in pre + old + post becomes pre + new + post. */
  lemma EditChangesOnlyMatches(original: string, pat: string, sub: string, replaceAll: bool)
    requires pat != ""
    ensures var r, parts := FsEditApply(original, pat, sub, replaceAll), SplitOn(original, pat);
            && JoinWith(parts, pat) == original
            && (r == Failed(NotFound) <==> forall j: nat :: !OccursAt(original, pat, j))
            && (r.Failed? && r.error.Ambiguous? <==> !replaceAll && |parts| > 2)
            && (r.Edited? && replaceAll ==>
                  && r.text == JoinWith(parts, sub) && r.replacements == |parts| - 1
                  && |r.text| == |original| + r.replacements * (|sub| - |pat|))
            && (r.Edited? && !replaceAll ==>
                  && parts == [parts[0], parts[1]] && r.replacements == 1
                  && original == parts[0] + pat + parts[1] && r.text == parts[0] + sub + parts[1]
                  && forall j: nat :: j < |parts[0]| ==> !OccursAt(original, pat, j))
  {
    SplitOnExact(original, pat);
    ReplaceAllJoins(original, pat, sub, -1);
    LengthLaw(original, pat, sub);
    IndexLeftmost(original, pat);
    var parts, i := SplitOn(original, pat), Index(original, pat);
    if |parts| == 2 {
      assert parts[1..] == [parts[1]];
      assert Replace(original[i + |pat|..], pat, sub, 0) == original[i + |pat|..];
      assert SplitOn(original[i + |pat|..], pat) == [original[i + |pat|..]];
    }
  }

  // ---- Uniqueness ----------------------------------------------------------------------------

  /** No proper suffix of the text is also a prefix of it. */
  ghost predicate Borderless(pat: string)
  {
    forall k :: 0 < k < |pat| ==> pat[k..] != pat[..|pat| - k]
  }

  ghost predicate OccursTwice(s: string, pat: string)
  {
    exists i: nat, j: nat :: i < j && OccursAt(s, pat, i) && OccursAt(s, pat, j)
  }

  lemma OccursIn(s: string, pat: string, i: nat)
    requires OccursAt(s, pat, i)
    ensures i + |pat| <= |s| && s[i..i + |pat|] == pat
  {
    assert s[i..][..|pat|] == s[i..i + |pat|];
  }

  /** Overlapping occurrences give the text a border. */
  lemma OverlapGivesBorder(s: string, pat: string, i: nat, j: nat)
    requires i < j < i + |pat| && OccursAt(s, pat, i) && OccursAt(s, pat, j)
    ensures !Borderless(pat)
  {
    var k := j - i;
    OccursIn(s, pat, i);
    OccursIn(s, pat, j);
    assert pat[k..] == s[j..i + |pat|] == pat[..|pat| - k];
  }

  lemma OccursBeyond(s: string, pat: string, m: nat, j: nat)
    requires m <= j && OccursAt(s, pat, j)
    ensures OccursAt(s[m..], pat, j - m)
  {
    assert s[m..][j - m..] == s[j..];
  }

  lemma CountPositive(s: string, pat: string, j: nat)
    requires pat != "" && OccursAt(s, pat, j)
    ensures 0 <= Index(s, pat) <= j && Count(s, pat) >= 1
  {
    IndexLeftmost(s, pat);
  }

  /** Occurrences apart are all counted. */
  lemma ApartCounted(s: string, pat: string, i: nat, j: nat)
    requires pat != "" && i + |pat| <= j && OccursAt(s, pat, i) && OccursAt(s, pat, j)
    ensures Count(s, pat) >= 2
  {
    CountPositive(s, pat, i);
    var m := Index(s, pat) + |pat|;
    OccursBeyond(s, pat, m, j);
    SplitOnStep(s, pat);
    CountPositive(s[m..], pat, j - m);
  }

  /** A border gives a text in which `pat` occurs twice and is counted once. */
  lemma BorderHides(pat: string, k: nat) returns (s: string)
    requires 0 < k < |pat| && pat[k..] == pat[..|pat| - k]
    ensures Count(s, pat) == 1 && OccursTwice(s, pat)
  {
    s := pat + pat[|pat| - k..];
    assert s[0..] == s && s[k..] == pat[..|pat| - k] + pat[|pat| - k..] == pat;
    assert OccursAt(s, pat, 0) && OccursAt(s, pat, k);
    assert Index(s, pat) == 0;
    assert |s[|pat|..]| < |pat|;
  }

  /** The count of one guarantees a unique match for every file exactly when the old text does
      not overlap itself; "aa" in "aaa" is edited although it occurs twice. */
  lemma UniqueExactlyBorderless(pat: string)
    requires pat != ""
    ensures Borderless(pat) <==> forall s :: Count(s, pat) == 1 ==> !OccursTwice(s, pat)
  {
    if Borderless(pat) {
      forall s | Count(s, pat) == 1 ensures !OccursTwice(s, pat) {
        forall i: nat, j: nat | i < j && OccursAt(s, pat, i) && OccursAt(s, pat, j) ensures Count(s, pat) >= 2 {
          if j < i + |pat| { OverlapGivesBorder(s, pat, i, j); }
          ApartCounted(s, pat, i, j);
        }
      }
    } else {
      var k :| 0 < k < |pat| && pat[k..] == pat[..|pat| - k];
      var s := BorderHides(pat, k);
    }
  }

  // ---- Insertion -----------------------------------------------------------------------------

  /** The inserted lines: the content without one trailing newline. */
  function InsertLines(content: string): (lines: seq<string>)
    ensures lines != []
  {
    Split(if HasSuffix(content, "\n") then content[..|content| - 1] else content, '\n')
  }

  /** The lines spell the content, with the one newline that ends them. */
  lemma InsertLinesMeaning(content: string)
    ensures Join(InsertLines(content), '\n') + "\n" == if HasSuffix(content, "\n") then content else content + "\n"
    ensures Free(InsertLines(content), '\n')
  {
    var text := if HasSuffix(content, "\n") then content[..|content| - 1] else content;
    JoinSplit(text, '\n');
    SplitFree(text, '\n');
    assert HasSuffix(content, "\n") ==> content == content[..|content| - 1] + content[|content| - 1..];
  }

  /** The end of the text when the line lies beyond it. */
  function InsertAt(original: string, line: nat): (k: nat)
    ensures var n := |Split(original, '\n')|; k <= n && k <= line && (k == line || k == n)
  {
    var n := |Split(original, '\n')|;
    if line > n then n else line
  }

  /** fsInsertAtLine builds the new list of lines by appends. */
  method FsInsertAtLine(original: string, line: nat, content: string) returns (r: string)
    ensures Split(r, '\n') == Split(original, '\n')[..InsertAt(original, line)] + InsertLines(content)
                              + Split(original, '\n')[InsertAt(original, line)..]
    ensures r == Join(Split(r, '\n'), '\n')
  {
    var lines := Split(original, '\n');
    var full := if HasSuffix(content, "\n") then content else content + "\n";
    assert !HasSuffix(content, "\n") ==> full[..|full| - 1] == content;
    var inserted := Split(full[..|full| - 1], '\n');
    var k := line;
    if k > |lines| { k := |lines|; }
    var result := lines[..k];
    result := result + inserted;
    result := result + lines[k..];
    SplitFree(original, '\n');
    SplitFree(full[..|full| - 1], '\n');
    SplitJoin(result, '\n');
    r := Join(result, '\n');
  }

  /** Deleting the inserted lines gives the original text back. */
  lemma InsertUndone(original: string, line: nat, content: string, r: string)
    requires Split(r, '\n') == Split(original, '\n')[..InsertAt(original, line)] + InsertLines(content)
                               + Split(original, '\n')[InsertAt(original, line)..]
    ensures var k, m, lines := InsertAt(original, line), |InsertLines(content)|, Split(r, '\n');
            && lines[k..k + m] == InsertLines(content)
            && Join(lines[..k] + lines[k + m..], '\n') == original
  {
    var k, m, before, lines := InsertAt(original, line), |InsertLines(content)|, Split(original, '\n'), Split(r, '\n');
    assert lines[..k] == before[..k] && lines[k + m..] == before[k..];
    assert before == before[..k] + before[k..];
    JoinSplit(original, '\n');
  }

  /** Splitting on a one-character text is splitting on the character. */
  lemma {:induction false} SplitOnChar(s: string, c: char)
    ensures SplitOn(s, [c]) == Split(s, c)
    decreases |s|
  {
    var i := Index(s, [c]);
    IndexLeftmost(s, [c]);
    if i < 0 {
      forall j | 0 <= j < |s| ensures s[j] != c { assert !OccursAt(s, [c], j); }
      SplitNone(s, c);
    } else {
      OccursIn(s, [c], i);
      forall j | 0 <= j < i ensures s[j] != c { assert !OccursAt(s, [c], j); }
      SplitOnChar(s[i + 1..], c);
      SplitNone(s[..i], c);
      SplitAt(s[..i], c, s[i + 1..]);
      assert s == s[..i] + [c] + s[i + 1..];
    }
  }

  /** The reported total_lines, newline count plus one, is the number of lines of the result:
      those of the original plus those inserted. */
  lemma TotalLines(original: string, line: nat, content: string, r: string)
    requires Split(r, '\n') == Split(original, '\n')[..InsertAt(original, line)] + InsertLines(content)
                               + Split(original, '\n')[InsertAt(original, line)..]
    ensures Count(r, "\n") + 1 == Count(original, "\n") + 1 + |InsertLines(content)|
  {
    SplitOnChar(r, '\n');
    SplitOnChar(original, '\n');
    assert Count(r, ['\n']) == |SplitOn(r, ['\n'])| - 1;
  }
}
