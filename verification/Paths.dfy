/** Lexical path cleaning (Go's filepath.Clean on Unix) as a stack machine over components,
    the allow-list check, and the confinement of resolved paths to the workspace. */
module Paths {
  import opened GoStrings

  // ---- filepath.Clean --------------------------------------------------------------------

  /** One component: "" and "." are skipped, ".." backs up over a named component, stays at a
      root, and piles up otherwise. */
  function Push(rooted: bool, stack: seq<string>, comp: string): (r: seq<string>)
  {
    if comp == "" || comp == "." then stack
    else if comp == ".." then
      if stack != [] && stack[|stack| - 1] != ".." then stack[..|stack| - 1]
      else if rooted then stack
      else stack + [".."]
    else stack + [comp]
  }

  function Fold(rooted: bool, stack: seq<string>, comps: seq<string>): (r: seq<string>)
    decreases |comps|
  {
    if comps == [] then stack else Fold(rooted, Push(rooted, stack, comps[0]), comps[1..])
  }

  predicate Rooted(path: string)
  {
    path != "" && path[0] == '/'
  }

  /** The components a path cleans to. */
  function Stack(path: string): (r: seq<string>)
  {
    if path == "" then [] else Fold(Rooted(path), [], Split(path, '/'))
  }

  function Render(rooted: bool, stack: seq<string>): (r: string)
  {
    if rooted then "/" + Join(stack, '/') else if stack == [] then "." else Join(stack, '/')
  }

  function Clean(path: string): (r: string)
  {
    Render(Rooted(path), Stack(path))
  }

  // ---- Normal forms ----------------------------------------------------------------------

  predicate Named(comp: string)
  {
    comp != "" && comp != "." && '/' !in comp
  }

  /** A cleaned stack: named components, with ".." only in front and never under a root. */
  ghost predicate Normal(rooted: bool, stack: seq<string>)
  {
    && (forall i :: 0 <= i < |stack| ==> Named(stack[i]))
    && (forall i :: 0 <= i < |stack| && stack[i] == ".." ==> !rooted && (forall j :: 0 <= j < i ==> stack[j] == ".."))
  }

  lemma {:induction false} FoldNormal(rooted: bool, stack: seq<string>, comps: seq<string>)
    requires Normal(rooted, stack) && Free(comps, '/')
    ensures Normal(rooted, Fold(rooted, stack, comps))
    decreases |comps|
  {
    if comps != [] {
      var next := Push(rooted, stack, comps[0]);
      assert Normal(rooted, next) by {
        if comps[0] == ".." && (stack == [] || stack[|stack| - 1] == "..") && !rooted {
          assert forall j :: 0 <= j < |stack| ==> stack[j] == "..";
        }
      }
      FoldNormal(rooted, next, comps[1..]);
    }
  }

  lemma StackNormal(path: string)
    ensures Normal(Rooted(path), Stack(path))
  {
    if path != "" {
      SplitFree(path, '/');
      FoldNormal(Rooted(path), [], Split(path, '/'));
    }
  }

  lemma {:induction false} FoldConcat(rooted: bool, stack: seq<string>, a: seq<string>, b: seq<string>)
    ensures Fold(rooted, stack, a + b) == Fold(rooted, Fold(rooted, stack, a), b)
    decreases |a|
  {
    if a == [] {
      assert a + b == b;
    } else {
      assert (a + b)[1..] == a[1..] + b;
      FoldConcat(rooted, Push(rooted, stack, a[0]), a[1..], b);
    }
  }

  /** Components that continue a normal stack are pushed unchanged. */
  lemma {:induction false} FoldNormalSelf(rooted: bool, stack: seq<string>, comps: seq<string>)
    requires Normal(rooted, stack + comps)
    ensures Fold(rooted, stack, comps) == stack + comps
    decreases |comps|
  {
    if comps == [] {
      assert stack + comps == stack;
    } else {
      var all := stack + comps;
      assert all[|stack|] == comps[0];
      assert comps[0] == ".." ==> !rooted && (stack != [] ==> all[|stack| - 1] == "..");
      assert Push(rooted, stack, comps[0]) == stack + [comps[0]];
      assert stack + [comps[0]] + comps[1..] == all;
      FoldNormalSelf(rooted, stack + [comps[0]], comps[1..]);
    }
  }

  /** Cleaning a rendered normal stack gives it back; read as components it may carry an empty
      or "." component that is skipped. */
  lemma RenderedStack(rooted: bool, stack: seq<string>, base: seq<string>, under: bool)
    requires Normal(rooted, stack)
    ensures Render(rooted, stack) != "" && Rooted(Render(rooted, stack)) == rooted
    ensures Fold(under, base, Split(Render(rooted, stack), '/')) == Fold(under, base, stack)
  {
    var s := Render(rooted, stack);
    if stack == [] {
      assert Split(".", '/') == ["."] by { SplitNone(".", '/'); }
      assert Fold(under, base, ["."]) == base by { assert ["."][1..] == []; }
      assert Split("/", '/') == ["", ""] by { assert "/"[1..] == ""; }
      assert Fold(under, base, ["", ""]) == base by { assert ["", ""][1..] == [""] && [""][1..] == []; }
      assert "/" + Join(stack, '/') == "/";
    } else {
      var t := Join(stack, '/');
      assert Free(stack, '/');
      SplitJoin(stack, '/');
      assert t[0] == stack[0][0];
      if rooted {
        assert s == "" + ['/'] + t;
        SplitAt("", '/', t);
        assert Split("", '/') == [""];
        FoldConcat(under, base, [""], stack);
        assert [""][1..] == [];
      }
    }
  }

  /** Clean is idempotent on every string, and keeps what it computed. */
  lemma CleanIdempotent(path: string)
    ensures Clean(Clean(path)) == Clean(path)
    ensures Rooted(Clean(path)) == Rooted(path) && Stack(Clean(path)) == Stack(path)
  {
    StackNormal(path);
    var rooted, stack := Rooted(path), Stack(path);
    RenderedStack(rooted, stack, [], rooted);
    assert [] + stack == stack;
    FoldNormalSelf(rooted, [], stack);
  }

  // ---- What cleaning means ---------------------------------------------------------------------

  /** A directory, as the names that lead to it from the root. Entering a component of a path. */
  function Enter(dir: seq<string>, comp: string): (r: seq<string>)
  {
    if comp == "" || comp == "." then dir
    else if comp == ".." then (if dir == [] then [] else dir[..|dir| - 1])
    else dir + [comp]
  }

  function Follow(dir: seq<string>, comps: seq<string>): (r: seq<string>)
    decreases |comps|
  {
    if comps == [] then dir else Follow(Enter(dir, comps[0]), comps[1..])
  }

  /** Where a path leads from a directory: its components one after the other, as they are
      written, from the root if it starts with a slash. */
  function Where(dir: seq<string>, path: string): (r: seq<string>)
  {
    Follow(if Rooted(path) then [] else dir, Split(path, '/'))
  }

  lemma {:induction false} FollowConcat(dir: seq<string>, a: seq<string>, b: seq<string>)
    ensures Follow(dir, a + b) == Follow(Follow(dir, a), b)
    decreases |a|
  {
    if a == [] {
      assert a + b == b;
    } else {
      assert (a + b)[1..] == a[1..] + b;
      FollowConcat(Enter(dir, a[0]), a[1..], b);
    }
  }

  lemma FollowSnoc(dir: seq<string>, a: seq<string>, comp: string)
    ensures Follow(dir, a + [comp]) == Enter(Follow(dir, a), comp)
  {
    FollowConcat(dir, a, [comp]);
    assert [comp][1..] == [];
  }

  lemma PushLeads(rooted: bool, dir: seq<string>, stack: seq<string>, comp: string)
    requires Normal(rooted, stack) && (rooted ==> dir == [])
    ensures Follow(dir, Push(rooted, stack, comp)) == Enter(Follow(dir, stack), comp)
  {
    if comp == ".." && stack != [] && stack[|stack| - 1] != ".." {
      var below, last := stack[..|stack| - 1], stack[|stack| - 1];
      assert stack == below + [last];
      FollowSnoc(dir, below, last);
    } else if comp == ".." && rooted {
      assert stack == [];
    } else {
      FollowSnoc(dir, stack, comp);
    }
  }

  lemma PushNormal(rooted: bool, stack: seq<string>, comp: string)
    requires Normal(rooted, stack) && '/' !in comp
    ensures Normal(rooted, Push(rooted, stack, comp))
  {
    FoldNormal(rooted, stack, [comp]);
    assert [comp][1..] == [];
  }

  lemma {:induction false} FoldLeads(rooted: bool, dir: seq<string>, stack: seq<string>, comps: seq<string>)
    requires Normal(rooted, stack) && Free(comps, '/') && (rooted ==> dir == [])
    ensures Follow(dir, Fold(rooted, stack, comps)) == Follow(Follow(dir, stack), comps)
    decreases |comps|
  {
    if comps != [] {
      PushLeads(rooted, dir, stack, comps[0]);
      PushNormal(rooted, stack, comps[0]);
      FoldLeads(rooted, dir, Push(rooted, stack, comps[0]), comps[1..]);
    }
  }

  lemma StackLeads(path: string, dir: seq<string>)
    ensures Where(dir, path) == Follow(if Rooted(path) then [] else dir, Stack(path))
  {
    SplitFree(path, '/');
    if path == "" {
      assert Split("", '/') == [""] && [""][1..] == [];
    } else {
      FoldLeads(Rooted(path), if Rooted(path) then [] else dir, [], Split(path, '/'));
    }
  }

  /** Cleaning keeps where a path leads, from every directory. */
  lemma CleanLeads(path: string, dir: seq<string>)
    ensures Where(dir, Clean(path)) == Where(dir, path)
  {
    CleanIdempotent(path);
    StackLeads(path, dir);
    StackLeads(Clean(path), dir);
  }

  /** The cleaned text has no component to spare: it is the components of the stack, after a slash
      under a root, and "." or "/" when there are none. */
  lemma CleanShape(path: string)
    ensures Stack(path) == [] ==> Clean(path) == if Rooted(path) then "/" else "."
    ensures Stack(path) != [] ==> Split(Clean(path), '/') == (if Rooted(path) then [""] else []) + Stack(path)
    ensures Normal(Rooted(path), Stack(path))
  {
    StackNormal(path);
    if Stack(path) == [] {
      assert "/" + Join([], '/') == "/";
    } else {
      var t := Join(Stack(path), '/');
      SplitJoin(Stack(path), '/');
      assert "/" + t == "" + ['/'] + t;
      SplitAt("", '/', t);
      assert Split("", '/') == [""];
      assert [] + Stack(path) == Stack(path);
    }
  }

  /** The components of a path that goes on after a slash. */
  lemma StackGoesOn(p: string, q: string)
    ensures Rooted(p + "/" + q) == (p == "" || Rooted(p))
    ensures Stack(p + "/" + q) == Fold(p == "" || Rooted(p), Stack(p), Split(q, '/'))
  {
    var rooted := p == "" || Rooted(p);
    assert p + "/" + q == p + ['/'] + q;
    SplitAt(p, '/', q);
    FoldConcat(rooted, [], Split(p, '/'), Split(q, '/'));
    if p == "" { assert Split("", '/') == [""] && [""][1..] == []; }
  }

  /** A name goes on the end of the cleaned path, an empty or "." component changes nothing. */
  lemma NameExtends(p: string, x: string)
    requires '/' !in x
    ensures x != "" && x != "." && x != ".." ==> Stack(p + "/" + x) == Stack(p) + [x]
    ensures x == "" || x == "." ==> Stack(p + "/" + x) == Stack(p)
  {
    StackGoesOn(p, x);
    SplitNone(x, '/');
    assert [x][1..] == [];
  }

  lemma SplitBack(x: string, q: string)
    requires '/' !in x
    ensures Split(x + "/../" + q, '/') == [x] + ([".."] + Split(q, '/'))
  {
    var back := ".." + ['/'] + q;
    assert x + "/../" + q == x + ['/'] + back;
    SplitAt(x, '/', back);
    SplitAt("..", '/', q);
    SplitNone(x, '/');
    SplitNone("..", '/');
  }

  lemma FoldBack(rooted: bool, stack: seq<string>, x: string, rest: seq<string>)
    requires x != "" && x != "." && x != ".."
    ensures Fold(rooted, stack, [x] + ([".."] + rest)) == Fold(rooted, stack, rest)
  {
    assert ([x] + ([".."] + rest))[1..] == [".."] + rest && ([".."] + rest)[1..] == rest;
    assert (stack + [x])[..|stack|] == stack;
    assert Push(rooted, stack + [x], "..") == stack;
  }

  /** ".." takes back the name before it: p/x/../q cleans as p/q. */
  lemma ParentUndoes(p: string, x: string, q: string)
    requires '/' !in x && x != "" && x != "." && x != ".."
    ensures Clean(p + "/" + (x + "/../" + q)) == Clean(p + "/" + q)
  {
    StackGoesOn(p, x + "/../" + q);
    StackGoesOn(p, q);
    SplitBack(x, q);
    FoldBack(p == "" || Rooted(p), Stack(p), x, Split(q, '/'));
  }

  /** Where there is no name to take back, ".." stays on a relative path and vanishes at a root. */
  lemma ParentAtTop(p: string)
    requires forall i :: 0 <= i < |Stack(p)| ==> Stack(p)[i] == ".."
    ensures Stack(p + "/" + "..") == if p == "" || Rooted(p) then [] else Stack(p) + [".."]
  {
    StackGoesOn(p, "..");
    SplitNone("..", '/');
    assert [".."][1..] == [];
    StackNormal(p);
    assert Stack(p) != [] ==> Stack(p)[0] == "..";
  }

  /** The first component of a relative path. */
  lemma FirstComponent(x: string)
    requires '/' !in x
    ensures Stack(x) == if x == "" || x == "." then [] else [x]
  {
    SplitNone(x, '/');
    assert [x][1..] == [] && [] + [x] == [x];
    if x != "" {
      assert x[0] in x && !Rooted(x);
      assert Fold(false, [], [x]) == Fold(false, Push(false, [], x), []);
    }
  }

  // ---- The allow-list --------------------------------------------------------------------

  predicate Covers(allowed: string, path: string)
  {
    var a, p := Clean(allowed), Clean(path);
    if a == "." then !HasPrefix(p, "..") else p == a || HasPrefix(p, a + "/")
  }

  /** isPathWithinAllowlist: the first matching entry decides. */
  predicate Within(path: string, allowlist: seq<string>)
  {
    allowlist != [] && (Covers(allowlist[0], path) || Within(path, allowlist[1..]))
  }

  function OrDot(allowlist: seq<string>): (r: seq<string>)
  {
    if allowlist == [] then ["."] else allowlist
  }

  lemma {:induction false} WithinExists(path: string, allowlist: seq<string>)
    ensures Within(path, allowlist) <==> exists a :: a in allowlist && Covers(a, path)
  {
    if allowlist != [] {
      WithinExists(path, allowlist[1..]);
      assert allowlist == [allowlist[0]] + allowlist[1..];
    }
  }

  lemma RenderExtends(rooted: bool, a: seq<string>, b: seq<string>)
    requires a != [] && b != []
    ensures Render(rooted, a + b) == Render(rooted, a) + "/" + Join(b, '/')
  {
    JoinConcat(a, b, '/');
  }

  lemma DotStack()
    ensures Stack(".") == [] && Clean(".") == "." == Clean("")
  {
    SplitNone(".", '/');
    assert ["."][1..] == [];
  }

  lemma PrefixCovers(allowed: string, path: string)
    requires Stack(allowed) != [] && Rooted(path) == Rooted(allowed) && Stack(allowed) <= Stack(path)
    ensures Clean(path) == Clean(allowed) || HasPrefix(Clean(path), Clean(allowed) + "/")
  {
    var sa, sp := Stack(allowed), Stack(path);
    var rest := sp[|sa|..];
    assert sp == sa + rest;
    if rest == [] { assert sp == sa; } else { RenderExtends(Rooted(path), sa, rest); }
  }

  lemma JoinedPrefix(a: seq<string>, b: seq<string>, rest: string)
    requires a != [] && b != [] && Free(a, '/') && Free(b, '/') && Join(b, '/') == Join(a, '/') + ['/'] + rest
    ensures a <= b
  {
    SplitJoin(a, '/');
    SplitJoin(b, '/');
    SplitAt(Join(a, '/'), '/', rest);
  }

  lemma SlashTail(x: string, y: string, rest: string)
    requires "/" + x == "/" + y + "/" + rest
    ensures x == y + ['/'] + rest
  {
    assert "/" + y + "/" + rest == "/" + (y + ['/'] + rest);
    SameTail("/", x, y + ['/'] + rest);
  }

  /** Text that continues a rendered stack after a slash continues its components. */
  lemma RenderedPrefix(rooted: bool, a: seq<string>, b: seq<string>, rest: string)
    requires Normal(rooted, a) && Normal(rooted, b) && a != [] && b != []
    requires Render(rooted, b) == Render(rooted, a) + "/" + rest
    ensures a <= b
  {
    if rooted { SlashTail(Join(b, '/'), Join(a, '/'), rest); }
    JoinedPrefix(a, b, rest);
  }

  lemma ExtendsNamed(allowed: string, path: string)
    requires Stack(allowed) != [] && HasPrefix(Clean(path), Clean(allowed) + "/")
    ensures Rooted(path) == Rooted(allowed) && Stack(allowed) <= Stack(path)
  {
    CleanIdempotent(allowed); CleanIdempotent(path);
    StackNormal(allowed); StackNormal(path);
    var a, p := Clean(allowed), Clean(path);
    var rest := p[|a| + 1..];
    RenderedNonEmpty(allowed);
    assert p == a + "/" + rest && p[0] == a[0];
    assert Stack(path) == [] ==> |p| == 1;
    RenderedPrefix(Rooted(path), Stack(allowed), Stack(path), rest);
  }

  lemma CoversNamed(allowed: string, path: string)
    requires Stack(allowed) != []
    ensures Covers(allowed, path) <==> Rooted(path) == Rooted(allowed) && Stack(allowed) <= Stack(path)
  {
    DotStack();
    CleanIdempotent(allowed); CleanIdempotent(path);
    assert Clean(allowed) != ".";
    if Rooted(path) == Rooted(allowed) && Stack(allowed) <= Stack(path) {
      PrefixCovers(allowed, path);
    } else if HasPrefix(Clean(path), Clean(allowed) + "/") {
      ExtendsNamed(allowed, path);
    }
  }

  lemma JoinStart(parts: seq<string>)
    requires parts != [] && Named(parts[0])
    ensures var t := Join(parts, '/');
            t != "" && t[0] != '/' && (HasPrefix(t, "..") <==> HasPrefix(parts[0], ".."))
  {
    var t := Join(parts, '/');
    assert t[0] == parts[0][0] && parts[0][0] in parts[0];
    assert |parts[0]| >= 2 ==> t[..2] == parts[0][..2];
    assert |parts[0]| == 1 && |parts| > 1 ==> t[1] == '/';
  }

  lemma CoversRoot(allowed: string, path: string)
    requires Stack(allowed) == [] && Rooted(allowed)
    ensures Covers(allowed, path) <==> Rooted(path) && Stack(path) == []
  {
    StackNormal(path);
    CleanIdempotent(path);
    var p := Clean(path);
    assert Clean(allowed) == "/";
    assert "/" + "/" == "//" && |"//"| == 2;
    if Stack(path) != [] {
      JoinStart(Stack(path));
      assert Rooted(path) ==> |p| > 1 && p[1] != '/';
    }
  }

  lemma CoversDot(allowed: string, path: string)
    requires Stack(allowed) == [] && !Rooted(allowed)
    ensures Covers(allowed, path) <==> Rooted(path) || Stack(path) == [] || !HasPrefix(Stack(path)[0], "..")
  {
    StackNormal(path);
    CleanIdempotent(path);
    assert Clean(allowed) == ".";
    if Stack(path) != [] { JoinStart(Stack(path)); }
  }

  /** The string test against an entry is a test on whole components, for every entry: its
      components are a prefix of the path's, on the same side of the root, so that "src" covers
      "src/x" and not "src2". An entry that cleans to "/" covers the root alone, and one that
      cleans to "." every rooted path and every path whose first component does not start with
      "..", be that component a name or not. */
  lemma CoversByComponents(allowed: string, path: string)
    ensures Covers(allowed, path) <==>
            if Stack(allowed) != [] then Rooted(path) == Rooted(allowed) && Stack(allowed) <= Stack(path)
            else if Rooted(allowed) then Rooted(path) && Stack(path) == []
            else Rooted(path) || Stack(path) == [] || !HasPrefix(Stack(path)[0], "..")
  {
    if Stack(allowed) != [] {
      CoversNamed(allowed, path);
    } else if Rooted(allowed) {
      CoversRoot(allowed, path);
    } else {
      CoversDot(allowed, path);
    }
  }

  /** Replacing the default by a first entry keeps every allowed path exactly when that entry
      cleans to the workspace itself. */
  lemma FirstEntryExact(entry: string)
    ensures (forall path :: Within(path, ["."]) ==> Within(path, [entry])) <==> Clean(entry) == "."
  {
    DotStack();
    forall path ensures Within(path, [entry]) <==> Covers(entry, path)
                ensures Within(path, ["."]) <==> Covers(".", path) {
      assert [entry][1..] == [] && ["."][1..] == [];
    }
    if Clean(entry) != "." {
      assert Within(".", ["."]);
      var a := Clean(entry);
      RenderedNonEmpty(entry);
      assert !HasPrefix(".", a + "/");
      assert !Within(".", [entry]);
    }
  }

  lemma RenderedNonEmpty(path: string)
    ensures Clean(path) != ""
  {
    StackNormal(path);
    RenderedStack(Rooted(path), Stack(path), [], Rooted(path));
  }

  // ---- resolvePath -----------------------------------------------------------------------

  datatype Resolution = Resolved(path: string) | EscapesWorkspace | OutsideAllowed

  /** filepath.Join of two elements. */
  function FileJoin(a: string, b: string): (r: string)
  {
    if a != "" then Clean(a + "/" + b) else if b != "" then Clean(b) else ""
  }

  predicate PathAllowed(path: string, allowlist: seq<string>)
  {
    Within(path, OrDot(allowlist))
  }

  function ResolvePath(workspace: string, allowlist: seq<string>, relative: string): (r: Resolution)
  {
    var rel := if relative == "" then "." else relative;
    var cleaned := Clean(rel);
    if HasPrefix(cleaned, "..") then EscapesWorkspace
    else if !PathAllowed(cleaned, allowlist) then OutsideAllowed
    else
      var workspaceClean := Clean(workspace);
      var resolved := Clean(FileJoin(workspace, cleaned));
      if resolved != workspaceClean && !HasPrefix(resolved, workspaceClean + "/") then EscapesWorkspace
      else Resolved(resolved)
  }

  /** The allow-list check gives the same answer on a path and on its cleaned form. */
  lemma {:induction false} WithinClean(path: string, allowlist: seq<string>)
    ensures Within(Clean(path), allowlist) == Within(path, allowlist)
  {
    CleanIdempotent(path);
    if allowlist != [] { WithinClean(path, allowlist[1..]); }
  }

  /** A ".." component is always in front, so it shows at the head of the cleaned path. */
  lemma ParentLeads(path: string)
    ensures ".." in Stack(path) ==> HasPrefix(Clean(path), "..")
  {
    StackNormal(path);
    var stack := Stack(path);
    if ".." in stack {
      var i :| 0 <= i < |stack| && stack[i] == "..";
      assert stack[0] == "..";
      assert Clean(path)[..2] == "..";
    }
  }

  /** Joining a cleaned path without ".." below a workspace appends its components. */
  lemma JoinBelow(workspace: string, path: string)
    requires workspace != "" && ".." !in Stack(path)
    ensures FileJoin(workspace, Clean(path)) == Render(Rooted(workspace), Stack(workspace) + Stack(path))
    ensures Normal(Rooted(workspace), Stack(workspace) + Stack(path))
  {
    var rooted, ws, st := Rooted(workspace), Stack(workspace), Stack(path);
    StackNormal(workspace); StackNormal(path);
    var joined := workspace + "/" + Clean(path);
    assert joined == workspace + ['/'] + Clean(path);
    SplitAt(workspace, '/', Clean(path));
    FoldConcat(rooted, [], Split(workspace, '/'), Split(Clean(path), '/'));
    RenderedStack(Rooted(path), st, ws, rooted);
    assert forall i :: |ws| <= i < |ws + st| ==> (ws + st)[i] in st;
    FoldNormalSelf(rooted, ws, st);
  }

  /** Which cleaned paths a workspace has room for: any, unless it cleans to "." or "/". */
  predicate HasRoom(workspace: string, path: string)
  {
    Stack(workspace) != [] || (Stack(path) == [] && (workspace != "" || !Rooted(path)))
  }

  lemma DotHead(t: string)
    ensures t == "." || HasPrefix(t, "./") ==> Split(t, '/')[0] == "."
  {
    SplitNone(".", '/');
    if HasPrefix(t, "./") {
      assert t == "." + ['/'] + t[2..];
      SplitAt(".", '/', t[2..]);
    }
  }

  lemma NotUnderDot(rooted: bool, stack: seq<string>)
    requires Normal(rooted, stack) && stack != []
    ensures var s, top := Render(rooted, stack), Render(rooted, []);
            s != top && !HasPrefix(s, top + "/")
  {
    var t := Join(stack, '/');
    SplitJoin(stack, '/');
    assert t[0] == stack[0][0] && stack[0][0] in stack[0];
    DotHead(t);
    assert "/" + Join([], '/') == "/";
    assert ("/" + t)[1] == t[0];
  }

  /** Confinement, for every workspace, allow-list and input: the path resolves exactly when its
      cleaned form does not start with "..", the policy layer's allow-list check accepts the raw
      path, and the workspace has room for it; then it is the clean path whose components are
      the workspace's followed by the path's. */
  lemma ResolveExact(workspace: string, allowlist: seq<string>, relative: string)
    ensures var r := ResolvePath(workspace, allowlist, relative);
            && (r.Resolved? <==> !HasPrefix(Clean(relative), "..")
                                 && (if allowlist == [] then Within(relative, ["."])
                                     else exists a :: a in allowlist && Covers(a, relative))
                                 && HasRoom(workspace, relative))
            && (r.Resolved? ==>
                 && r.path == Render(Rooted(workspace), Stack(workspace) + Stack(relative))
                 && Rooted(r.path) == Rooted(workspace)
                 && Stack(r.path) == Stack(workspace) + Stack(relative)
                 && ".." !in Stack(relative))
  {
    DotStack();
    WithinExists(relative, allowlist);
    var rel := if relative == "" then "." else relative;
    assert Clean(rel) == Clean(relative) && Stack(rel) == Stack(relative) && Rooted(rel) == Rooted(relative);
    CleanIdempotent(rel);
    WithinClean(rel, OrDot(allowlist));
    WithinClean(relative, OrDot(allowlist));
    var cleaned := Clean(rel);
    if !HasPrefix(cleaned, "..") && Within(relative, OrDot(allowlist)) {
      ParentLeads(rel);
      StackNormal(rel);
      if workspace == "" {
        RenderedNonEmpty(rel);
        if Stack(rel) != [] && !Rooted(rel) { NotUnderDot(false, Stack(rel)); }
        assert [] + Stack(rel) == Stack(rel);
      } else {
        ResolveBelow(workspace, rel);
      }
    }
  }

  /** The same condition with the policy layer's check as that layer makes it. */
  lemma ResolveWithin(workspace: string, allowlist: seq<string>, relative: string)
    ensures ResolvePath(workspace, allowlist, relative).Resolved? <==>
            !HasPrefix(Clean(relative), "..") && Within(relative, OrDot(allowlist)) && HasRoom(workspace, relative)
    ensures ResolvePath(workspace, allowlist, relative).OutsideAllowed? ==> !Within(relative, OrDot(allowlist))
  {
    ResolveExact(workspace, allowlist, relative);
    WithinExists(relative, allowlist);
    DotStack();
    var rel := if relative == "" then "." else relative;
    CleanIdempotent(rel);
    assert Clean(rel) == Clean(relative);
    WithinClean(rel, OrDot(allowlist));
    WithinClean(relative, OrDot(allowlist));
  }

  /** The last check of resolvePath below a non-empty workspace. */
  lemma ResolveBelow(workspace: string, path: string)
    requires workspace != "" && ".." !in Stack(path)
    ensures var resolved, top := Clean(FileJoin(workspace, Clean(path))), Clean(workspace);
            && resolved == Render(Rooted(workspace), Stack(workspace) + Stack(path))
            && Rooted(resolved) == Rooted(workspace) && Stack(resolved) == Stack(workspace) + Stack(path)
            && (resolved == top || HasPrefix(resolved, top + "/") <==> HasRoom(workspace, path))
  {
    var rooted, ws, st := Rooted(workspace), Stack(workspace), Stack(path);
    StackNormal(workspace); StackNormal(path);
    JoinBelow(workspace, path);
    var joined := Render(rooted, ws + st);
    RenderedStack(rooted, ws + st, [], rooted);
    assert [] + (ws + st) == ws + st;
    FoldNormalSelf(rooted, [], ws + st);
    if st == [] {
      assert ws + st == ws;
    } else if ws == [] {
      assert ws + st == st;
      NotUnderDot(rooted, st);
    } else {
      RenderExtends(rooted, ws, st);
    }
  }

  lemma {:induction false} FollowNames(dir: seq<string>, names: seq<string>)
    requires forall i :: 0 <= i < |names| ==> Named(names[i]) && names[i] != ".."
    ensures Follow(dir, names) == dir + names
    decreases |names|
  {
    if names == [] {
      assert dir + names == dir;
    } else {
      FollowNames(dir + [names[0]], names[1..]);
      assert dir + [names[0]] + names[1..] == dir + names;
    }
  }

  /** Where a resolved path leads: from the workspace directory along the names of the cleaned
      request, and for a relative request to where the request itself, as written, leads from the
      workspace. */
  lemma ResolvedLeads(workspace: string, allowlist: seq<string>, relative: string)
    requires ResolvePath(workspace, allowlist, relative).Resolved?
    ensures var path := ResolvePath(workspace, allowlist, relative).path;
            && (forall dir :: Where(dir, path) == Where(dir, workspace) + Stack(relative))
            && (!Rooted(relative) ==> forall dir :: Where(dir, path) == Where(Where(dir, workspace), relative))
  {
    ResolveExact(workspace, allowlist, relative);
    var path := ResolvePath(workspace, allowlist, relative).path;
    StackNormal(relative);
    forall dir
      ensures Where(dir, path) == Where(dir, workspace) + Stack(relative)
      ensures !Rooted(relative) ==> Where(dir, path) == Where(Where(dir, workspace), relative)
    {
      var top := if Rooted(workspace) then [] else dir;
      StackLeads(path, dir);
      StackLeads(workspace, dir);
      StackLeads(relative, Where(dir, workspace));
      FollowConcat(top, Stack(workspace), Stack(relative));
      FollowNames(Where(dir, workspace), Stack(relative));
    }
  }
}
