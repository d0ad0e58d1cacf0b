/** The in-memory invocation store with its correlation index. */
module InvocationStore {
  import opened Common
  import opened GoStrings

  datatype Status = Running | Succeeded | Failed | Denied

  datatype Invocation = Invocation(id: string, sessionId: string, toolName: string, correlationId: string, status: Status)

  /** The index key; empty when any trimmed part is empty. */
  function LookupKey(sessionId: string, toolName: string, correlationId: string): (k: string)
  {
    var s, t, c := Trim(sessionId), Trim(toolName), Trim(correlationId);
    if s == "" || t == "" || c == "" then "" else s + "|" + t + "|" + c
  }

  function KeyOf(inv: Invocation): (k: string)
  {
    LookupKey(inv.sessionId, inv.toolName, inv.correlationId)
  }

  datatype Store = Store(invocations: map<string, Invocation>, byKey: map<string, string>)

  const EMPTY := Store(map[], map[])

  function Save(st: Store, inv: Invocation): (r: Store)
  {
    var k := KeyOf(inv);
    Store(st.invocations[inv.id := inv],
          if k != "" && k !in st.byKey then st.byKey[k := inv.id] else st.byKey)
  }

  function Find(st: Store, sessionId: string, toolName: string, correlationId: string): (r: Option<Invocation>)
  {
    FindKey(st, LookupKey(sessionId, toolName, correlationId))
  }

  function FindKey(st: Store, k: string): (r: Option<Invocation>)
  {
    if k == "" || k !in st.byKey || st.byKey[k] !in st.invocations then None
    else Some(st.invocations[st.byKey[k]])
  }

  /** The store after a history of saves. */
  function Replay(history: seq<Invocation>): (st: Store)
  {
    if history == [] then EMPTY else Save(Replay(history[..|history| - 1]), history[|history| - 1])
  }

  // ---- The index against a scan of the history ---------------------------------------------

  /** The first saved record with lookup key `k`. */
  function FirstWithKey(history: seq<Invocation>, k: string): (r: Option<Invocation>)
  {
    if history == [] then None
    else if KeyOf(history[0]) == k then Some(history[0])
    else FirstWithKey(history[1..], k)
  }

  /** The last saved version of a record. */
  function LastWithId(history: seq<Invocation>, id: string): (r: Option<Invocation>)
  {
    if history == [] then None
    else if history[|history| - 1].id == id then Some(history[|history| - 1])
    else LastWithId(history[..|history| - 1], id)
  }

  /** The save at i is the first that carries the key. */
  ghost predicate FirstAt(history: seq<Invocation>, k: string, i: nat)
  {
    i < |history| && KeyOf(history[i]) == k && forall j :: 0 <= j < i ==> KeyOf(history[j]) != k
  }

  lemma {:induction false} FirstPlace(history: seq<Invocation>, k: string) returns (i: nat)
    requires FirstWithKey(history, k).Some?
    ensures FirstAt(history, k, i) && FirstWithKey(history, k) == Some(history[i])
  {
    i := 0;
    if KeyOf(history[0]) != k {
      var j := FirstPlace(history[1..], k);
      i := j + 1;
      assert forall x :: 1 <= x < i ==> history[x] == history[1..][x - 1];
    }
  }

  /** The first of a key is the first save that carries it, if there is one. */
  lemma FirstMeaning(history: seq<Invocation>, k: string, i: nat)
    requires FirstAt(history, k, i)
    ensures FirstWithKey(history, k) == Some(history[i])
  {
    FirstNone(history, k);
    var place := FirstPlace(history, k);
    assert !(place < i) && !(i < place);
  }

  /** The last of an ID: no later save has it. */
  lemma {:induction false} LastMeaning(history: seq<Invocation>, id: string, inv: Invocation)
    ensures LastWithId(history, id) == Some(inv) <==>
            exists i :: 0 <= i < |history| && history[i] == inv && inv.id == id && forall j :: i < j < |history| ==> history[j].id != id
  {
    if history != [] {
      var n := |history| - 1;
      var front := history[..n];
      LastMeaning(front, id, inv);
      if history[n].id != id {
        assert forall i :: 0 <= i < n ==> front[i] == history[i];
        if LastWithId(front, id) == Some(inv) {
          var i :| 0 <= i < n && front[i] == inv && inv.id == id && forall j :: i < j < n ==> front[j].id != id;
          assert history[i] == inv && forall j :: i < j < |history| ==> history[j].id != id;
        }
      }
    }
  }

  lemma {:induction false} FirstAppend(history: seq<Invocation>, inv: Invocation, k: string)
    ensures FirstWithKey(history + [inv], k) ==
            if FirstWithKey(history, k).Some? then FirstWithKey(history, k)
            else if KeyOf(inv) == k then Some(inv) else None
  {
    if history != [] {
      assert (history + [inv])[1..] == history[1..] + [inv];
      FirstAppend(history[1..], inv, k);
    } else {
      assert (history + [inv])[1..] == [];
    }
  }

  /** What the two maps hold after any history: the last version of every record, and for
      every non-empty key the ID saved first under it. */
  lemma {:induction false} ReplayMeaning(history: seq<Invocation>, k: string, id: string)
    ensures var st := Replay(history);
            && (LastWithId(history, id) == if id in st.invocations then Some(st.invocations[id]) else None)
            && (k != "" ==> (k in st.byKey <==> FirstWithKey(history, k).Some?))
            && (k in st.byKey ==> k != "" && st.byKey[k] == FirstWithKey(history, k).value.id && st.byKey[k] in st.invocations)
  {
    if history != [] {
      var front, inv := history[..|history| - 1], history[|history| - 1];
      assert history == front + [inv];
      ReplayMeaning(front, k, id);
      FirstAppend(front, inv, k);
    }
  }

  /** A lookup returns the latest version of the record whose ID was saved first under the
      key, and nothing exactly when no save carried the key. */
  lemma FindScansHistory(history: seq<Invocation>, k: string)
    requires k != ""
    ensures FindKey(Replay(history), k) ==
            match FirstWithKey(history, k)
            case None => None
            case Some(first) => LastWithId(history, first.id)
    ensures FindKey(Replay(history), k).None? <==> (forall i :: 0 <= i < |history| ==> KeyOf(history[i]) != k)
  {
    ReplayMeaning(history, k, "");
    var first := FirstWithKey(history, k);
    if first.Some? { ReplayMeaning(history, k, first.value.id); }
    FirstNone(history, k);
  }

  lemma {:induction false} FirstNone(history: seq<Invocation>, k: string)
    ensures FirstWithKey(history, k).None? <==> (forall i :: 0 <= i < |history| ==> KeyOf(history[i]) != k)
  {
    if history != [] {
      FirstNone(history[1..], k);
      assert forall i :: 1 <= i < |history| ==> history[i] == history[1..][i - 1];
    }
  }

  // ---- How far the joined key identifies a request -----------------------------------------

  /** A request has a key exactly when none of its parts is blank. */
  lemma LookupKeyBlank(s: string, t: string, c: string)
    ensures LookupKey(s, t, c) == "" <==> Trim(s) == "" || Trim(t) == "" || Trim(c) == ""
  {
  }

  /** Session `other` goes on from session `s` with a bar and the tool `t`, and ends there or goes
      on with a further bar that no white space follows. */
  predicate GoesOn(s: string, t: string, other: string)
  {
    var n := |s| + 1 + |t|;
    && s + "|" + t <= other
    && (|other| == n || (other[n] == '|' && (|other| == n + 1 || !IsSpace(other[n + 1]))))
  }

  /** Two trimmed request names that some correlation IDs make collide. */
  predicate Collide(s: string, t: string, s': string, t': string)
  {
    && s != "" && t != "" && s' != "" && t' != ""
    && (GoesOn(s, t, s') || GoesOn(s', t', s))
  }

  predicate SameRequest(s: string, t: string, c: string, s': string, t': string, c': string)
  {
    Trim(s) == Trim(s') && Trim(t) == Trim(t') && Trim(c) == Trim(c')
  }

  /** One key, cut behind a shorter and behind a longer session. */
  lemma LongerSession(s: string, t: string, c: string, s': string, t': string, c': string)
    requires |s| < |s'| && '|' !in t && Trimmed(c) && c != ""
    requires s + "|" + t + "|" + c == s' + "|" + t' + "|" + c'
    ensures GoesOn(s, t, s')
  {
    var key, n := s + "|" + t + "|" + c, |s| + 1 + |t|;
    assert key == s' + ("|" + t' + "|" + c');
    assert s' == key[..|s'|];
    assert key[n] == '|' && key[n + 1] == c[0];
    assert key[|s'|] == '|';
    forall i | |s| < i < n ensures key[i] != '|' { assert key[i] == t[i - |s| - 1]; }
    assert s + "|" + t == key[..n] == s'[..n];
  }

  lemma SameLengthSession(s: string, t: string, c: string, s': string, t': string, c': string)
    requires |s| == |s'| && '|' !in t && '|' !in t'
    requires s + "|" + t + "|" + c == s' + "|" + t' + "|" + c'
    ensures s == s' && t == t' && c == c'
  {
    var key := s + "|" + t + "|" + c;
    assert s == key[..|s|] == s';
    assert key == (s + "|") + (t + ['|'] + c) && key == (s + "|") + (t' + ['|'] + c');
    SameTail(s + "|", t + ['|'] + c, t' + ['|'] + c');
    CutAt(t, '|', c, t', c');
  }

  /** For bar-free tools, equal keys mean the same trimmed request unless the names collide. */
  lemma LookupKeyInjective(s: string, t: string, c: string, s': string, t': string, c': string)
    requires LookupKey(s, t, c) != "" && LookupKey(s, t, c) == LookupKey(s', t', c')
    requires '|' !in Trim(t) && '|' !in Trim(t') && !Collide(Trim(s), Trim(t), Trim(s'), Trim(t'))
    ensures SameRequest(s, t, c, s', t', c')
  {
    TrimExact(c);
    TrimExact(c');
    var x, y, z, x', y', z' := Trim(s), Trim(t), Trim(c), Trim(s'), Trim(t'), Trim(c');
    if |x| < |x'| {
      LongerSession(x, y, z, x', y', z');
    } else if |x'| < |x| {
      LongerSession(x', y', z', x, y, z);
    } else {
      SameLengthSession(x, y, z, x', y', z');
    }
  }

  /** Correlation IDs under which two colliding names share a key. */
  lemma SharedKey(s: string, t: string, s': string, t': string) returns (c: string, c': string)
    requires Trimmed(s) && Trimmed(t) && Trimmed(s') && Trimmed(t')
    requires s != "" && t != "" && t' != "" && GoesOn(s, t, s')
    ensures Trimmed(c) && Trimmed(c') && LookupKey(s, t, c) == LookupKey(s', t', c') != ""
  {
    var n := |s| + 1 + |t|;
    c' := "d";
    c := if |s'| == n then t' + "|d" else s'[n + 1..] + "|" + t' + "|d";
    assert s' == s'[..n] + s'[n..] && s'[..n] == s + "|" + t;
    assert |s'| > n ==> s'[n..] == "|" + s'[n + 1..];
    assert c[|c| - 1] == 'd';
    assert s + "|" + t + "|" + c == s' + "|" + t' + "|" + c';
    TrimExact(s); TrimExact(t); TrimExact(c);
    TrimExact(s'); TrimExact(t'); TrimExact(c');
  }

  /** For every two names with bar-free tools, as all catalog tools are: some correlation IDs make
      different requests share a key exactly when one session goes on from the other with the
      other's tool. Session IDs are the client's choice, so they may hold bars. */
  lemma LookupKeyExact(s: string, t: string, s': string, t': string)
    requires '|' !in Trim(t) && '|' !in Trim(t')
    ensures (exists c, c' :: LookupKey(s, t, c) == LookupKey(s', t', c') != "" && !SameRequest(s, t, c, s', t', c'))
            <==> Collide(Trim(s), Trim(t), Trim(s'), Trim(t'))
  {
    var x, y, x', y' := Trim(s), Trim(t), Trim(s'), Trim(t');
    TrimExact(s); TrimExact(t); TrimExact(s'); TrimExact(t');
    TrimExact(x); TrimExact(y); TrimExact(x'); TrimExact(y');
    if Collide(x, y, x', y') {
      assert x != x';
      var c, c';
      if GoesOn(x, y, x') { c, c' := SharedKey(x, y, x', y'); } else { c', c := SharedKey(x', y', x, y); }
      assert LookupKey(s, t, c) == LookupKey(s', t', c') != "";
      assert !SameRequest(s, t, c, s', t', c');
    }
    forall c, c' | LookupKey(s, t, c) == LookupKey(s', t', c') != "" && !SameRequest(s, t, c, s', t', c')
      ensures Collide(x, y, x', y')
    {
      if !Collide(x, y, x', y') { LookupKeyInjective(s, t, c, s', t', c'); }
    }
  }

  /** Two sessions of catalog tools that share a key. */
  lemma LookupKeyCollides()
    ensures LookupKey("a", "fs.read", "fs.write|d") == LookupKey("a|fs.read", "fs.write", "d") != ""
    ensures Collide("a", "fs.read", "a|fs.read", "fs.write")
  {
    TrimExact("a"); TrimExact("fs.read"); TrimExact("fs.write|d");
    TrimExact("a|fs.read"); TrimExact("fs.write"); TrimExact("d");
  }

  // ---- The code ------------------------------------------------------------------------------

  class InMemoryInvocationStore {
    var invocations: map<string, Invocation>
    var byCorrKey: map<string, string>
    ghost var history: seq<Invocation>

    ghost predicate Valid()
      reads this
    {
      Store(invocations, byCorrKey) == Replay(history)
    }

    constructor ()
      ensures Valid() && history == []
    {
      invocations, byCorrKey, history := map[], map[], [];
    }

    method Save(inv: Invocation)
      requires Valid()
      modifies this
      ensures Valid() && history == old(history) + [inv]
    {
      invocations := invocations[inv.id := inv];
      var key := LookupKey(inv.sessionId, inv.toolName, inv.correlationId);
      if key != "" {
        if key !in byCorrKey {
          byCorrKey := byCorrKey[key := inv.id];
        }
      }
      history := history + [inv];
      assert history[..|history| - 1] == old(history);
    }

    method Get(id: string) returns (r: Option<Invocation>)
      requires Valid()
      ensures r == LastWithId(history, id)
    {
      ReplayMeaning(history, "", id);
      r := if id in invocations then Some(invocations[id]) else None;
    }

    method FindByCorrelation(sessionId: string, toolName: string, correlationId: string) returns (r: Option<Invocation>)
      requires Valid()
      ensures var k := LookupKey(sessionId, toolName, correlationId);
              r == if k == "" || FirstWithKey(history, k).None? then None
                   else LastWithId(history, FirstWithKey(history, k).value.id)
    {
      var key := LookupKey(sessionId, toolName, correlationId);
      if key == "" { return None; }
      FindScansHistory(history, key);
      if key !in byCorrKey { return None; }
      var id := byCorrKey[key];
      r := if id in invocations then Some(invocations[id]) else None;
    }
  }
}
