/** The Valkey invocation store: byte-string keys, percent-encoding, and the correlation
    index kept beside the records in one key space. */
module ValkeyStore {
  import opened Common
  import GoStrings

  newtype Byte = x: int | 0 <= x < 256

  type Bytes = seq<Byte>

  /** An ASCII literal as bytes. */
  function Lit(s: string): (r: Bytes)
    requires forall i :: 0 <= i < |s| ==> s[i] as int < 128
  {
    seq(|s|, i requires 0 <= i < |s| => s[i] as int as Byte)
  }

  const COLON: Byte := 58

  // ---- strings.TrimSpace on UTF-8 bytes ----------------------------------------------------

  /** Length of the white-space character at the head of `s`, 0 if there is none. */
  function SpaceLen(s: Bytes): (n: nat)
    ensures n <= |s|
  {
    if s == [] then 0
    else if 9 <= s[0] <= 13 || s[0] == 32 then 1
    else if |s| >= 2 && s[0] == 0xC2 && (s[1] == 0x85 || s[1] == 0xA0) then 2
    else if |s| >= 3 && (
      || (s[0] == 0xE1 && s[1] == 0x9A && s[2] == 0x80)
      || (s[0] == 0xE2 && s[1] == 0x80 && (0x80 <= s[2] <= 0x8A || s[2] == 0xA8 || s[2] == 0xA9 || s[2] == 0xAF))
      || (s[0] == 0xE2 && s[1] == 0x81 && s[2] == 0x9F)
      || (s[0] == 0xE3 && s[1] == 0x80 && s[2] == 0x80)) then 3
    else 0
  }

  function TrimLeft(s: Bytes): (r: Bytes)
  {
    if SpaceLen(s) > 0 then TrimLeft(s[SpaceLen(s)..]) else s
  }

  /** Length of the white-space character at the end of `s`, 0 if there is none. */
  function LastSpaceLen(s: Bytes): (n: nat)
    ensures n <= |s| && SpaceLen(s[|s| - n..]) == n
  {
    assert s[|s|..] == [];
    if |s| >= 1 && SpaceLen(s[|s| - 1..]) == 1 then 1
    else if |s| >= 2 && SpaceLen(s[|s| - 2..]) == 2 then 2
    else if |s| >= 3 && SpaceLen(s[|s| - 3..]) == 3 then 3
    else 0
  }

  function TrimRight(s: Bytes): (r: Bytes)
  {
    if LastSpaceLen(s) > 0 then TrimRight(s[..|s| - LastSpaceLen(s)]) else s
  }

  function Trim(s: Bytes): (r: Bytes)
  {
    TrimRight(TrimLeft(s))
  }

  /** One white-space character each. */
  ghost predicate Spaces(chars: seq<Bytes>)
  {
    forall i :: 0 <= i < |chars| ==> chars[i] != [] && SpaceLen(chars[i]) == |chars[i]|
  }

  function Flat(chars: seq<Bytes>): (s: Bytes)
  {
    if chars == [] then [] else chars[0] + Flat(chars[1..])
  }

  lemma {:induction false} FlatSnoc(chars: seq<Bytes>, c: Bytes)
    ensures Flat(chars + [c]) == Flat(chars) + c
  {
    if chars == [] {
      assert [c][1..] == [] && [] + [c] == [c] && c + [] == c && [] + c == c;
    } else {
      assert (chars + [c])[1..] == chars[1..] + [c];
      FlatSnoc(chars[1..], c);
      JoinThree(chars[0], Flat(chars[1..]), c);
    }
  }

  lemma JoinThree(a: Bytes, m: Bytes, b: Bytes)
    ensures a + (m + b) == (a + m) + b
  {
  }

  lemma SpaceHead(s: Bytes)
    ensures SpaceLen(s[..SpaceLen(s)]) == SpaceLen(s)
  {
  }

  lemma {:induction false} TrimLeftCuts(s: Bytes) returns (a: seq<Bytes>)
    ensures s == Flat(a) + TrimLeft(s) && Spaces(a)
    decreases |s|
  {
    a := [];
    var n := SpaceLen(s);
    if n > 0 {
      var rest := TrimLeftCuts(s[n..]);
      SpaceHead(s);
      a := [s[..n]] + rest;
      assert a[1..] == rest;
      JoinThree(s[..n], Flat(rest), TrimLeft(s[n..]));
      assert s == s[..n] + s[n..];
    }
  }

  lemma {:induction false} TrimRightCuts(s: Bytes) returns (b: seq<Bytes>)
    ensures s == TrimRight(s) + Flat(b) && Spaces(b)
    decreases |s|
  {
    b := [];
    var n := LastSpaceLen(s);
    if n > 0 {
      var cut := |s| - n;
      var rest := TrimRightCuts(s[..cut]);
      b := rest + [s[cut..]];
      FlatSnoc(rest, s[cut..]);
      JoinThree(TrimRight(s[..cut]), Flat(rest), s[cut..]);
      assert s == s[..cut] + s[cut..];
    }
  }

  lemma {:induction false} TrimLeftEnds(s: Bytes)
    ensures SpaceLen(TrimLeft(s)) == 0
    decreases |s|
  {
    if SpaceLen(s) > 0 { TrimLeftEnds(s[SpaceLen(s)..]); }
  }

  lemma {:induction false} TrimRightEnds(s: Bytes)
    ensures LastSpaceLen(TrimRight(s)) == 0
    decreases |s|
  {
    if LastSpaceLen(s) > 0 { TrimRightEnds(s[..|s| - LastSpaceLen(s)]); }
  }

  /** Trimming takes white-space characters off both ends and nothing else, and leaves none at
      the end; what it takes off the front, it takes off first and completely. */
  lemma TrimMeaning(s: Bytes)
    ensures exists a, b :: Spaces(a) && Spaces(b) && s == Flat(a) + (Trim(s) + Flat(b))
    ensures SpaceLen(TrimLeft(s)) == 0 && LastSpaceLen(Trim(s)) == 0
  {
    var a := TrimLeftCuts(s);
    var b := TrimRightCuts(TrimLeft(s));
    TrimLeftEnds(s);
    TrimRightEnds(TrimLeft(s));
  }

  // ---- url.QueryEscape ---------------------------------------------------------------------

  /** Letters, digits and "-_.~" stand for themselves. */
  predicate Unreserved(b: Byte)
  {
    (48 <= b <= 57) || (65 <= b <= 90) || (97 <= b <= 122) || b == 45 || b == 95 || b == 46 || b == 126
  }

  function HexDigit(n: int): (b: Byte)
    requires 0 <= n < 16
  {
    if n < 10 then (48 + n) as Byte else (55 + n) as Byte
  }

  function HexValue(b: Byte): (n: int)
  {
    if b <= 57 then b as int - 48 else b as int - 55
  }

  function EscapeByte(b: Byte): (r: Bytes)
    ensures r != [] && COLON !in r
  {
    if Unreserved(b) then [b]
    else if b == 32 then [43]
    else [37, HexDigit(b as int / 16), HexDigit(b as int % 16)]
  }

  function QueryEscape(s: Bytes): (r: Bytes)
    ensures COLON !in r
  {
    if s == [] then [] else EscapeByte(s[0]) + QueryEscape(s[1..])
  }

  /** Percent-decoding, section 2.1 of RFC 3986, with "+" for a space. */
  function QueryUnescape(s: Bytes): (r: Bytes)
  {
    if s == [] then []
    else if s[0] == 37 && |s| >= 3 then
      var n := 16 * HexValue(s[1]) + HexValue(s[2]);
      (if 0 <= n < 256 then [n as Byte] else [37]) + QueryUnescape(s[3..])
    else if s[0] == 43 then [32] + QueryUnescape(s[1..])
    else [s[0]] + QueryUnescape(s[1..])
  }

  lemma UnescapeByte(b: Byte, rest: Bytes)
    ensures QueryUnescape(EscapeByte(b) + rest) == [b] + QueryUnescape(rest)
  {
    var e := EscapeByte(b);
    var s := e + rest;
    if Unreserved(b) || b == 32 {
      assert s[0] == e[0] && s[1..] == rest;
    } else {
      assert s[0] == e[0] && s[1] == e[1] && s[2] == e[2] && s[3..] == rest;
      assert b as int == 16 * (b as int / 16) + b as int % 16;
    }
  }

  /** Percent-decoding is a left inverse of escaping, for every byte string. */
  lemma {:induction false} EscapeRoundTrip(s: Bytes)
    ensures QueryUnescape(QueryEscape(s)) == s
  {
    if s != [] {
      UnescapeByte(s[0], QueryEscape(s[1..]));
      EscapeRoundTrip(s[1..]);
      assert s == [s[0]] + s[1..];
    }
  }

  // ---- Keys --------------------------------------------------------------------------------

  function RecordKey(prefix: Bytes, id: Bytes): (k: Bytes)
  {
    prefix + [COLON] + id
  }

  datatype Triple = Triple(session: Bytes, tool: Bytes, correlation: Bytes)

  function Trimmed(t: Triple): (r: Triple)
  {
    Triple(Trim(t.session), Trim(t.tool), Trim(t.correlation))
  }

  /** A trimmed triple that has a correlation key. */
  predicate Full(t: Triple)
  {
    t.session != [] && t.tool != [] && t.correlation != []
  }

  function EscapedTail(t: Triple): (r: Bytes)
  {
    QueryEscape(t.session) + [COLON] + (QueryEscape(t.tool) + [COLON] + QueryEscape(t.correlation))
  }

  function CorrelationKey(prefix: Bytes, request: Triple): (k: Bytes)
  {
    TrimmedKey(prefix, Trimmed(request))
  }

  function TrimmedKey(prefix: Bytes, t: Triple): (k: Bytes)
  {
    if !Full(t) then [] else prefix + Lit(":corr:") + EscapedTail(t)
  }

  lemma QueryEscapeInjective(a: Bytes, b: Bytes)
    requires QueryEscape(a) == QueryEscape(b)
    ensures a == b
  {
    EscapeRoundTrip(a);
    EscapeRoundTrip(b);
  }

  lemma EscapedTailInjective(x: Triple, y: Triple)
    requires EscapedTail(x) == EscapedTail(y)
    ensures x == y
  {
    var u, v := QueryEscape(x.tool) + [COLON] + QueryEscape(x.correlation), QueryEscape(y.tool) + [COLON] + QueryEscape(y.correlation);
    assert EscapedTail(x) == QueryEscape(x.session) + [COLON] + u && EscapedTail(y) == QueryEscape(y.session) + [COLON] + v;
    GoStrings.CutAt(QueryEscape(x.session), COLON, u, QueryEscape(y.session), v);
    GoStrings.CutAt(QueryEscape(x.tool), COLON, QueryEscape(x.correlation), QueryEscape(y.tool), QueryEscape(y.correlation));
    QueryEscapeInjective(x.session, y.session);
    QueryEscapeInjective(x.tool, y.tool);
    QueryEscapeInjective(x.correlation, y.correlation);
  }

  lemma TrimmedKeyInjective(prefix: Bytes, x: Triple, y: Triple)
    requires TrimmedKey(prefix, x) == TrimmedKey(prefix, y) != []
    ensures x == y
  {
    GoStrings.SameTail(prefix + Lit(":corr:"), EscapedTail(x), EscapedTail(y));
    EscapedTailInjective(x, y);
  }

  /** Two requests share a correlation key exactly when they trim to the same full triple. */
  lemma CorrelationKeyInjective(prefix: Bytes, a: Triple, b: Triple)
    requires CorrelationKey(prefix, a) != []
    ensures CorrelationKey(prefix, a) == CorrelationKey(prefix, b) <==> Trimmed(a) == Trimmed(b)
  {
    if CorrelationKey(prefix, a) == CorrelationKey(prefix, b) { TrimmedKeyInjective(prefix, Trimmed(a), Trimmed(b)); }
  }

  /** IDs made by the service start with "inv-". */
  predicate ServiceId(id: Bytes)
  {
    Lit("inv-") <= id
  }

  lemma KeySpacesDisjoint(prefix: Bytes, id: Bytes, request: Triple)
    requires ServiceId(id)
    ensures RecordKey(prefix, id) != CorrelationKey(prefix, request)
  {
    var k := RecordKey(prefix, id);
    assert id[0] == Lit("inv-")[0];
    assert k[|prefix| + 1] == 105;
    if Full(Trimmed(request)) {
      var head := prefix + Lit(":corr:");
      assert head[|prefix| + 1] == Lit(":corr:")[1] == 99;
      assert CorrelationKey(prefix, request)[|prefix| + 1] == 99;
    }
  }

  // ---- The store ---------------------------------------------------------------------------

  /** A record: `payload` stands for the stored fields, `output` and `logs` are not stored. */
  datatype Invocation = Invocation(id: Bytes, request: Triple, payload: string, output: string, logs: string)

  datatype Value = Envelope(id: Bytes, request: Triple, payload: string) | IdValue(id: Bytes)

  datatype Lookup = Missing | Found(inv: Invocation) | Corrupt

  function ToEnvelope(inv: Invocation): (v: Value)
  {
    Envelope(inv.id, inv.request, inv.payload)
  }

  function FromEnvelope(v: Value): (inv: Invocation)
    requires v.Envelope?
  {
    Invocation(v.id, v.request, v.payload, "", "")
  }

  function Set(kv: map<Bytes, Value>, k: Bytes, v: Value): (r: map<Bytes, Value>)
  {
    kv[k := v]
  }

  function SetNX(kv: map<Bytes, Value>, k: Bytes, v: Value): (r: map<Bytes, Value>)
  {
    if k in kv then kv else kv[k := v]
  }

  /** A save as the server saw it: the record written, and its index entry written or not. */
  datatype Write = Write(inv: Invocation, indexed: bool)

  function Written(kv: map<Bytes, Value>, prefix: Bytes, w: Write): (r: map<Bytes, Value>)
  {
    var kv' := Set(kv, RecordKey(prefix, w.inv.id), ToEnvelope(w.inv));
    var c := CorrelationKey(prefix, w.inv.request);
    if c == [] || !w.indexed then kv' else SetNX(kv', c, IdValue(w.inv.id))
  }

  function Get(kv: map<Bytes, Value>, prefix: Bytes, id: Bytes): (r: Lookup)
  {
    var k := RecordKey(prefix, id);
    if k !in kv then Missing
    else if kv[k].IdValue? then Corrupt
    else Found(FromEnvelope(kv[k]))
  }

  function FindByCorrelation(kv: map<Bytes, Value>, prefix: Bytes, request: Triple): (r: Lookup)
  {
    var c := CorrelationKey(prefix, request);
    if c == [] || c !in kv then Missing
    else if kv[c].Envelope? then Corrupt
    else Get(kv, prefix, kv[c].id)
  }

  function Replay(prefix: Bytes, history: seq<Write>): (kv: map<Bytes, Value>)
  {
    if history == [] then map[] else Written(Replay(prefix, history[..|history| - 1]), prefix, history[|history| - 1])
  }

  /** The first indexed record whose request trims to the given triple. */
  function FirstFor(history: seq<Write>, t: Triple): (r: Option<Invocation>)
  {
    if history == [] then None
    else
      var front, w := history[..|history| - 1], history[|history| - 1];
      if FirstFor(front, t).Some? then FirstFor(front, t)
      else if w.indexed && Trimmed(w.inv.request) == t then Some(w.inv) else None
  }

  function LastWithId(history: seq<Write>, id: Bytes): (r: Option<Invocation>)
  {
    if history == [] then None
    else if history[|history| - 1].inv.id == id then Some(history[|history| - 1].inv)
    else LastWithId(history[..|history| - 1], id)
  }

  /** The first for a triple comes from the earlier part of a history if that has one. */
  lemma {:induction false} FirstForConcat(a: seq<Write>, b: seq<Write>, t: Triple)
    ensures FirstFor(a + b, t) == if FirstFor(a, t).Some? then FirstFor(a, t) else FirstFor(b, t)
    decreases |b|
  {
    if b == [] {
      assert a + b == a;
    } else {
      var n := |b| - 1;
      FirstForConcat(a, b[..n], t);
      assert (a + b)[..|a + b| - 1] == a + b[..n] && (a + b)[|a + b| - 1] == b[n];
    }
  }

  /** A single write counts exactly when it is indexed and its request trims to the triple. */
  lemma FirstForOne(w: Write, t: Triple)
    ensures FirstFor([w], t) == if w.indexed && Trimmed(w.inv.request) == t then Some(w.inv) else None
  {
    assert [w][..0] == [];
  }

  /** The last version of an ID: no later write has it. */
  lemma {:induction false} LastMeaning(history: seq<Write>, id: Bytes, inv: Invocation)
    ensures LastWithId(history, id) == Some(inv) <==>
            exists i :: 0 <= i < |history| && history[i].inv == inv && inv.id == id
                        && forall j :: i < j < |history| ==> history[j].inv.id != id
  {
    if history != [] {
      var n := |history| - 1;
      var front := history[..n];
      LastMeaning(front, id, inv);
      if history[n].inv.id != id {
        assert forall i :: 0 <= i < n ==> front[i] == history[i];
        if LastWithId(front, id) == Some(inv) {
          var i :| 0 <= i < n && front[i].inv == inv && inv.id == id && forall j :: i < j < n ==> front[j].inv.id != id;
          assert history[i].inv == inv && forall j :: i < j < |history| ==> history[j].inv.id != id;
        }
      }
    }
  }

  predicate ServiceIds(history: seq<Write>)
  {
    forall i :: 0 <= i < |history| ==> ServiceId(history[i].inv.id)
  }

  /** What the one key space holds after a history of saves of service-made IDs. */
  lemma {:induction false} ReplayMeaning(prefix: Bytes, history: seq<Write>, request: Triple, id: Bytes)
    requires ServiceIds(history) && ServiceId(id)
    ensures var kv := Replay(prefix, history);
            var k, c := RecordKey(prefix, id), CorrelationKey(prefix, request);
            var last, first := LastWithId(history, id), FirstFor(history, Trimmed(request));
            && (k in kv <==> last.Some?) && (last.Some? ==> kv[k] == ToEnvelope(last.value))
            && (c != [] ==> (c in kv <==> first.Some?) && (first.Some? ==> kv[c] == IdValue(first.value.id)))
  {
    if history != [] {
      var front, inv := history[..|history| - 1], history[|history| - 1].inv;
      ReplayMeaning(prefix, front, request, id);
      KeySpacesDisjoint(prefix, inv.id, request);
      KeySpacesDisjoint(prefix, id, request);
      KeySpacesDisjoint(prefix, id, inv.request);
      KeySpacesDisjoint(prefix, inv.id, inv.request);
      var k, k' := RecordKey(prefix, id), RecordKey(prefix, inv.id);
      assert id == k[|prefix| + 1..] && inv.id == k'[|prefix| + 1..];
      if CorrelationKey(prefix, request) != [] { CorrelationKeyInjective(prefix, request, inv.request); }
    }
  }

  /** What a scan of the history answers: the last version of the record saved first for the
      triple, as far as it is stored. */
  function Scan(history: seq<Write>, t: Triple): (r: Lookup)
  {
    match FirstFor(history, t)
    case None => Missing
    case Some(first) =>
      match LastWithId(history, first.id)
      case None => Missing
      case Some(last) => Found(FromEnvelope(ToEnvelope(last)))
  }

  /** What a lookup finds carries the ID of the first indexed record for the triple, and the ID,
      request and payload of the last version of that record; output and logs are gone. */
  lemma ScanMeaning(history: seq<Write>, t: Triple, inv: Invocation)
    ensures Scan(history, t) == Found(inv) <==>
            exists first, last :: FirstFor(history, t) == Some(first) && LastWithId(history, first.id) == Some(last)
              && inv.id == last.id && inv.request == last.request && inv.payload == last.payload && inv.output == "" && inv.logs == ""
    ensures Scan(history, t) != Corrupt
  {
  }

  lemma {:induction false} FirstIsSaved(history: seq<Write>, t: Triple)
    requires FirstFor(history, t).Some?
    ensures Write(FirstFor(history, t).value, true) in history
    ensures LastWithId(history, FirstFor(history, t).value.id).Some?
  {
    var front := history[..|history| - 1];
    if FirstFor(front, t).Some? { FirstIsSaved(front, t); }
  }

  /** For every history of writes, index entries lost or not, a lookup by correlation returns the last saved version, less
      output and logs, of the record first indexed for the same trimmed request; it finds nothing
      exactly when there is none, and never a value of the wrong kind. */
  lemma FindScansHistory(prefix: Bytes, history: seq<Write>, request: Triple)
    requires ServiceIds(history) && Full(Trimmed(request))
    ensures FindByCorrelation(Replay(prefix, history), prefix, request) == Scan(history, Trimmed(request))
    ensures Scan(history, Trimmed(request)).Missing? <==> FirstFor(history, Trimmed(request)).None?
  {
    var first := FirstFor(history, Trimmed(request));
    if first.Some? {
      FirstIsSaved(history, Trimmed(request));
      ReplayMeaning(prefix, history, request, first.value.id);
    } else {
      ReplayMeaning(prefix, history, request, Lit("inv-"));
    }
  }

  // ---- The code ------------------------------------------------------------------------------

  /** Where a save goes wrong. A command may take effect although its answer is an error. */
  datatype Fault = NoFault | SetLost | SetUnanswered | IndexLost | IndexUnanswered

  class ValkeyInvocationStore {
    const keyPrefix: Bytes
    var kv: map<Bytes, Value>
    ghost var history: seq<Write>

    ghost predicate Valid()
      reads this
    {
      kv == Replay(keyPrefix, history) && ServiceIds(history)
    }

    constructor (prefix: Bytes)
      ensures Valid() && history == [] && keyPrefix == prefix
    {
      keyPrefix, kv, history := prefix, map[], [];
    }

    /** Two commands, either of which can fail: success means the record is written and indexed;
        after a failure it may be written without an index entry, or not at all. */
    method Save(inv: Invocation, fault: Fault) returns (ok: bool)
      requires Valid() && ServiceId(inv.id)
      modifies this
      ensures Valid()
      ensures var keyed := Full(Trimmed(inv.request));
              && (ok <==> fault.NoFault? || (!keyed && (fault.IndexLost? || fault.IndexUnanswered?)))
              && history == old(history) +
                   if fault.SetLost? then [] else [Write(inv, !fault.SetUnanswered? && !(fault.IndexLost? && keyed))]
    {
      if fault.SetLost? { return false; }
      kv := Set(kv, RecordKey(keyPrefix, inv.id), ToEnvelope(inv));
      if fault.SetUnanswered? {
        Record(Write(inv, false));
        return false;
      }
      var key := CorrelationKey(keyPrefix, inv.request);
      if key != [] {
        if fault.IndexLost? {
          Record(Write(inv, false));
          return false;
        }
        kv := SetNX(kv, key, IdValue(inv.id));
        Record(Write(inv, true));
        return !fault.IndexUnanswered?;
      }
      Record(Write(inv, true));
      return true;
    }

    ghost method Record(w: Write)
      requires ServiceIds(history) && ServiceId(w.inv.id) && kv == Written(Replay(keyPrefix, history), keyPrefix, w)
      modifies this`history
      ensures Valid() && history == old(history) + [w]
    {
      history := history + [w];
      assert history[..|history| - 1] == old(history);
    }

    method FindByCorrelation(request: Triple) returns (r: Lookup)
      requires Valid()
      ensures r == if Full(Trimmed(request)) then Scan(history, Trimmed(request)) else Missing
    {
      var key := CorrelationKey(keyPrefix, request);
      if key == [] { return Missing; }
      FindScansHistory(keyPrefix, history, request);
      if key !in kv { return Missing; }
      var value := kv[key];
      if value.Envelope? { return Corrupt; }
      r := Get(kv, keyPrefix, value.id);
    }
  }
}
