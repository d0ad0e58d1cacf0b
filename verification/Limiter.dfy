/** The invocation quota limiter: per-minute windows for sessions and principals, and the
    in-flight slots of a session. */
module Limiter {
  import opened Common
  import opened GoStrings

  // ---- One window counter ----------------------------------------------------------------

  /** A window counter; `start` is the minute the window began, 0 being Go's zero time. */
  datatype Window = Window(start: int, count: nat)

  const NO_WINDOW := Window(0, 0)

  /** The counter for the minute `minute`: the stored one, or a fresh one. */
  function Current(w: Window, minute: int): (r: Window)
  {
    if w.start == 0 || w.start != minute then Window(minute, 0) else w
  }

  function Bump(w: Window, minute: int, max: int): (r: (Window, bool))
  {
    var c := Current(w, minute);
    if c.count >= max then (c, false) else (c.(count := c.count + 1), true)
  }

  /** Calls let through in the given minute. */
  function Passed(w: Window, minutes: seq<int>, max: int, minute: int): (n: nat)
    decreases |minutes|
  {
    if minutes == [] then 0
    else
      var (w', ok) := Bump(w, minutes[0], max);
      (if ok && minutes[0] == minute then 1 else 0) + Passed(w', minutes[1..], max, minute)
  }

  /** Once a minute has been left it does not come back. */
  ghost predicate Contiguous(minutes: seq<int>)
  {
    forall i, j, k :: 0 <= i < j < k < |minutes| && minutes[i] == minutes[k] ==> minutes[j] == minutes[i]
  }

  ghost predicate NonDecreasing(minutes: seq<int>)
  {
    forall i, j :: 0 <= i < j < |minutes| ==> minutes[i] <= minutes[j]
  }

  lemma {:induction false} PassedNone(w: Window, minutes: seq<int>, max: int, minute: int)
    requires minute !in minutes
    ensures Passed(w, minutes, max, minute) == 0
    decreases |minutes|
  {
    if minutes != [] { PassedNone(Bump(w, minutes[0], max).0, minutes[1..], max, minute); }
  }

  /** Calls made in the given minute. */
  function Made(minutes: seq<int>, minute: int): (n: nat)
  {
    if minutes == [] then 0 else (if minutes[0] == minute then 1 else 0) + Made(minutes[1..], minute)
  }

  lemma {:induction false} MadeNone(minutes: seq<int>, minute: int)
    requires minute !in minutes
    ensures Made(minutes, minute) == 0
  {
    if minutes != [] { MadeNone(minutes[1..], minute); }
  }

  lemma ContiguousRest(minutes: seq<int>)
    requires minutes != [] && Contiguous(minutes)
    ensures Contiguous(minutes[1..])
    ensures |minutes| > 1 && minutes[1] != minutes[0] ==> minutes[0] !in minutes[1..]
  {
    var rest := minutes[1..];
    forall i, j, k | 0 <= i < j < k < |rest| && rest[i] == rest[k] ensures rest[j] == rest[i] {
      assert minutes[i + 1] == minutes[k + 1];
      assert minutes[j + 1] == minutes[i + 1];
    }
    if |minutes| > 1 && minutes[1] != minutes[0] {
      forall k | 0 <= k < |rest| ensures rest[k] != minutes[0] { assert rest[k] == minutes[k + 1]; }
    }
  }

  /** No call is refused needlessly: in each minute exactly as many calls pass as were made, up
      to what the limit leaves. */
  lemma {:induction false} PassedExact(w: Window, minutes: seq<int>, max: int, minute: int)
    requires minute != 0 && max > 0 && w.count <= max && Contiguous(minutes)
    requires w.start == minute ==> minutes == [] || minutes[0] == minute || minute !in minutes
    ensures Passed(w, minutes, max, minute) ==
            Min(if w.start == minute then max - w.count else max, Made(minutes, minute))
    decreases |minutes|
  {
    if minutes != [] {
      var w', rest := Bump(w, minutes[0], max).0, minutes[1..];
      ContiguousRest(minutes);
      PassedExact(w', rest, max, minute);
      if minutes[0] != minute && w.start == minute { MadeNone(minutes, minute); }
    }
  }

  /** After a call of another minute at `j`, the next call at minute `m` passes. */
  lemma {:induction false} LaterPass(w: Window, minutes: seq<int>, j: nat, k: nat, m: int)
    requires j < k < |minutes| && minutes[j] != m && minutes[k] == m
    ensures Passed(w, minutes, 1, m) >= 1
    decreases |minutes|
  {
    var w' := Bump(w, minutes[0], 1).0;
    if j > 0 {
      LaterPass(w', minutes[1..], j - 1, k - 1, m);
    } else if minutes[1] == m {
      assert minutes[1..][0] == m;
      assert Bump(w', m, 1).1;
    } else {
      LaterPass(w', minutes[1..], 0, k - 1, m);
    }
  }

  /** A minute that is left and comes back lets two calls through at limit 1. */
  lemma {:induction false} PassedTwice(w: Window, minutes: seq<int>, i: nat, j: nat, k: nat)
    requires i < j < k < |minutes| && minutes[i] == minutes[k] != minutes[j]
    requires w.start != minutes[i]
    ensures Passed(w, minutes, 1, minutes[i]) >= 2
    decreases |minutes|
  {
    var m := minutes[i];
    var w' := Bump(w, minutes[0], 1).0;
    if minutes[0] == m {
      LaterPass(w', minutes[1..], j - 1, k - 1, m);
    } else {
      PassedTwice(w', minutes[1..], i - 1, j - 1, k - 1);
    }
  }

  /** A window counter keeps every limit in every minute exactly when no minute comes back
      after the clock moved on; a non-decreasing clock is enough. */
  lemma WindowLimitExact(minutes: seq<int>)
    requires forall i :: 0 <= i < |minutes| ==> minutes[i] != 0
    ensures (forall max: int, m: int :: max > 0 ==> Passed(NO_WINDOW, minutes, max, m) <= max) <==> Contiguous(minutes)
    ensures NonDecreasing(minutes) ==> Contiguous(minutes)
  {
    if Contiguous(minutes) {
      forall max: int, m: int | max > 0 ensures Passed(NO_WINDOW, minutes, max, m) <= max {
        if m == 0 { PassedNone(NO_WINDOW, minutes, max, m); } else { PassedExact(NO_WINDOW, minutes, max, m); }
      }
    } else {
      var i, j, k :| 0 <= i < j < k < |minutes| && minutes[i] == minutes[k] && minutes[j] != minutes[i];
      PassedTwice(NO_WINDOW, minutes, i, j, k);
      assert Passed(NO_WINDOW, minutes, 1, minutes[i]) > 1;
    }
    if NonDecreasing(minutes) {
      forall i, j, k | 0 <= i < j < k < |minutes| && minutes[i] == minutes[k] ensures minutes[j] == minutes[i] {
        assert minutes[i] <= minutes[j] <= minutes[k];
      }
    }
  }

  // ---- The two-level rate check ------------------------------------------------------------

  datatype Principal = Principal(tenantId: string, actorId: string)

  /** A rate check: the session, its principal and the minute of the call. */
  datatype Request = Request(sessionId: string, principal: Principal, minute: int)

  datatype Level = BySession | ByPrincipal

  datatype Caps = Caps(perSession: int, perPrincipal: int, lower: char -> char)

  datatype Rates = Rates(sessions: map<string, Window>, principals: map<string, Window>)

  function PrincipalQuotaKey(p: Principal, lower: char -> char): (k: string)
  {
    var tenant, actor := Trim(p.tenantId), Trim(p.actorId);
    if tenant == "" && actor == "" then "" else ToLower(tenant, lower) + ":" + ToLower(actor, lower)
  }

  function Key(level: Level, r: Request, lower: char -> char): (k: string)
  {
    match level
    case BySession => Trim(Trim(r.sessionId))
    case ByPrincipal =>
      var k := PrincipalQuotaKey(r.principal, lower);
      Trim(if k == "" then Trim(r.sessionId) else k)
  }

  function Cap(level: Level, caps: Caps): (max: int)
  {
    if level.BySession? then caps.perSession else caps.perPrincipal
  }

  function Table(level: Level, l: Rates): (t: map<string, Window>)
  {
    if level.BySession? then l.sessions else l.principals
  }

  function Get(t: map<string, Window>, key: string): (w: Window)
  {
    if key in t then t[key] else NO_WINDOW
  }

  /** A limit that is not positive, or a blank key, is not counted. */
  predicate Counted(key: string, max: int)
  {
    max > 0 && key != ""
  }

  function Increment(t: map<string, Window>, key: string, minute: int, max: int): (r: (map<string, Window>, bool))
  {
    if !Counted(key, max) then (t, true)
    else var (w, ok) := Bump(Get(t, key), minute, max); (t[key := w], ok)
  }

  /** The session window is charged first; the principal window only if that passed. */
  function AllowRate(l: Rates, caps: Caps, r: Request): (res: (Rates, bool))
  {
    var (sessions, ok) := Increment(l.sessions, Key(BySession, r, caps.lower), r.minute, caps.perSession);
    if !ok then (l.(sessions := sessions), false)
    else
      var (principals, ok') := Increment(l.principals, Key(ByPrincipal, r, caps.lower), r.minute, caps.perPrincipal);
      (Rates(sessions, principals), ok')
  }

  function Outcomes(l: Rates, caps: Caps, reqs: seq<Request>): (r: seq<bool>)
    ensures |r| == |reqs|
    decreases |reqs|
  {
    if reqs == [] then []
    else var (l', ok) := AllowRate(l, caps, reqs[0]); [ok] + Outcomes(l', caps, reqs[1..])
  }

  /** Calls allowed for one key in one minute. */
  function Tally(level: Level, lower: char -> char, reqs: seq<Request>, oks: seq<bool>, key: string, minute: int): (n: nat)
    requires |oks| == |reqs|
  {
    if reqs == [] then 0
    else
      (if oks[0] && Key(level, reqs[0], lower) == key && reqs[0].minute == minute then 1 else 0)
      + Tally(level, lower, reqs[1..], oks[1..], key, minute)
  }

  /** The minutes at which one key is checked. */
  function KeyMinutes(level: Level, lower: char -> char, reqs: seq<Request>, key: string): (minutes: seq<int>)
  {
    if reqs == [] then []
    else
      (if Key(level, reqs[0], lower) == key then [reqs[0].minute] else []) + KeyMinutes(level, lower, reqs[1..], key)
  }

  lemma {:induction false} TallyNone(level: Level, lower: char -> char, reqs: seq<Request>, oks: seq<bool>, key: string, minute: int)
    requires |oks| == |reqs| && minute !in KeyMinutes(level, lower, reqs, key)
    ensures Tally(level, lower, reqs, oks, key, minute) == 0
  {
    if reqs != [] { TallyNone(level, lower, reqs[1..], oks[1..], key, minute); }
  }

  /** One check leaves the windows of other keys alone and bumps its own at most once; an allowed
      call did bump it, and with the other level's limit off the bump decides. */
  lemma LevelStep(level: Level, l: Rates, caps: Caps, r: Request, key: string)
    requires Counted(key, Cap(level, caps))
    ensures var (l', ok) := AllowRate(l, caps, r);
            var w, w' := Get(Table(level, l), key), Get(Table(level, l'), key);
            var (b, passed) := Bump(w, r.minute, Cap(level, caps));
            if Key(level, r, caps.lower) != key then w' == w
            else (w' == w || w' == b) && (ok ==> passed && w' == b) && (Alone(level, caps) ==> w' == b && ok == passed)
  {
    var (sessions, ok) := Increment(l.sessions, Key(BySession, r, caps.lower), r.minute, caps.perSession);
    assert level.BySession? ==> Table(level, AllowRate(l, caps, r).0) == sessions;
  }

  /** The limit of the other level is off. */
  predicate Alone(level: Level, caps: Caps)
  {
    (if level.BySession? then caps.perPrincipal else caps.perSession) <= 0
  }

  /** The first request and the rest, as the tally sees them. */
  lemma TallyFirst(level: Level, l: Rates, caps: Caps, reqs: seq<Request>, key: string, minute: int)
    requires reqs != []
    ensures var (l', ok) := AllowRate(l, caps, reqs[0]);
            Tally(level, caps.lower, reqs, Outcomes(l, caps, reqs), key, minute) ==
            (if ok && Key(level, reqs[0], caps.lower) == key && reqs[0].minute == minute then 1 else 0)
            + Tally(level, caps.lower, reqs[1..], Outcomes(l', caps, reqs[1..]), key, minute)
  {
    var res := AllowRate(l, caps, reqs[0]);
    var oks := Outcomes(res.0, caps, reqs[1..]);
    assert Outcomes(l, caps, reqs) == [res.1] + oks;
    assert ([res.1] + oks)[1..] == oks;
  }

  /** A level on its own lets through exactly what the window counter of each key lets through on
      the minutes at which that key is checked, in whatever order. */
  lemma {:induction false} TallyIsPassed(level: Level, l: Rates, caps: Caps, reqs: seq<Request>, key: string, minute: int)
    requires Counted(key, Cap(level, caps)) && Alone(level, caps)
    ensures Tally(level, caps.lower, reqs, Outcomes(l, caps, reqs), key, minute) ==
            Passed(Get(Table(level, l), key), KeyMinutes(level, caps.lower, reqs, key), Cap(level, caps), minute)
    decreases |reqs|
  {
    if reqs != [] {
      var l', rest := AllowRate(l, caps, reqs[0]).0, KeyMinutes(level, caps.lower, reqs[1..], key);
      LevelStep(level, l, caps, reqs[0], key);
      TallyFirst(level, l, caps, reqs, key, minute);
      TallyIsPassed(level, l', caps, reqs[1..], key, minute);
      if Key(level, reqs[0], caps.lower) == key {
        PassedFirst(Get(Table(level, l), key), reqs[0].minute, rest, Cap(level, caps), minute);
      } else {
        assert [] + rest == rest;
      }
    }
  }

  lemma PassedFirst(w: Window, at: int, rest: seq<int>, max: int, minute: int)
    ensures var (w', ok) := Bump(w, at, max);
            Passed(w, [at] + rest, max, minute) == (if ok && at == minute then 1 else 0) + Passed(w', rest, max, minute)
  {
    assert ([at] + rest)[1..] == rest;
  }

  /** What a counter already holds for a minute. */
  function Used(w: Window, minute: int): (n: nat)
  {
    if w.start == minute then w.count else 0
  }

  /** The room one counter leaves in a minute after a check of its key, given the room before. */
  lemma BumpRoom(w: Window, w': Window, at: int, minute: int, max: int, hit: bool, later: nat)
    requires w.count <= max && minute != 0 && 0 < max
    requires w' == w || w' == Bump(w, at, max).0
    requires hit ==> at == minute && Bump(w, at, max).1 && w' == Bump(w, at, max).0
    requires w.start == minute && at != minute ==> later == 0
    requires Used(w', minute) + later <= max
    ensures Used(w, minute) + (if hit then 1 else 0) + later <= max
  {
  }

  /** The minute is the next one checked, or is not checked any more. */
  predicate Upcoming(minutes: seq<int>, minute: int)
  {
    minutes == [] || minutes[0] == minute || minute !in minutes
  }

  /** After a check at `at` a window of the minute is still one for an upcoming minute. */
  lemma UpcomingRest(w: Window, at: int, rest: seq<int>, minute: int)
    requires Contiguous([at] + rest) && (w.start == minute ==> Upcoming([at] + rest, minute))
    ensures w.start == minute || at == minute ==> Upcoming(rest, minute)
    ensures w.start == minute && at != minute ==> minute !in rest
  {
    assert ([at] + rest)[1..] == rest;
    ContiguousRest([at] + rest);
  }

  lemma {:induction false} TallyBound(level: Level, l: Rates, caps: Caps, reqs: seq<Request>, key: string, minute: int)
    requires Counted(key, Cap(level, caps)) && minute != 0
    requires Contiguous(KeyMinutes(level, caps.lower, reqs, key))
    requires var w := Get(Table(level, l), key);
             w.count <= Cap(level, caps) && (w.start == minute ==> Upcoming(KeyMinutes(level, caps.lower, reqs, key), minute))
    ensures Used(Get(Table(level, l), key), minute)
            + Tally(level, caps.lower, reqs, Outcomes(l, caps, reqs), key, minute) <= Cap(level, caps)
    decreases |reqs|
  {
    if reqs != [] {
      var r, l', rest := reqs[0], AllowRate(l, caps, reqs[0]).0, reqs[1..];
      var w, w' := Get(Table(level, l), key), Get(Table(level, l'), key);
      var km, later := KeyMinutes(level, caps.lower, rest, key), Tally(level, caps.lower, rest, Outcomes(l', caps, rest), key, minute);
      LevelStep(level, l, caps, r, key);
      TallyFirst(level, l, caps, reqs, key, minute);
      if Key(level, r, caps.lower) == key {
        assert ([r.minute] + km)[1..] == km;
        ContiguousRest([r.minute] + km);
        UpcomingRest(w, r.minute, km, minute);
        if w.start == minute && r.minute != minute { TallyNone(level, caps.lower, rest, Outcomes(l', caps, rest), key, minute); }
        assert w'.start == minute ==> Upcoming(km, minute);
        TallyBound(level, l', caps, rest, key, minute);
        BumpRoom(w, w', r.minute, minute, Cap(level, caps), AllowRate(l, caps, r).1 && r.minute == minute, later);
      } else {
        assert [] + km == km;
        TallyBound(level, l', caps, rest, key, minute);
      }
    }
  }

  /** At most the configured number of calls of a session, and of a principal, pass in any minute,
      for every sequence of checks in which no minute of that key comes back after the clock moved
      on. Checks of other keys may come in any order. */
  lemma RateLimit(level: Level, caps: Caps, reqs: seq<Request>, key: string, minute: int)
    requires Contiguous(KeyMinutes(level, caps.lower, reqs, key)) && minute != 0
    requires Counted(key, Cap(level, caps))
    ensures Tally(level, caps.lower, reqs, Outcomes(Rates(map[], map[]), caps, reqs), key, minute) <= Cap(level, caps)
  {
    TallyBound(level, Rates(map[], map[]), caps, reqs, key, minute);
  }

  /** The two-level check keeps every limit of a key in every minute exactly when no minute of
      that key comes back after the clock moved on, at both levels. */
  lemma RateLimitExact(level: Level, lower: char -> char, reqs: seq<Request>, key: string)
    requires key != "" && 0 !in KeyMinutes(level, lower, reqs, key)
    ensures (forall caps: Caps, m: int :: caps.lower == lower && Cap(level, caps) > 0 ==>
               Tally(level, lower, reqs, Outcomes(Rates(map[], map[]), caps, reqs), key, m) <= Cap(level, caps))
            <==> Contiguous(KeyMinutes(level, lower, reqs, key))
  {
    var none, minutes := Rates(map[], map[]), KeyMinutes(level, lower, reqs, key);
    if Contiguous(minutes) {
      forall caps: Caps, m: int | caps.lower == lower && Cap(level, caps) > 0
        ensures Tally(level, lower, reqs, Outcomes(none, caps, reqs), key, m) <= Cap(level, caps)
      {
        if m == 0 { TallyNone(level, lower, reqs, Outcomes(none, caps, reqs), key, m); } else { RateLimit(level, caps, reqs, key, m); }
      }
    } else {
      var i, j, k :| 0 <= i < j < k < |minutes| && minutes[i] == minutes[k] && minutes[j] != minutes[i];
      var caps := if level.BySession? then Caps(1, 0, lower) else Caps(0, 1, lower);
      PassedTwice(NO_WINDOW, minutes, i, j, k);
      TallyIsPassed(level, none, caps, reqs, key, minutes[i]);
      assert Tally(level, lower, reqs, Outcomes(none, caps, reqs), key, minutes[i]) > Cap(level, caps);
    }
  }

  /** No call is refused needlessly: with one level's limit only, exactly the smaller of the limit
      and the number of checks of the key passes in each minute. */
  lemma LimitExact(level: Level, caps: Caps, reqs: seq<Request>, key: string, minute: int)
    requires Contiguous(KeyMinutes(level, caps.lower, reqs, key)) && minute != 0
    requires Alone(level, caps) && Counted(key, Cap(level, caps))
    ensures Tally(level, caps.lower, reqs, Outcomes(Rates(map[], map[]), caps, reqs), key, minute)
            == Min(Cap(level, caps), Made(KeyMinutes(level, caps.lower, reqs, key), minute))
  {
    TallyIsPassed(level, Rates(map[], map[]), caps, reqs, key, minute);
    PassedExact(NO_WINDOW, KeyMinutes(level, caps.lower, reqs, key), Cap(level, caps), minute);
  }

  /** A call denied by the principal limit is still counted in its session window. */
  lemma PrincipalDenialIsCharged(l: Rates, caps: Caps, r: Request)
    requires Counted(Key(BySession, r, caps.lower), caps.perSession)
    requires var w := Current(Get(l.sessions, Key(BySession, r, caps.lower)), r.minute); w.count < caps.perSession
    ensures var key := Key(BySession, r, caps.lower);
            var before, after := Current(Get(l.sessions, key), r.minute), AllowRate(l, caps, r).0.sessions;
            key in after && after[key] == Window(r.minute, before.count + 1)
  {
  }

  /** The limit is not kept when a minute comes back: two calls of one session pass in the same
      minute at limit 1. */
  lemma OutOfOrderExceeds(lower: char -> char, p: Principal)
    ensures var caps, reqs := Caps(1, 0, lower), [Request("s", p, 7), Request("s", p, 8), Request("s", p, 7)];
            Tally(BySession, lower, reqs, Outcomes(Rates(map[], map[]), caps, reqs), "s", 7) >= 2
  {
    var caps, a, b := Caps(1, 0, lower), Request("s", p, 7), Request("s", p, 8);
    TrimExact("s");
    assert [a, b, a][1..] == [b, a] && [b, a][1..] == [a] && [a][1..] == [];
    assert KeyMinutes(BySession, lower, [a], "s") == [7];
    assert KeyMinutes(BySession, lower, [b, a], "s") == [8, 7];
    assert KeyMinutes(BySession, lower, [a, b, a], "s") == [7, 8, 7];
    TallyIsPassed(BySession, Rates(map[], map[]), caps, [a, b, a], "s", 7);
    PassedTwice(NO_WINDOW, [7, 8, 7], 0, 1, 2);
  }

  // ---- Who shares a window ---------------------------------------------------------------------

  /** Lower-casing makes no white space out of other characters. */
  ghost predicate KeepsText(lower: char -> char)
  {
    forall c :: IsSpace(lower(c)) ==> IsSpace(c)
  }

  predicate Blank(p: Principal)
  {
    Trim(p.tenantId) == "" && Trim(p.actorId) == ""
  }

  function Folded(text: string, lower: char -> char): (r: string)
  {
    ToLower(Trim(text), lower)
  }

  lemma PrincipalKeyText(r: Request, lower: char -> char)
    requires KeepsText(lower)
    ensures Key(ByPrincipal, r, lower) ==
            if Blank(r.principal) then Trim(r.sessionId)
            else Folded(r.principal.tenantId, lower) + ":" + Folded(r.principal.actorId, lower)
  {
    var p := r.principal;
    TrimExact(r.sessionId);
    TrimExact(Trim(r.sessionId));
    TrimExact(p.tenantId);
    TrimExact(p.actorId);
    var key := Folded(p.tenantId, lower) + ":" + Folded(p.actorId, lower);
    assert !IsSpace(':');
    assert key[0] == if Trim(p.tenantId) == "" then ':' else lower(Trim(p.tenantId)[0]);
    assert key[|key| - 1] == if Trim(p.actorId) == "" then ':' else lower(Trim(p.actorId)[|Trim(p.actorId)| - 1]);
    TrimExact(key);
  }

  /** Whom a window stands for. Sessions share one exactly when their trimmed IDs agree. Principals
      whose tenants hold no colon share one exactly when trimmed and lower-cased tenant and actor
      both agree; a blank principal stands for its trimmed session. */
  lemma SharedWindow(r: Request, q: Request, lower: char -> char)
    requires KeepsText(lower)
    ensures Key(BySession, r, lower) == Key(BySession, q, lower) <==> Trim(r.sessionId) == Trim(q.sessionId)
    ensures var a, b := r.principal, q.principal;
            !Blank(a) && !Blank(b) && ':' !in Folded(a.tenantId, lower) && ':' !in Folded(b.tenantId, lower) ==>
              (Key(ByPrincipal, r, lower) == Key(ByPrincipal, q, lower) <==>
                 Folded(a.tenantId, lower) == Folded(b.tenantId, lower) && Folded(a.actorId, lower) == Folded(b.actorId, lower))
    ensures Blank(r.principal) ==> Key(ByPrincipal, r, lower) == Trim(r.sessionId)
  {
    TrimExact(r.sessionId);
    TrimExact(q.sessionId);
    TrimExact(Trim(r.sessionId));
    TrimExact(Trim(q.sessionId));
    PrincipalKeyText(r, lower);
    PrincipalKeyText(q, lower);
    var a, b := r.principal, q.principal;
    if !Blank(a) && !Blank(b) && ':' !in Folded(a.tenantId, lower) && ':' !in Folded(b.tenantId, lower)
       && Key(ByPrincipal, r, lower) == Key(ByPrincipal, q, lower) {
      CutAt(Folded(a.tenantId, lower), ':', Folded(a.actorId, lower), Folded(b.tenantId, lower), Folded(b.actorId, lower));
    }
  }

  /** With colons in tenants two principals can share a window without being the same. */
  lemma PrincipalKeyCollides(session: string, minute: int)
    ensures var lower := (c: char) => c;
            Key(ByPrincipal, Request(session, Principal("a:b", "c"), minute), lower) ==
            Key(ByPrincipal, Request(session, Principal("a", "b:c"), minute), lower)
  {
    var lower := (c: char) => c;
    TrimExact("a:b"); TrimExact("c"); TrimExact("a"); TrimExact("b:c");
    assert Folded("a:b", lower) == "a:b" && Folded("c", lower) == "c";
    assert Folded("a", lower) == "a" && Folded("b:c", lower) == "b:c";
    PrincipalKeyText(Request(session, Principal("a:b", "c"), minute), lower);
    PrincipalKeyText(Request(session, Principal("a", "b:c"), minute), lower);
  }

  /** A window is one minute of the clock: 60 seconds of nanoseconds, from its start on. */
  lemma WindowMinute(now: nat, k: nat)
    ensures now / NANOS_PER_MINUTE == k <==> k * 60 * 1_000_000_000 <= now < (k + 1) * 60 * 1_000_000_000
  {
  }

  // ---- Independence ----------------------------------------------------------------------------

  /** The two checks have no window in common; a blank key has none. */
  predicate Apart(r: Request, q: Request, lower: char -> char)
  {
    forall level: Level :: Key(level, r, lower) == "" || Key(level, r, lower) != Key(level, q, lower)
  }

  /** The windows of the check are the same in both. */
  predicate SameWindows(l: Rates, l': Rates, r: Request, lower: char -> char)
  {
    forall level: Level :: Get(Table(level, l), Key(level, r, lower)) == Get(Table(level, l'), Key(level, r, lower))
  }

  lemma IncrementOthers(t: map<string, Window>, key: string, minute: int, max: int, other: string)
    requires other == "" || other != key
    ensures Get(Increment(t, key, minute, max).0, other) == Get(t, other)
  {
  }

  /** A check leaves the windows of the checks apart from it alone. */
  lemma ApartKeeps(l: Rates, caps: Caps, q: Request, r: Request)
    requires Apart(r, q, caps.lower)
    ensures SameWindows(l, AllowRate(l, caps, q).0, r, caps.lower)
  {
    IncrementOthers(l.sessions, Key(BySession, q, caps.lower), q.minute, caps.perSession, Key(BySession, r, caps.lower));
    IncrementOthers(l.principals, Key(ByPrincipal, q, caps.lower), q.minute, caps.perPrincipal, Key(ByPrincipal, r, caps.lower));
    assert forall level: Level :: Table(level, AllowRate(l, caps, q).0) == if level.BySession?
      then Increment(l.sessions, Key(BySession, q, caps.lower), q.minute, caps.perSession).0
      else AllowRate(l, caps, q).0.principals;
  }

  lemma IncrementSame(t: map<string, Window>, t': map<string, Window>, key: string, minute: int, max: int, other: string)
    requires Get(t, key) == Get(t', key) && Get(t, other) == Get(t', other)
    ensures Increment(t, key, minute, max).1 == Increment(t', key, minute, max).1
    ensures Get(Increment(t, key, minute, max).0, other) == Get(Increment(t', key, minute, max).0, other)
  {
  }

  /** A check answers from its own windows alone, and leaves equal windows equal. */
  lemma AnswersFromWindows(l: Rates, l': Rates, caps: Caps, r: Request, other: Request)
    requires SameWindows(l, l', r, caps.lower) && SameWindows(l, l', other, caps.lower)
    ensures AllowRate(l, caps, r).1 == AllowRate(l', caps, r).1
    ensures SameWindows(AllowRate(l, caps, r).0, AllowRate(l', caps, r).0, other, caps.lower)
  {
    assert Table(BySession, l) == l.sessions && Table(ByPrincipal, l) == l.principals;
    assert Table(BySession, l') == l'.sessions && Table(ByPrincipal, l') == l'.principals;
    var s, p := Key(BySession, r, caps.lower), Key(ByPrincipal, r, caps.lower);
    assert Get(Table(BySession, l), s) == Get(Table(BySession, l'), s);
    assert Get(Table(ByPrincipal, l), p) == Get(Table(ByPrincipal, l'), p);
    var so, po := Key(BySession, other, caps.lower), Key(ByPrincipal, other, caps.lower);
    assert Get(Table(BySession, l), so) == Get(Table(BySession, l'), so);
    assert Get(Table(ByPrincipal, l), po) == Get(Table(ByPrincipal, l'), po);
    IncrementSame(l.sessions, l'.sessions, s, r.minute, caps.perSession, so);
    IncrementSame(l.principals, l'.principals, p, r.minute, caps.perPrincipal, po);
  }

  function Those(reqs: seq<Request>, mine: Request -> bool): (r: seq<Request>)
  {
    if reqs == [] then [] else (if mine(reqs[0]) then [reqs[0]] else []) + Those(reqs[1..], mine)
  }

  function Theirs(reqs: seq<Request>, oks: seq<bool>, mine: Request -> bool): (r: seq<bool>)
    requires |oks| == |reqs|
  {
    if reqs == [] then [] else (if mine(reqs[0]) then [oks[0]] else []) + Theirs(reqs[1..], oks[1..], mine)
  }

  /** Checks never change the answers of checks they share no window with: dropping all others
      from a sequence leaves the answers of the remaining ones as they were. */
  lemma {:induction false} Independent(l: Rates, l': Rates, caps: Caps, reqs: seq<Request>, mine: Request -> bool)
    requires forall r, q :: r in reqs && q in reqs && mine(r) && !mine(q) ==> Apart(r, q, caps.lower)
    requires forall r :: r in reqs && mine(r) ==> SameWindows(l, l', r, caps.lower)
    ensures Theirs(reqs, Outcomes(l, caps, reqs), mine) == Outcomes(l', caps, Those(reqs, mine))
    decreases |reqs|
  {
    if reqs != [] {
      var q, rest, next := reqs[0], reqs[1..], AllowRate(l, caps, reqs[0]).0;
      var oks := Outcomes(next, caps, rest);
      assert Outcomes(l, caps, reqs) == [AllowRate(l, caps, q).1] + oks && ([AllowRate(l, caps, q).1] + oks)[1..] == oks;
      if mine(q) {
        var next' := AllowRate(l', caps, q).0;
        forall r | r in rest && mine(r) ensures SameWindows(next, next', r, caps.lower) { AnswersFromWindows(l, l', caps, q, r); }
        AnswersFromWindows(l, l', caps, q, q);
        Independent(next, next', caps, rest, mine);
        assert ([q] + Those(rest, mine))[1..] == Those(rest, mine);
      } else {
        forall r | r in rest && mine(r) ensures SameWindows(next, l', r, caps.lower) { ApartKeeps(l, caps, q, r); }
        Independent(next, l', caps, rest, mine);
        assert [] + Those(rest, mine) == Those(rest, mine);
      }
    }
  }

  // ---- In-flight slots ---------------------------------------------------------------------

  function InFlight(m: map<string, int>, session: string): (n: int)
  {
    if session in m then m[session] else 0
  }

  function Acquire(m: map<string, int>, session: string, limit: int): (r: (map<string, int>, bool))
  {
    if limit <= 0 then (m, true)
    else if InFlight(m, session) >= limit then (m, false)
    else (m[session := InFlight(m, session) + 1], true)
  }

  function Release(m: map<string, int>, session: string, limit: int): (r: map<string, int>)
  {
    if limit <= 0 then m
    else if InFlight(m, session) - 1 <= 0 then m - {session}
    else m[session := InFlight(m, session) - 1]
  }

  // ---- The code ------------------------------------------------------------------------------

  const NANOS_PER_MINUTE := 60_000_000_000

  class InvocationQuotaLimiter {
    const caps: Caps
    const maxConcurrentPerSession: int
    var perSessionWindowCounters: map<string, Window>
    var perPrincipalWindowCounters: map<string, Window>
    var perSessionInFlight: map<string, int>

    constructor (caps: Caps, maxConcurrent: int)
      ensures this.caps == caps && maxConcurrentPerSession == maxConcurrent
      ensures View() == Rates(map[], map[]) && perSessionInFlight == map[]
    {
      this.caps, maxConcurrentPerSession := caps, maxConcurrent;
      perSessionWindowCounters, perPrincipalWindowCounters, perSessionInFlight := map[], map[], map[];
    }

    function View(): (r: Rates)
      reads this
    {
      Rates(perSessionWindowCounters, perPrincipalWindowCounters)
    }

    /** The rate check refines AllowRate on the minute of `now` (nanoseconds). */
    method Allow(sessionId: string, principal: Principal, now: nat) returns (ok: bool)
      modifies `perSessionWindowCounters, `perPrincipalWindowCounters
      ensures (View(), ok) == AllowRate(old(View()), caps, Request(sessionId, principal, now / 60_000_000_000))
    {
      var checkSession, checkPrincipal := caps.perSession > 0, caps.perPrincipal > 0;
      if !checkSession && !checkPrincipal { return true; }
      var minute := now / NANOS_PER_MINUTE;
      if checkSession {
        var counters, allowed := IncrementQuotaWindowCounter(perSessionWindowCounters, Trim(sessionId), minute, caps.perSession);
        perSessionWindowCounters := counters;
        if !allowed { return false; }
      }
      if checkPrincipal {
        var key := PrincipalQuotaKey(principal, caps.lower);
        if key == "" { key := Trim(sessionId); }
        var counters, allowed := IncrementQuotaWindowCounter(perPrincipalWindowCounters, key, minute, caps.perPrincipal);
        perPrincipalWindowCounters := counters;
        if !allowed { return false; }
      }
      return true;
    }

    /** A counted key passes while its minute has room, and then takes one of it; the other keys'
        windows stay, and a window never counts beyond the limit. */
    static method IncrementQuotaWindowCounter(counters: map<string, Window>, key: string, minute: int, max: int)
      returns (counters': map<string, Window>, ok: bool)
      ensures forall k :: k != Trim(key) ==> Get(counters', k) == Get(counters, k)
      ensures var k := Trim(key);
              if max <= 0 || k == "" then ok && counters' == counters
              else
                var before := if minute != 0 && Get(counters, k).start == minute then Get(counters, k).count else 0;
                && (ok <==> before < max)
                && Get(counters', k) == Window(minute, before + if ok then 1 else 0)
                && (before <= max ==> Get(counters', k).count <= max)
      ensures (counters', ok) == Increment(counters, Trim(key), minute, max)
    {
      if max <= 0 { return counters, true; }
      var k := Trim(key);
      if k == "" { return counters, true; }
      var window := Get(counters, k);
      if window.start == 0 || window.start != minute { window := Window(minute, 0); }
      if window.count >= max { return counters[k := window], false; }
      window := window.(count := window.count + 1);
      return counters[k := window], true;
    }

    /** A slot is granted exactly below a positive limit, or always without one; it counts for its
        session only. */
    method AcquireConcurrency(sessionId: string) returns (ok: bool)
      modifies `perSessionInFlight
      ensures maxConcurrentPerSession <= 0 ==> ok && perSessionInFlight == old(perSessionInFlight)
      ensures maxConcurrentPerSession > 0 ==>
                && (ok <==> InFlight(old(perSessionInFlight), sessionId) < maxConcurrentPerSession)
                && InFlight(perSessionInFlight, sessionId) == InFlight(old(perSessionInFlight), sessionId) + (if ok then 1 else 0)
                && (InFlight(old(perSessionInFlight), sessionId) <= maxConcurrentPerSession ==>
                      InFlight(perSessionInFlight, sessionId) <= maxConcurrentPerSession)
      ensures forall other :: other != sessionId ==>
                InFlight(perSessionInFlight, other) == InFlight(old(perSessionInFlight), other)
      ensures (perSessionInFlight, ok) == Acquire(old(perSessionInFlight), sessionId, maxConcurrentPerSession)
    {
      if maxConcurrentPerSession <= 0 { return true; }
      var current := if sessionId in perSessionInFlight then perSessionInFlight[sessionId] else 0;
      if current >= maxConcurrentPerSession { return false; }
      perSessionInFlight := perSessionInFlight[sessionId := current + 1];
      return true;
    }

    /** One slot of the session comes back; its entry goes exactly with the last one. */
    method ReleaseConcurrency(sessionId: string)
      modifies `perSessionInFlight
      ensures maxConcurrentPerSession > 0 ==>
                && (sessionId in perSessionInFlight <==> InFlight(old(perSessionInFlight), sessionId) > 1)
                && (InFlight(old(perSessionInFlight), sessionId) > 0 ==>
                      InFlight(perSessionInFlight, sessionId) == InFlight(old(perSessionInFlight), sessionId) - 1)
      ensures forall other :: other != sessionId ==>
                && (other in perSessionInFlight <==> other in old(perSessionInFlight))
                && InFlight(perSessionInFlight, other) == InFlight(old(perSessionInFlight), other)
      ensures perSessionInFlight == Release(old(perSessionInFlight), sessionId, maxConcurrentPerSession)
    {
      if maxConcurrentPerSession <= 0 { return; }
      var remaining := (if sessionId in perSessionInFlight then perSessionInFlight[sessionId] else 0) - 1;
      if remaining <= 0 {
        perSessionInFlight := perSessionInFlight - {sessionId};
        return;
      }
      perSessionInFlight := perSessionInFlight[sessionId := remaining];
    }
  }
}
