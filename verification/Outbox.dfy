/** The transactional outbox: publishers append events to a shared list, one relay reads a
    prefix of it, forwards the events one by one and trims the prefix. Every remote call may
    fail, and a failing call may or may not have taken effect. */
module Outbox {
  import opened Common

  datatype Event = Event(id: string, body: string)

  // ---- Redis list commands -------------------------------------------------------------

  /** Redis index normalisation: negative indices count from the end, and the range is
      clipped to the list. */
  function RangeStart(len: nat, start: int): (i: nat)
    ensures start >= 0 ==> i == start
  {
    if start >= 0 then start else if len + start < 0 then 0 else len + start
  }

  function RangeEnd(len: nat, stop: int): (j: nat)
    ensures j <= len
  {
    var last := if stop < 0 then len + stop else stop;
    if last < 0 then 0 else if last >= len then len else last + 1
  }

  /** LRANGE start stop (both ends included). */
  function LRange<T>(list: seq<T>, start: int, stop: int): (r: seq<T>)
  {
    var i, j := RangeStart(|list|, start), RangeEnd(|list|, stop);
    if i < j then list[i..j] else []
  }

  /** LTRIM start stop keeps exactly what LRANGE start stop returns. */
  function LTrim<T>(list: seq<T>, start: int, stop: int): (r: seq<T>)
  {
    LRange(list, start, stop)
  }

  /** What Drain reads and what Ack(n) leaves together are the list, for every list and n > 0. */
  lemma ReadThenTrim<T>(list: seq<T>, n: int)
    requires n > 0
    ensures LRange(list, 0, n - 1) == list[..Min(n, |list|)]
    ensures LTrim(list, n, -1) == list[Min(n, |list|)..]
    ensures LRange(list, 0, n - 1) + LTrim(list, n, -1) == list
  {
    var k := Min(n, |list|);
    assert LRange(list, 0, n - 1) == list[..k];
    assert list == list[..k] + list[k..];
  }

  // ---- The protocol as a step system -----------------------------------------------------

  /** The relay between two remote calls. `sent` events of `batch` are forwarded. */
  datatype Relay = Idle | Forwarding(batch: seq<Event>, sent: nat)

  /** `published` is the history of effective appends; `pending` is the Valkey list;
      `delivered` is the history of events that reached the downstream bus. */
  datatype State = State(published: seq<Event>, pending: seq<Event>, delivered: seq<Event>, relay: Relay)

  datatype Step =
    | Publish(e: Event)                 // RPUSH took effect (whatever the caller was told)
    | PublishLost                       // RPUSH failed without effect
    | Drain(size: int)                  // LRANGE 0 size-1
    | DrainError                        // LRANGE or decoding failed
    | Forward                           // downstream accepted batch[sent]
    | ForwardError(reached: bool)       // downstream failed, the event may have arrived
    | Ack                               // LTRIM |batch| -1 succeeded
    | AckError(applied: bool)           // LTRIM failed, it may have taken effect
    | Crash                             // the relay process died; Valkey keeps the list

  const Init := State([], [], [], Idle)

  predicate Enabled(s: State, step: Step)
  {
    match step
    case Publish(_) => true
    case PublishLost => true
    case Drain(size) => s.relay.Idle? && size > 0
    case DrainError => s.relay.Idle?
    case Forward => s.relay.Forwarding? && s.relay.sent < |s.relay.batch|
    case ForwardError(_) => s.relay.Forwarding? && s.relay.sent < |s.relay.batch|
    case Ack => s.relay.Forwarding? && s.relay.sent == |s.relay.batch|
    case AckError(_) => s.relay.Forwarding? && s.relay.sent == |s.relay.batch|
    case Crash => true
  }

  function Trimmed(s: State): (r: State)
    requires s.relay.Forwarding?
  {
    s.(pending := LTrim(s.pending, |s.relay.batch|, -1))
  }

  function Apply(s: State, step: Step): (r: State)
    requires Enabled(s, step)
  {
    match step
    case Publish(e) => s.(published := s.published + [e], pending := s.pending + [e])
    case PublishLost => s
    case Drain(size) =>
      var batch := LRange(s.pending, 0, size - 1);
      if batch == [] then s else s.(relay := Forwarding(batch, 0))
    case DrainError => s
    case Forward =>
      s.(delivered := s.delivered + [s.relay.batch[s.relay.sent]],
         relay := s.relay.(sent := s.relay.sent + 1))
    case ForwardError(reached) =>
      var t := s.(relay := Idle);
      if reached then t.(delivered := s.delivered + [s.relay.batch[s.relay.sent]]) else t
    case Ack => Trimmed(s).(relay := Idle)
    case AckError(applied) => (if applied then Trimmed(s) else s).(relay := Idle)
    case Crash => s.(relay := Idle)
  }

  /** `run` can be taken from `s`, step by step. */
  predicate Runs(s: State, run: seq<Step>)
    decreases |run|
  {
    run == [] || (Enabled(s, run[0]) && Runs(Apply(s, run[0]), run[1..]))
  }

  function After(s: State, run: seq<Step>): (r: State)
    requires Runs(s, run)
    decreases |run|
  {
    if run == [] then s else After(Apply(s, run[0]), run[1..])
  }

  // ---- Deduplication by event ID ---------------------------------------------------------

  predicate Seen(log: seq<Event>, id: string)
  {
    exists e :: e in log && e.id == id
  }

  /** The log with every event whose ID occurred earlier removed. */
  function Dedup(log: seq<Event>): (r: seq<Event>)
  {
    if log == [] then []
    else
      var front, e := log[..|log| - 1], log[|log| - 1];
      if Seen(front, e.id) then Dedup(front) else Dedup(front) + [e]
  }

  ghost predicate DistinctIds(log: seq<Event>)
  {
    forall i, j :: 0 <= i < j < |log| ==> log[i].id != log[j].id
  }

  lemma {:induction false} DedupDistinct(log: seq<Event>)
    requires DistinctIds(log)
    ensures Dedup(log) == log
  {
    if log != [] {
      var front := log[..|log| - 1];
      DedupDistinct(front);
      assert log == front + [log[|log| - 1]];
    }
  }

  lemma {:induction false} DedupLoses(log: seq<Event>, id: string)
    ensures Seen(Dedup(log), id) <==> Seen(log, id)
    ensures DistinctIds(Dedup(log))
  {
    if log != [] {
      var front, e := log[..|log| - 1], log[|log| - 1];
      assert log == front + [e];
      DedupLoses(front, id);
      DedupLoses(front, e.id);
      var d := Dedup(front);
      if !Seen(front, e.id) {
        assert forall i :: 0 <= i < |d| ==> d[i] in d;
        assert Seen(Dedup(log), id) <==> Seen(d, id) || e.id == id by {
          assert e in d + [e];
        }
        assert Seen(log, id) <==> Seen(front, id) || e.id == id by {
          assert e in log;
        }
      }
    }
  }

  // ---- The invariant -----------------------------------------------------------------------

  /** Number of events trimmed away. */
  function Gone(s: State): (t: int)
  {
    |s.published| - |s.pending|
  }

  /** The delivered log covers exactly the first `high` published events: in publish order
      once repeats are dropped, and event for event as a set. */
  ghost predicate Covers(s: State, high: nat)
  {
    && high <= |s.published|
    && Dedup(s.delivered) == Dedup(s.published[..high])
    && (forall e :: e in s.delivered <==> e in s.published[..high])
  }

  /** `high` is the delivery high-water mark. A trimmed event is below it, and the running
      batch is the head of the pending list, forwarded up to at most the mark. */
  ghost predicate Holds(s: State, high: nat)
  {
    && 0 <= Gone(s) <= high <= |s.published|
    && s.pending == s.published[Gone(s)..]
    && Covers(s, high)
    && match s.relay
       case Idle => true
       case Forwarding(batch, sent) =>
         && batch != [] && sent <= |batch|
         && batch <= s.pending
         && Gone(s) + sent <= high
  }

  lemma DedupAppend(log: seq<Event>, e: Event)
    ensures Dedup(log + [e]) == if Seen(log, e.id) then Dedup(log) else Dedup(log) + [e]
  {
    assert (log + [e])[..|log|] == log;
  }

  /** Delivering the event at index `k <= high` of the publish order keeps the cover. */
  lemma DeliverCovers(s: State, high: nat, k: nat) returns (high': nat)
    requires Covers(s, high) && k <= high && k < |s.published|
    ensures high' == if k == high then high + 1 else high
    ensures Covers(s.(delivered := s.delivered + [s.published[k]]), high')
  {
    var e := s.published[k];
    var before := s.published[..high];
    DedupAppend(s.delivered, e);
    if k < high {
      assert before[k] == e;
      assert e in s.delivered;
      high' := high;
    } else {
      high' := high + 1;
      assert s.published[..high'] == before + [e];
      DedupAppend(before, e);
      assert Seen(s.delivered, e.id) <==> Seen(before, e.id);
    }
  }

  lemma PublishHolds(s: State, e: Event, high: nat)
    requires Holds(s, high)
    ensures Holds(Apply(s, Publish(e)), high)
  {
    var t := Apply(s, Publish(e));
    assert t.published[..high] == s.published[..high];
    assert t.published[Gone(s)..] == s.published[Gone(s)..] + [e];
  }

  lemma TrimHolds(s: State, high: nat)
    requires Holds(s, high) && s.relay.Forwarding? && s.relay.sent == |s.relay.batch|
    ensures Holds(Trimmed(s).(relay := Idle), high)
    ensures Gone(Trimmed(s)) == Gone(s) + |s.relay.batch|
  {
    var n := |s.relay.batch|;
    ReadThenTrim(s.pending, n);
    assert s.published[Gone(s)..][n..] == s.published[Gone(s) + n..];
  }

  lemma ForwardHolds(s: State, high: nat) returns (high': nat)
    requires Holds(s, high) && s.relay.Forwarding? && s.relay.sent < |s.relay.batch|
    ensures high <= high'
    ensures Holds(Apply(s, Forward), high')
    ensures Holds(Apply(s, ForwardError(true)), high')
  {
    var k := Gone(s) + s.relay.sent;
    assert s.relay.batch[s.relay.sent] == s.pending[s.relay.sent] == s.published[k];
    high' := DeliverCovers(s, high, k);
  }

  /** Every step keeps the invariant, and the high-water mark never falls. */
  lemma StepHolds(s: State, step: Step, high: nat) returns (high': nat)
    requires Holds(s, high) && Enabled(s, step)
    ensures high <= high' && Holds(Apply(s, step), high')
  {
    high' := high;
    match step {
      case Publish(e) => PublishHolds(s, e, high);
      case Drain(size) => ReadThenTrim(s.pending, size);
      case Forward => high' := ForwardHolds(s, high);
      case ForwardError(reached) => if reached { high' := ForwardHolds(s, high); }
      case Ack => TrimHolds(s, high);
      case AckError(applied) => if applied { TrimHolds(s, high); }
      case PublishLost =>
      case DrainError =>
      case Crash =>
    }
  }

  lemma {:induction false} RunHolds(s: State, run: seq<Step>, high: nat) returns (high': nat)
    requires Holds(s, high) && Runs(s, run)
    ensures high <= high' && Holds(After(s, run), high')
    decreases |run|
  {
    high' := high;
    if run != [] {
      high' := StepHolds(s, run[0], high);
      high' := RunHolds(Apply(s, run[0]), run[1..], high');
    }
  }

  // ---- Main results ------------------------------------------------------------------------

  /** Safety of every interleaving of publishers, relay cycles, failures and crashes:
      the publish log is what was trimmed followed by what is pending, every trimmed event
      has been delivered, and the delivered log without repeats is the deduplicated prefix of
      the publish order up to some mark that covers everything trimmed. */
  lemma OutboxSafety(run: seq<Step>)
    requires Runs(Init, run)
    ensures var s := After(Init, run);
            && 0 <= Gone(s)
            && s.published == s.published[..Gone(s)] + s.pending
            && (forall i :: 0 <= i < Gone(s) ==> s.published[i] in s.delivered)
            && (exists high :: Gone(s) <= high <= |s.published| && Dedup(s.delivered) == Dedup(s.published[..high]))
  {
    assert Holds(Init, 0);
    var high := RunHolds(Init, run, 0);
    var s := After(Init, run);
    assert s.published == s.published[..Gone(s)] + s.published[Gone(s)..];
    forall i | 0 <= i < Gone(s) ensures s.published[i] in s.delivered {
      assert s.published[..high][i] == s.published[i];
    }
  }

  /** With distinct event IDs the consumer that drops repeats sees a prefix of the publish
      order, and all of it as soon as the list is empty. */
  lemma ConsumerSeesPrefix(run: seq<Step>)
    requires Runs(Init, run) && DistinctIds(After(Init, run).published)
    ensures var s := After(Init, run);
            && Dedup(s.delivered) <= s.published
            && (s.pending == [] ==> Dedup(s.delivered) == s.published)
  {
    OutboxSafety(run);
    var s := After(Init, run);
    var high :| Gone(s) <= high <= |s.published| && Dedup(s.delivered) == Dedup(s.published[..high]);
    DedupDistinct(s.published[..high]);
    if s.pending == [] {
      assert s.published[..high] == s.published;
    }
  }

  /** A trim that takes effect twice is outside the protocol: with distinct IDs it loses an
      event exactly when it reaches beyond the delivered prefix. */
  lemma DoubleTrim(s: State, high: nat)
    requires Holds(s, high) && DistinctIds(s.published)
    requires s.relay.Forwarding? && s.relay.sent == |s.relay.batch|
    ensures var t := Trimmed(Trimmed(s));
            (forall i :: 0 <= i < Gone(t) ==> t.published[i] in t.delivered)
            <==> Min(Gone(s) + 2 * |s.relay.batch|, |s.published|) <= high
  {
    var n := |s.relay.batch|;
    TrimHolds(s, high);
    var t := Trimmed(Trimmed(s));
    ReadThenTrim(Trimmed(s).pending, n);
    assert Gone(t) == Min(Gone(s) + 2 * n, |s.published|);
    forall i | 0 <= i < Gone(t) ensures s.published[i] in s.delivered <==> i < high {
      if s.published[i] in s.published[..high] {
        var j :| 0 <= j < high && s.published[j] == s.published[i];
      }
      if i < high { assert s.published[..high][i] == s.published[i]; }
    }
    if Gone(t) > high {
      assert s.published[high] !in s.delivered;
    }
  }

  // ---- Recovery ----------------------------------------------------------------------------

  lemma {:induction false} RunsConcat(s: State, a: seq<Step>, b: seq<Step>)
    requires Runs(s, a) && Runs(After(s, a), b)
    ensures Runs(s, a + b) && After(s, a + b) == After(After(s, a), b)
    decreases |a|
  {
    if a == [] {
      assert a + b == b;
    } else {
      assert (a + b)[1..] == a[1..] + b;
      RunsConcat(Apply(s, a[0]), a[1..], b);
    }
  }

  lemma OneStep(s: State, step: Step)
    requires Enabled(s, step)
    ensures Runs(s, [step]) && After(s, [step]) == Apply(s, step)
  {
    assert [step][1..] == [];
  }

  /** The state after a fault-free relay cycle that found a non-empty list. */
  function Cycle(s: State, size: int): (r: State)
    requires size > 0
  {
    var k := Min(size, |s.pending|);
    s.(pending := s.pending[k..], delivered := s.delivered + s.pending[..k])
  }

  /** Forwarding the rest of a batch without faults. */
  lemma {:induction false} ForwardRest(s: State) returns (run: seq<Step>)
    requires s.relay.Forwarding? && s.relay.sent <= |s.relay.batch|
    ensures Runs(s, run)
    ensures After(s, run) == s.(delivered := s.delivered + s.relay.batch[s.relay.sent..],
                                relay := s.relay.(sent := |s.relay.batch|))
    decreases |s.relay.batch| - s.relay.sent
  {
    var rest := s.relay.batch[s.relay.sent..];
    if rest == [] {
      run := [];
      assert s.delivered + rest == s.delivered;
    } else {
      var t := Apply(s, Forward);
      var tail := ForwardRest(t);
      run := [Forward] + tail;
      assert rest == [rest[0]] + s.relay.batch[s.relay.sent + 1..];
      assert s.delivered + rest == t.delivered + s.relay.batch[s.relay.sent + 1..];
    }
  }

  lemma CycleIsRun(s: State, size: int) returns (run: seq<Step>)
    requires s.relay.Idle? && s.pending != [] && size > 0
    ensures Runs(s, run) && After(s, run) == Cycle(s, size)
  {
    ReadThenTrim(s.pending, size);
    var k := Min(size, |s.pending|);
    ReadThenTrim(s.pending, k);
    var t := Apply(s, Drain(size));
    assert t.relay.batch[0..] == s.pending[..k];
    var mid := ForwardRest(t);
    var u := After(t, mid);
    OneStep(u, Ack);
    RunsConcat(t, mid, [Ack]);
    run := [Drain(size)] + (mid + [Ack]);
  }

  /** From every reachable idle state the relay alone can finish the job: some continuation
      without further faults empties the list and leaves everything ever published delivered. */
  lemma {:induction false} Recovers(s: State, size: int, high: nat) returns (run: seq<Step>)
    requires Holds(s, high) && s.relay.Idle? && size > 0
    ensures Runs(s, run)
    ensures After(s, run).pending == [] && After(s, run).published == s.published
    ensures Dedup(After(s, run).delivered) == Dedup(s.published)
    decreases |s.pending|
  {
    if s.pending == [] {
      run := [];
      assert s.published[..high] == s.published;
    } else {
      var first := CycleIsRun(s, size);
      var high' := RunHolds(s, first, high);
      var rest := Recovers(Cycle(s, size), size, high');
      RunsConcat(s, first, rest);
      run := first + rest;
    }
  }

  /** Nothing published is lost: after any run, an event whose append takes effect can still be
      delivered by the relay alone, even if it dies first. */
  lemma PublishedCanArrive(run: seq<Step>, e: Event, size: int) returns (more: seq<Step>)
    requires Runs(Init, run) && size > 0
    ensures Runs(After(Init, run), [Publish(e)] + more)
    ensures Seen(After(After(Init, run), [Publish(e)] + more).delivered, e.id)
  {
    assert Holds(Init, 0);
    var high := RunHolds(Init, run, 0);
    var s := After(Init, run);
    var t := Apply(s, Publish(e));
    var idle := Apply(t, Crash);
    high := StepHolds(s, Publish(e), high);
    high := StepHolds(t, Crash, high);
    var rest := Recovers(idle, size, high);
    more := [Crash] + rest;
    OneStep(s, Publish(e));
    OneStep(t, Crash);
    RunsConcat(t, [Crash], rest);
    RunsConcat(s, [Publish(e)], more);
    LastSeen(After(idle, rest), e);
  }

  lemma LastSeen(u: State, e: Event)
    requires u.published != [] && u.published[|u.published| - 1] == e && Dedup(u.delivered) == Dedup(u.published)
    ensures Seen(u.delivered, e.id)
  {
    assert e in u.published;
    DedupLoses(u.published, e.id);
    DedupLoses(u.delivered, e.id);
  }

  // ---- The code: publisher and relay cycle -------------------------------------------------

  datatype Drained = Events(events: seq<Event>) | ReadError

  class OutboxPublisher {
    var pending: seq<Event>
    ghost var published: seq<Event>

    constructor ()
      ensures pending == [] && published == []
    {
      pending, published := [], [];
    }

    method Publish(e: Event, fault: Fault) returns (ok: bool)
      modifies this
      ensures ok <==> fault == Fine
      ensures fault == FailsLost ==> pending == old(pending) && published == old(published)
      ensures fault != FailsLost ==> pending == old(pending) + [e] && published == old(published) + [e]
    {
      ok := fault == Fine;
      if fault != FailsLost {
        pending := pending + [e];
        published := published + [e];
      }
    }

    /** A positive batch size reads that many events from the front, or all there are. */
    method Read(batchSize: int, fault: Fault) returns (r: Drained)
      ensures r.Events? <==> fault == Fine
      ensures fault == Fine && batchSize > 0 ==> r.events == pending[..Min(batchSize, |pending|)]
      ensures r == if fault == Fine then Events(LRange(pending, 0, batchSize - 1)) else ReadError
    {
      if batchSize > 0 { ReadThenTrim(pending, batchSize); }
      if fault != Fine { return ReadError; }
      r := Events(LRange(pending, 0, batchSize - 1));
    }

    /** An effective ack of n events leaves what comes after them, and only a reported error can
        mean that nothing was removed. */
    method Ack(n: int, fault: Fault) returns (ok: bool)
      modifies this`pending
      ensures ok <==> fault == Fine
      ensures n > 0 && fault != FailsLost ==> pending == old(pending)[Min(n, |old(pending)|)..]
      ensures n > 0 && old(pending) != [] && pending == old(pending) ==> !ok
      ensures pending == if fault == FailsLost then old(pending) else LTrim(old(pending), n, -1)
    {
      if n > 0 { ReadThenTrim(pending, n); }
      ok := fault == Fine;
      if fault != FailsLost { pending := LTrim(pending, n, -1); }
    }
  }

  class OutboxRelay {
    const outbox: OutboxPublisher
    const batchSize: int
    var delivered: seq<Event>

    /** A requested batch size that is not positive leaves the default of 100. */
    constructor (outbox: OutboxPublisher, requested: int)
      ensures this.outbox == outbox && delivered == []
      ensures batchSize > 0 && (requested > 0 ==> batchSize == requested) && (requested <= 0 ==> batchSize == 100)
    {
      this.outbox, delivered := outbox, [];
      batchSize := if requested > 0 then requested else 100;
    }

    ghost function View(relay: Relay): (s: State)
      reads this, outbox
    {
      State(outbox.published, outbox.pending, delivered, relay)
    }

    /** Forwards the events in order until one fails. */
    method ForwardAll(events: seq<Event>, forward: nat -> Fault, ghost start: State, ghost before: seq<Step>)
      returns (ok: bool, ghost run: seq<Step>)
      requires Runs(start, before) && After(start, before) == View(Forwarding(events, 0))
      modifies this`delivered
      ensures old(delivered) <= delivered && delivered[|old(delivered)|..] <= events
      ensures ok ==> delivered == old(delivered) + events
      ensures Runs(start, run) && After(start, run) == View(if ok then Forwarding(events, |events|) else Idle)
      ensures (forall i: nat :: forward(i) == Fine) ==> ok
    {
      run := before;
      var i := 0;
      while i < |events|
        invariant 0 <= i <= |events|
        invariant delivered == old(delivered) + events[..i]
        invariant Runs(start, run) && After(start, run) == View(Forwarding(events, i))
      {
        ghost var s := View(Forwarding(events, i));
        assert events[..i + 1] == events[..i] + [events[i]];
        if forward(i) != Fine {
          ghost var step := ForwardError(forward(i) == FailsApplied);
          if forward(i) == FailsApplied { delivered := delivered + [events[i]]; }
          OneStep(s, step);
          RunsConcat(start, run, [step]);
          return false, run + [step];
        }
        delivered := delivered + [events[i]];
        OneStep(s, Forward);
        RunsConcat(start, run, [Forward]);
        run := run + [Forward];
        i := i + 1;
      }
      assert events[..i] == events;
      return true, run;
    }

    /** One cycle, run without interference, is a run of the step system. It delivers a prefix of
        the batch, the first min(batchSize, length) events; it trims the whole batch, and only
        after having delivered all of it; and it reports a positive count exactly when it trimmed
        that many. */
    method DrainAndForward(drain: Fault, forward: nat -> Fault, ack: Fault)
      returns (n: int, ok: bool, ghost run: seq<Step>)
      requires batchSize > 0
      modifies this, outbox`pending
      ensures Runs(old(View(Idle)), run) && After(old(View(Idle)), run) == View(Idle)
      ensures outbox.published == old(outbox.published) && old(delivered) <= delivered
      ensures delivered[|old(delivered)|..] <= old(outbox.pending)[..Min(batchSize, |old(outbox.pending)|)]
      ensures ok || outbox.pending != old(outbox.pending) ==>
                && delivered == old(delivered) + old(outbox.pending)[..Min(batchSize, |old(outbox.pending)|)]
                && outbox.pending == old(outbox.pending)[Min(batchSize, |old(outbox.pending)|)..]
      ensures n == if ok then |old(outbox.pending)| - |outbox.pending| else 0
      ensures drain == Fine && ack == Fine && (forall i: nat :: forward(i) == Fine) ==> ok
    {
      ghost var start := View(Idle);
      var r := outbox.Read(batchSize, drain);
      ReadThenTrim(outbox.pending, batchSize);
      if r.ReadError? {
        run := [DrainError];
        return 0, false, run;
      }
      var events := r.events;
      run := [Drain(batchSize)];
      if events == [] {
        return 0, true, run;
      }
      OneStep(start, Drain(batchSize));
      ok, run := ForwardAll(events, forward, start, run);
      if !ok { return 0, false, run; }
      ghost var s := View(Forwarding(events, |events|));
      ReadThenTrim(outbox.pending, |events|);
      ok := outbox.Ack(|events|, ack);
      ghost var step := if ok then Step.Ack else AckError(ack == FailsApplied);
      OneStep(s, step);
      RunsConcat(start, run, [step]);
      run := run + [step];
      n := if ok then |events| else 0;
    }
  }

  // ---- Retry delays ------------------------------------------------------------------------

  const MAX_BACKOFF: int := 30_000_000_000
  const HALF_RANGE: int := 0x8000_0000_0000_0000

  /** Two's-complement wrap of a 64-bit duration. */
  function Wrap(x: int): (r: int)
    ensures -HALF_RANGE <= r < HALF_RANGE
    ensures -HALF_RANGE <= x < HALF_RANGE ==> r == x
  {
    (x + HALF_RANGE) % (2 * HALF_RANGE) - HALF_RANGE
  }

  function Doubled(backoff: int): (r: int)
  {
    Min(Wrap(backoff * 2), MAX_BACKOFF)
  }

  /** The delay before the next attempt after `k` failures in a row. */
  function Backoff(poll: int, k: nat): (r: int)
  {
    if k == 0 then poll else Doubled(Backoff(poll, k - 1))
  }

  function Pow2(k: nat): (r: nat)
    ensures r >= 1
  {
    if k == 0 then 1 else 2 * Pow2(k - 1)
  }

  lemma {:induction false} BackoffClosedForm(poll: int, k: nat)
    requires 0 < poll < 0x4000_0000_0000_0000 && k >= 1
    ensures Backoff(poll, k) == Min(poll * Pow2(k), 30_000_000_000)
    ensures 0 < Backoff(poll, k)
  {
    if k == 1 {
      assert Pow2(1) == 2 * Pow2(0) == 2;
      assert Backoff(poll, 1) == Doubled(Backoff(poll, 0));
    } else {
      BackoffClosedForm(poll, k - 1);
      assert poll * Pow2(k) == 2 * (poll * Pow2(k - 1));
    }
  }

  /** The closed form min(poll * 2^k, 30s) holds for every k >= 1 exactly when doubling the
      poll interval does not overflow a 64-bit duration. */
  lemma BackoffExact(poll: int)
    requires 0 < poll < 0x8000_0000_0000_0000
    ensures (forall k: nat :: k >= 1 ==> Backoff(poll, k) == Min(poll * Pow2(k), 30_000_000_000))
            <==> poll < 0x4000_0000_0000_0000
  {
    if poll < HALF_RANGE / 2 {
      forall k: nat | k >= 1 ensures Backoff(poll, k) == Min(poll * Pow2(k), MAX_BACKOFF) {
        BackoffClosedForm(poll, k);
      }
    } else {
      assert Pow2(1) == 2 * Pow2(0) == 2;
      assert Backoff(poll, 1) == Doubled(Backoff(poll, 0));
      assert Wrap(poll * 2) < 0;
      assert Backoff(poll, 1) != Min(poll * Pow2(1), MAX_BACKOFF);
    }
  }

  /** What one cycle reports to the loop. */
  datatype Report = Failed | Moved(n: nat)

  /** Failures in a row at the end of a report history. */
  function Streak(reports: seq<Report>): (k: nat)
  {
    if reports == [] || !reports[|reports| - 1].Failed? then 0 else 1 + Streak(reports[..|reports| - 1])
  }

  /** The pause taken after the last report: the back-off of the failures before it when it
      failed, the poll interval when it found nothing, none when it moved events. */
  function Pause(poll: int, reports: seq<Report>): (d: int)
    requires reports != []
  {
    match reports[|reports| - 1]
    case Failed => Backoff(poll, Streak(reports) - 1)
    case Moved(n) => if n == 0 then poll else 0
  }

  lemma {:induction false} StreakMeaning(reports: seq<Report>, k: nat)
    requires k <= |reports| && (forall j :: |reports| - k <= j < |reports| ==> reports[j].Failed?)
    requires k < |reports| ==> !reports[|reports| - k - 1].Failed?
    ensures Streak(reports) == k
  {
    if k > 0 { StreakMeaning(reports[..|reports| - 1], k - 1); }
  }

  /** What the pause after a report is: the poll interval when the cycle found nothing, none when it
      moved events, and after a failure with exactly k failures right before it the poll interval
      doubled k times, at most 30 seconds. */
  lemma PauseMeaning(poll: int, reports: seq<Report>, k: nat)
    requires reports != [] && 0 < poll < 0x4000_0000_0000_0000
    ensures var last := reports[|reports| - 1];
            && (last == Moved(0) ==> Pause(poll, reports) == poll)
            && (last.Moved? && last.n > 0 ==> Pause(poll, reports) == 0)
            && (last.Failed? && k < |reports| && (forall j :: |reports| - 1 - k <= j < |reports| ==> reports[j].Failed?)
                && (k + 1 < |reports| ==> !reports[|reports| - k - 2].Failed?) ==>
                  Pause(poll, reports) == if k == 0 then poll else Min(poll * Pow2(k), 30_000_000_000))
  {
    if k < |reports| && (forall j :: |reports| - 1 - k <= j < |reports| ==> reports[j].Failed?)
       && (k + 1 < |reports| ==> !reports[|reports| - k - 2].Failed?) {
      StreakMeaning(reports, k + 1);
      if k > 0 { BackoffClosedForm(poll, k); }
    }
  }

  /** The relay loop over a given sequence of cycle reports, up to the moment it is stopped. */
  method Loop(poll: int, reports: seq<Report>) returns (pauses: seq<int>)
    ensures |pauses| == |reports|
    ensures forall i :: 0 <= i < |reports| ==> pauses[i] == Pause(poll, reports[..i + 1])
  {
    var backoff := poll;
    pauses := [];
    var i := 0;
    while i < |reports|
      invariant 0 <= i <= |reports| && |pauses| == i
      invariant backoff == Backoff(poll, Streak(reports[..i]))
      invariant forall j :: 0 <= j < i ==> pauses[j] == Pause(poll, reports[..j + 1])
    {
      assert reports[..i + 1][..i] == reports[..i];
      match reports[i] {
        case Failed =>
          pauses := pauses + [backoff];
          backoff := Doubled(backoff);
        case Moved(n) =>
          backoff := poll;
          pauses := pauses + [if n == 0 then poll else 0];
      }
      i := i + 1;
    }
  }
}
