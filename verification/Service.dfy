/** The code of one InvokeTool call over the in-memory store and the limiter, in the shape of
    the service: authorization, completion, denial and the deferred release of the slot. Every
    call of the code is a run of the step system in Lifecycle. */
module ServiceCode {
  import opened Common
  import opened GoStrings
  import opened InvocationStore
  import opened Lifecycle
  import Limiter

  /** What the collaborators answer during one call; `first` and `second` are its two saves. */
  datatype Answers = Answers(
    sessionFound: bool, toolFound: bool, lookupOk: bool, first: Fault, runtimeOk: bool, verdict: Verdict,
    run: RunResult, second: Fault)

  /** The exit a call must take: the first gate that fails, or the conclusion of its run. */
  function Decide(rateOk: bool, slotOk: bool, a: Answers): (e: Exit)
  {
    if !rateOk then RateDenied
    else if !a.runtimeOk then RuntimeDenied
    else if a.verdict.AuthorizerError? then PolicyError
    else if a.verdict.Deny? then PolicyDenied
    else if !slotOk then SlotDenied
    else Ran(a.run)
  }

  /** The rate windows after a check of the call, and its verdict. */
  function Charge(l: Limiter.Rates, caps: Limiter.Caps, session: string, principal: Limiter.Principal, now: nat)
    : (r: (Limiter.Rates, bool))
  {
    Limiter.AllowRate(l, caps, Limiter.Request(session, principal, now / Limiter.NANOS_PER_MINUTE))
  }

  /** No session is recorded with a count of zero or less. */
  ghost predicate NoIdleEntry(m: map<string, int>)
  {
    forall session :: session in m ==> m[session] > 0
  }

  /** Releasing undoes a granted acquire. */
  lemma ReleaseUndoesAcquire(m: map<string, int>, session: string, limit: int)
    requires NoIdleEntry(m) && Limiter.Acquire(m, session, limit).1
    ensures Limiter.Release(Limiter.Acquire(m, session, limit).0, session, limit) == m
  {
    if limit > 0 {
      var m' := Limiter.Acquire(m, session, limit).0;
      assert session !in m ==> m' - {session} == m;
      assert session in m ==> m'[session := m[session]] == m;
    }
  }

  /** The lookup key of the request has been saved before. */
  predicate Known(r: Request, history: seq<Invocation>)
  {
    RequestKey(r) != "" && FirstWithKey(history, RequestKey(r)).Some?
  }

  /** What a save leaves in the history. */
  function Effect(fault: Fault, inv: Invocation): (saved: seq<Invocation>)
  {
    if fault.FailsLost? then [] else [inv]
  }

  function Begun(r: Request, id: string): (inv: Invocation)
  {
    Invocation(id, r.session, r.tool, Trim(r.correlation), Running)
  }

  /** What one call returns and saves: nothing for a rejected or known request, otherwise Running
      and, if that was confirmed, the status of the exit it must take. */
  function Outcome(r: Request, id: string, history: seq<Invocation>, rateOk: bool, slotOk: bool, a: Answers)
    : (o: (Result, seq<Invocation>))
  {
    if !a.sessionFound || !a.toolFound || (Trim(r.correlation) != "" && !a.lookupOk) then (Rejected, history)
    else if Known(r, history) then (Existing(FirstWithKey(history, RequestKey(r)).value.id), history)
    else
      var inv, e := Begun(r, id), Decide(rateOk, slotOk, a);
      var begun := history + Effect(a.first, inv);
      if !a.first.Fine? then (StoreFailed(id), begun)
      else (Ended(id, e, a.second.Fine?), begun + Effect(a.second, inv.(status := StatusOf(e))))
  }

  /** The status a call must end with, in terms of its answers. */
  lemma DecideStatus(rateOk: bool, slotOk: bool, a: Answers)
    ensures var status := StatusOf(Decide(rateOk, slotOk, a));
            var reached := rateOk && a.runtimeOk;
            && (status == Succeeded <==> reached && a.verdict.Allow? && slotOk && Passes(a.run))
            && (status == Status.Failed <==> reached && (a.verdict.AuthorizerError? ||
                                                         (a.verdict.Allow? && slotOk && !Passes(a.run) && !Refuses(a.run))))
            && (status == Denied <==> !reached || a.verdict.Deny? || (a.verdict.Allow? && (!slotOk || Refuses(a.run))))
  {
    RunStatusMeaning(a.run);
  }

  /** How a stored call ends, in terms of the answers alone, and what its last save recorded. */
  ghost predicate EndsAs(result: Result, history: seq<Invocation>, r: Request, id: string, rateOk: bool, slotOk: bool, a: Answers)
  {
    if !result.Ended? then true
    else
      var status := StatusOf(result.exit);
      && (status == Succeeded <==> rateOk && a.runtimeOk && a.verdict.Allow? && slotOk && Passes(a.run))
      && (status == Denied <==> !rateOk || !a.runtimeOk || a.verdict.Deny? || (a.verdict.Allow? && (!slotOk || Refuses(a.run))))
      && status != Running
      && (a.second.Fine? ==>
            history != [] && history[|history| - 1] == Invocation(id, r.session, r.tool, Trim(r.correlation), status))
  }

  lemma EndedOutcome(r: Request, id: string, history: seq<Invocation>, rateOk: bool, slotOk: bool, a: Answers)
    ensures var o := Outcome(r, id, history, rateOk, slotOk, a); EndsAs(o.0, o.1, r, id, rateOk, slotOk, a)
  {
    DecideStatus(rateOk, slotOk, a);
  }

  /** The observations that record an exit, given whether its save was confirmed. */
  function Closing(e: Exit, ok: bool): (r: seq<Obs>)
  {
    [Saved(StatusOf(e), ok)] + Audits(e, ok) + Emits(e, ok)
  }

  lemma ClosingMeaning(e: Exit, ok: bool)
    ensures StatusOf(e).Denied? ==> Closing(e, ok) == [Saved(Denied, ok), Audited(Denied), Emitted(Refused)]
    ensures StatusOf(e) == Status.Failed ==>
              Closing(e, ok) == [Saved(Status.Failed, ok), Audited(Status.Failed)] + if e.PolicyError? then [] else [Emitted(Completed)]
    ensures Succeeds(e) ==>
              Closing(e, ok) == if ok then [Saved(Succeeded, true), Audited(Succeeded), Emitted(Completed)] else [Saved(Succeeded, false)]
  {
  }

  const CHECKS: seq<Obs> := [RateChecked(true), RuntimeChecked(true), PolicyChecked(Allow), SlotAsked(true)]

  lemma DeniedTrace(e: Exit, ok: bool)
    requires Early(e)
    ensures OPENING + (Gates(e) + Closing(e, ok)) == EndTrace(e, ok)
  {
    assert Freed(e) == [];
  }

  lemma RanTrace(e: Exit, ok: bool)
    requires !Early(e)
    ensures OPENING + CHECKS + [ToolRan(e.run)] + Closing(e, ok) + [SlotFreed] == EndTrace(e, ok)
  {
    assert Gates(e) == CHECKS + [ToolRan(e.run)];
  }

  // ---- One call as a run of the step system --------------------------------------------------

  /** What one call has changed so far: its own point, the shared slots and history, its log. */
  datatype Local = Local(pc: Pc, m: map<string, int>, h: seq<Invocation>, obs: seq<Obs>)

  /** The system in which only the call `c` has moved. */
  function At(s: System, c: CallId, r: Request, id: string, l: Local): (t: System)
  {
    s.(calls := s.calls[c := Call(r, l.pc)], used := s.used + {id}, inFlight := l.m, history := l.h,
       log := s.log + Entries(id, l.obs))
  }

  ghost predicate Reaches(s: System, run: seq<Step>, t: System)
  {
    Runs(s, run) && After(s, run) == t
  }

  lemma {:induction false} Extend(s: System, run: seq<Step>, t: System, c: CallId, ch: Choice) returns (run': seq<Step>)
    requires Reaches(s, run, t) && Enabled(t, c, ch)
    ensures Reaches(s, run', Next(t, c, ch))
    decreases |run|
  {
    if run == [] {
      run' := [Step(c, ch)];
      assert run'[1..] == [];
    } else {
      var tail := Extend(Next(s, run[0].c, run[0].ch), run[1..], t, c, ch);
      run' := [run[0]] + tail;
      assert run'[1..] == tail;
    }
  }

  lemma EntriesConcat(id: string, a: seq<Obs>, b: seq<Obs>)
    ensures Entries(id, a + b) == Entries(id, a) + Entries(id, b)
  {
  }

  /** A move of the call alone, to `pc'` with the observations `obs`. */
  lemma MoveAt(s: System, c: CallId, r: Request, id: string, l: Local, ch: Choice, l': Local, obs: seq<Obs>)
    requires Can(l.pc, ch) && IdOf(l.pc) == Some(id) && l'.obs == l.obs + obs
    requires (l'.pc, obs) == Advance(l.pc, ch, Limiter.Acquire(l.m, r.session, s.limit).1)
    requires l'.m == if ch.Slot? then Limiter.Acquire(l.m, r.session, s.limit).0
                     else if ch.Return? then Limiter.Release(l.m, r.session, s.limit) else l.m
    requires l'.h == if ch.Store? && ch.applied then l.h + [RecordOf(Call(r, l.pc), id)] else l.h
    ensures Enabled(At(s, c, r, id, l), c, ch)
    ensures Next(At(s, c, r, id, l), c, ch) == At(s, c, r, id, l')
  {
    var t := At(s, c, r, id, l);
    EntriesConcat(id, l.obs, obs);
    assert t.log + Entries(id, obs) == At(s, c, r, id, l').log;
    assert t.calls[c := Call(r, l'.pc)] == s.calls[c := Call(r, l'.pc)];
  }

  /** The call moves without touching slots or history. */
  lemma Go(s: System, run: seq<Step>, c: CallId, r: Request, id: string, l: Local, ch: Choice, pc': Pc, obs: seq<Obs>)
    returns (run': seq<Step>)
    requires Reaches(s, run, At(s, c, r, id, l)) && Can(l.pc, ch) && IdOf(l.pc) == Some(id)
    requires !ch.Slot? && !ch.Return? && !ch.Store?
    requires (pc', obs) == Advance(l.pc, ch, Limiter.Acquire(l.m, r.session, s.limit).1)
    ensures Reaches(s, run', At(s, c, r, id, Local(pc', l.m, l.h, l.obs + obs)))
  {
    MoveAt(s, c, r, id, l, ch, Local(pc', l.m, l.h, l.obs + obs), obs);
    run' := Extend(s, run, At(s, c, r, id, l), c, ch);
  }

  /** The call saves its record. */
  lemma GoSave(s: System, run: seq<Step>, c: CallId, r: Request, id: string, l: Local, fault: Fault, pc': Pc, status: Status)
    returns (run': seq<Step>)
    requires Reaches(s, run, At(s, c, r, id, l)) && IdOf(l.pc) == Some(id) && (l.pc.Storing? || l.pc.Saving?)
    requires (pc', [Saved(status, fault.Fine?)]) == Advance(l.pc, Choice.Store(fault.Fine?, !fault.FailsLost?), true)
    ensures Reaches(s, run', At(s, c, r, id, Local(pc', l.m, l.h + Effect(fault, Begun(r, id).(status := status)),
                                                   l.obs + [Saved(status, fault.Fine?)])))
  {
    var ch := Choice.Store(fault.Fine?, !fault.FailsLost?);
    var l' := Local(pc', l.m, l.h + Effect(fault, Begun(r, id).(status := status)), l.obs + [Saved(status, fault.Fine?)]);
    assert RecordOf(Call(r, l.pc), id) == Begun(r, id).(status := status);
    MoveAt(s, c, r, id, l, ch, l', [Saved(status, fault.Fine?)]);
    run' := Extend(s, run, At(s, c, r, id, l), c, ch);
  }

  /** The system in which `c` has only arrived or ended without an ID. */
  function With(s: System, c: CallId, r: Request, pc: Pc): (t: System)
  {
    s.(calls := s.calls[c := Call(r, pc)])
  }

  lemma Arrived(s: System, c: CallId, r: Request) returns (run: seq<Step>)
    requires c !in s.calls
    ensures Reaches(s, run, With(s, c, r, Validating))
  {
    run := Extend(s, [], s, c, Arrive(r));
  }

  /** A call that is not deduplicated gets its fresh ID. */
  lemma Admitted(s: System, c: CallId, r: Request, id: string) returns (run: seq<Step>, l: Local)
    requires c !in s.calls && id !in s.used && Dedup(s, r).None?
    ensures l == Local(Storing(id), s.inFlight, s.history, []) && Reaches(s, run, At(s, c, r, id, l))
  {
    l := Local(Storing(id), s.inFlight, s.history, []);
    var t := With(s, c, r, Validating);
    run := Arrived(s, c, r);
    assert Dedup(t, r) == Dedup(s, r);
    run := Extend(s, run, t, c, Look(id));
    assert t.calls[c := Call(r, Storing(id))] == s.calls[c := Call(r, Storing(id))];
    assert s.log + Entries(id, []) == s.log;
  }

  lemma Again(s: System, c: CallId, r: Request, pc: Pc)
    ensures SetPc(With(s, c, r, Validating), c, pc) == With(s, c, r, pc)
  {
    assert s.calls[c := Call(r, Validating)][c := Call(r, pc)] == s.calls[c := Call(r, pc)];
  }

  /** A call that ends before it gets an ID, rejected or deduplicated. */
  lemma TurnedAway(s: System, c: CallId, r: Request) returns (run: seq<Step>)
    requires c !in s.calls
    ensures Reaches(s, run, With(s, c, r, Done(Rejected)))
  {
    run := Arrived(s, c, r);
    Again(s, c, r, Done(Rejected));
    run := Extend(s, run, With(s, c, r, Validating), c, Reject);
  }

  lemma TurnedBack(s: System, c: CallId, r: Request, id: string) returns (run: seq<Step>)
    requires c !in s.calls && id !in s.used && Dedup(s, r).Some?
    ensures Reaches(s, run, With(s, c, r, Done(Existing(Dedup(s, r).value.id))))
  {
    run := Arrived(s, c, r);
    Again(s, c, r, Done(Existing(Dedup(s, r).value.id)));
    assert Dedup(With(s, c, r, Validating), r) == Dedup(s, r);
    run := Extend(s, run, With(s, c, r, Validating), c, Look(id));
  }

  /** From the rate check to the point where the exit is decided. */
  lemma DriveGates(s: System, run: seq<Step>, c: CallId, r: Request, id: string, l: Local, rateOk: bool, a: Answers)
    returns (run': seq<Step>)
    requires Reaches(s, run, At(s, c, r, id, l)) && l.pc == CheckingRate(id)
    ensures Reaches(s, run', At(s, c, r, id, Decided(s, r, id, l, Decide(rateOk, Limiter.Acquire(l.m, r.session, s.limit).1, a))))
  {
    if rateOk {
      run' := Go(s, run, c, r, id, l, Choice.Rate(true), CheckingRuntime(id), [RateChecked(true)]);
      run' := DriveRuntime(s, run', c, r, id, l, a);
    } else {
      run' := Go(s, run, c, r, id, l, Choice.Rate(false), Saving(id, RateDenied), [RateChecked(false)]);
    }
  }

  /** The call at the point where its exit is decided, from its rate check on. */
  function Decided(s: System, r: Request, id: string, l: Local, e: Exit): (l': Local)
  {
    Local(Saving(id, e), if Early(e) then l.m else Limiter.Acquire(l.m, r.session, s.limit).0, l.h, l.obs + Gates(e))
  }

  /** The call past some gates. */
  function Passed(l: Local, pc: Pc, gates: seq<Obs>): (l': Local)
  {
    Local(pc, l.m, l.h, l.obs + gates)
  }

  lemma DriveRuntime(s: System, run: seq<Step>, c: CallId, r: Request, id: string, l: Local, a: Answers)
    returns (run': seq<Step>)
    requires Reaches(s, run, At(s, c, r, id, Passed(l, CheckingRuntime(id), [RateChecked(true)])))
    ensures Reaches(s, run', At(s, c, r, id, Decided(s, r, id, l, Decide(true, Limiter.Acquire(l.m, r.session, s.limit).1, a))))
  {
    var at := Passed(l, CheckingRuntime(id), [RateChecked(true)]);
    if a.runtimeOk {
      run' := Go(s, run, c, r, id, at, Runtime(true), CheckingPolicy(id), [RuntimeChecked(true)]);
      AddObs(l.obs, [RateChecked(true)], [RuntimeChecked(true)]);
      run' := DrivePolicy(s, run', c, r, id, l, a);
    } else {
      run' := Go(s, run, c, r, id, at, Runtime(false), Saving(id, RuntimeDenied), [RuntimeChecked(false)]);
      AddObs(l.obs, [RateChecked(true)], [RuntimeChecked(false)]);
    }
  }

  lemma AddObs(a: seq<Obs>, b: seq<Obs>, c: seq<Obs>)
    ensures (a + b) + c == a + (b + c) && b + [] == b && a + [] == a
  {
  }

  const TWO: seq<Obs> := [RateChecked(true)] + [RuntimeChecked(true)]
  const THREE: seq<Obs> := TWO + [PolicyChecked(Allow)]

  lemma DrivePolicy(s: System, run: seq<Step>, c: CallId, r: Request, id: string, l: Local, a: Answers)
    returns (run': seq<Step>)
    requires Reaches(s, run, At(s, c, r, id, Passed(l, CheckingPolicy(id), TWO))) && a.runtimeOk
    ensures Reaches(s, run', At(s, c, r, id, Decided(s, r, id, l, Decide(true, Limiter.Acquire(l.m, r.session, s.limit).1, a))))
  {
    var at := Passed(l, CheckingPolicy(id), TWO);
    match a.verdict {
      case Allow =>
        run' := Go(s, run, c, r, id, at, Policy(Allow), TakingSlot(id), [PolicyChecked(Allow)]);
        AddObs(l.obs, TWO, [PolicyChecked(Allow)]);
        run' := DriveSlot(s, run', c, r, id, l, a);
      case Deny =>
        run' := Go(s, run, c, r, id, at, Policy(Deny), Saving(id, PolicyDenied), [PolicyChecked(Deny)]);
        AddObs(l.obs, TWO, [PolicyChecked(Deny)]);
      case AuthorizerError =>
        run' := Go(s, run, c, r, id, at, Policy(AuthorizerError), Saving(id, PolicyError), [PolicyChecked(AuthorizerError)]);
        AddObs(l.obs, TWO, [PolicyChecked(AuthorizerError)]);
    }
  }

  lemma DriveSlot(s: System, run: seq<Step>, c: CallId, r: Request, id: string, l: Local, a: Answers)
    returns (run': seq<Step>)
    requires Reaches(s, run, At(s, c, r, id, Passed(l, TakingSlot(id), THREE))) && a.runtimeOk && a.verdict.Allow?
    ensures Reaches(s, run', At(s, c, r, id, Decided(s, r, id, l, Decide(true, Limiter.Acquire(l.m, r.session, s.limit).1, a))))
  {
    var at, slot := Passed(l, TakingSlot(id), THREE), Limiter.Acquire(l.m, r.session, s.limit);
    if slot.1 {
      var held := Local(Invoking(id), slot.0, l.h, at.obs + [SlotAsked(true)]);
      MoveAt(s, c, r, id, at, Choice.Slot, held, [SlotAsked(true)]);
      run' := Extend(s, run, At(s, c, r, id, at), c, Choice.Slot);
      run' := Go(s, run', c, r, id, held, Tool(a.run), Saving(id, Ran(a.run)), [ToolRan(a.run)]);
      RanGates(l.obs, Ran(a.run));
    } else {
      var refused := Local(Saving(id, SlotDenied), l.m, l.h, at.obs + [SlotAsked(false)]);
      MoveAt(s, c, r, id, at, Choice.Slot, refused, [SlotAsked(false)]);
      run' := Extend(s, run, At(s, c, r, id, at), c, Choice.Slot);
      AddObs(l.obs, THREE, [SlotAsked(false)]);
    }
  }

  lemma RanGates(obs: seq<Obs>, e: Exit)
    requires !Early(e)
    ensures ((obs + THREE) + [SlotAsked(true)]) + [ToolRan(e.run)] == obs + Gates(e)
  {
    assert Gates(e) == THREE + [SlotAsked(true)] + [ToolRan(e.run)];
  }

  /** From the second save to the return. */
  lemma DriveClose(s: System, run: seq<Step>, c: CallId, r: Request, id: string, l: Local, e: Exit, fault: Fault)
    returns (run': seq<Step>)
    requires Reaches(s, run, At(s, c, r, id, l)) && l.pc == Saving(id, e)
    ensures Reaches(s, run', At(s, c, r, id, Local(Done(Ended(id, e, fault.Fine?)),
              if Early(e) then l.m else Limiter.Release(l.m, r.session, s.limit),
              l.h + Effect(fault, Begun(r, id).(status := StatusOf(e))),
              (l.obs + Closing(e, fault.Fine?)) + Freed(e))))
  {
    var ok, h := fault.Fine?, l.h + Effect(fault, Begun(r, id).(status := StatusOf(e)));
    if Succeeds(e) && !ok {
      run' := GoSave(s, run, c, r, id, l, fault, Returning(id, e, ok), StatusOf(e));
      assert Closing(e, ok) == [Saved(StatusOf(e), ok)];
    } else {
      run' := GoSave(s, run, c, r, id, l, fault, Auditing(id, e, ok), StatusOf(e));
      run' := DriveNotes(s, run', c, r, id, Local(Auditing(id, e, ok), l.m, h, l.obs + [Saved(StatusOf(e), ok)]), e, ok);
      AddObs(l.obs, [Saved(StatusOf(e), ok)], Audits(e, ok) + Emits(e, ok));
      assert Closing(e, ok) == [Saved(StatusOf(e), ok)] + (Audits(e, ok) + Emits(e, ok));
    }
    if Early(e) {
      AddObs(l.obs + Closing(e, ok), [], []);
    } else {
      run' := GoReturn(s, run', c, r, id, Local(Returning(id, e, ok), l.m, h, l.obs + Closing(e, ok)), e, ok);
    }
  }

  lemma GoReturn(s: System, run: seq<Step>, c: CallId, r: Request, id: string, l: Local, e: Exit, ok: bool)
    returns (run': seq<Step>)
    requires Reaches(s, run, At(s, c, r, id, l)) && l.pc == Returning(id, e, ok)
    ensures Reaches(s, run', At(s, c, r, id, Local(Done(Ended(id, e, ok)), Limiter.Release(l.m, r.session, s.limit), l.h, l.obs + [SlotFreed])))
  {
    MoveAt(s, c, r, id, l, Return, Local(Done(Ended(id, e, ok)), Limiter.Release(l.m, r.session, s.limit), l.h, l.obs + [SlotFreed]), [SlotFreed]);
    run' := Extend(s, run, At(s, c, r, id, l), c, Return);
  }

  /** Audit record and closing event. */
  lemma DriveNotes(s: System, run: seq<Step>, c: CallId, r: Request, id: string, l: Local, e: Exit, ok: bool)
    returns (run': seq<Step>)
    requires Reaches(s, run, At(s, c, r, id, l)) && l.pc == Auditing(id, e, ok) && (Succeeds(e) ==> ok)
    ensures Reaches(s, run', At(s, c, r, id, Local(if Early(e) then Done(Ended(id, e, ok)) else Returning(id, e, ok),
                                                   l.m, l.h, l.obs + (Audits(e, ok) + Emits(e, ok)))))
  {
    var status := StatusOf(e);
    if e.PolicyError? {
      run' := Go(s, run, c, r, id, l, Audit, Done(Ended(id, e, ok)), [Audited(status)]);
      AddObs(l.obs, [Audited(status)], []);
    } else {
      run' := Go(s, run, c, r, id, l, Audit, Emitting(id, e, ok), [Audited(status)]);
      run' := Go(s, run', c, r, id, Local(Emitting(id, e, ok), l.m, l.h, l.obs + [Audited(status)]), Emit,
                 if Early(e) then Done(Ended(id, e, ok)) else Returning(id, e, ok), [Emitted(TerminalKind(e))]);
      AddObs(l.obs, [Audited(status)], [Emitted(TerminalKind(e))]);
    }
  }

  /** The system after a call that ran alone. */
  function Finished(s: System, c: CallId, r: Request, id: string, result: Result, history: seq<Invocation>): (t: System)
  {
    if result.Rejected? || result.Existing? then With(s, c, r, Done(result))
    else At(s, c, r, id, Local(Done(result), s.inFlight, history, ResultTrace(result)))
  }

  /** From the arrival to the rate check. */
  lemma Opened(s: System, c: CallId, r: Request, id: string) returns (run: seq<Step>)
    requires c !in s.calls && id !in s.used && Dedup(s, r).None?
    ensures Reaches(s, run, At(s, c, r, id, Local(CheckingRate(id), s.inFlight, s.history + [Begun(r, id)], OPENING)))
  {
    var l;
    run, l := Admitted(s, c, r, id);
    run := GoSave(s, run, c, r, id, l, Fine, Announcing(id), Running);
    run := Go(s, run, c, r, id, Local(Announcing(id), s.inFlight, s.history + [Begun(r, id)], [] + [Saved(Running, true)]),
              Announce, CheckingRate(id), [Emitted(Started)]);
    assert [] + [Saved(Running, true)] + [Emitted(Started)] == OPENING;
  }

  lemma Pieces(e: Exit, ok: bool)
    ensures ((OPENING + Gates(e)) + Closing(e, ok)) + Freed(e) == EndTrace(e, ok)
  {
    AddFour(OPENING + Gates(e), [Saved(StatusOf(e), ok)], Audits(e, ok), Emits(e, ok));
  }

  lemma AddFour(a: seq<Obs>, b: seq<Obs>, c: seq<Obs>, d: seq<Obs>)
    ensures a + (b + c + d) == a + b + c + d
  {
  }

  /** After a call alone the system has the history the call left and the slots it found. */
  lemma FinishedShows(s: System, c: CallId, r: Request, id: string, rateOk: bool, slotOk: bool, a: Answers)
    ensures var o := Outcome(r, id, s.history, rateOk, slotOk, a);
            var t := Finished(s, c, r, id, o.0, o.1);
            t.history == o.1 && t.inFlight == s.inFlight && t.limit == s.limit
  {
  }

  lemma StoredRun(s: System, c: CallId, r: Request, id: string, rateOk: bool, a: Answers) returns (run: seq<Step>)
    requires c !in s.calls && id !in s.used && Dedup(s, r).None? && NoIdleEntry(s.inFlight)
    ensures var e := Decide(rateOk, Limiter.Acquire(s.inFlight, r.session, s.limit).1, a);
            var ok := a.second.Fine?;
            Reaches(s, run, At(s, c, r, id, Local(Done(Ended(id, e, ok)), s.inFlight,
              s.history + [Begun(r, id)] + Effect(a.second, Begun(r, id).(status := StatusOf(e))), EndTrace(e, ok))))
  {
    var e := Decide(rateOk, Limiter.Acquire(s.inFlight, r.session, s.limit).1, a);
    var l := Local(CheckingRate(id), s.inFlight, s.history + [Begun(r, id)], OPENING);
    run := Opened(s, c, r, id);
    run := DriveGates(s, run, c, r, id, l, rateOk, a);
    run := DriveClose(s, run, c, r, id, Decided(s, r, id, l, e), e, a.second);
    Pieces(e, a.second.Fine?);
    SlotsAgain(s, r, e, rateOk, a);
  }

  /** A call that ran its tool had its slot granted, so the release restores the slots. */
  lemma SlotsAgain(s: System, r: Request, e: Exit, rateOk: bool, a: Answers)
    requires e == Decide(rateOk, Limiter.Acquire(s.inFlight, r.session, s.limit).1, a) && NoIdleEntry(s.inFlight)
    ensures !Early(e) ==> Limiter.Release(Limiter.Acquire(s.inFlight, r.session, s.limit).0, r.session, s.limit) == s.inFlight
  {
    if !Early(e) { ReleaseUndoesAcquire(s.inFlight, r.session, s.limit); }
  }

  lemma FailedRun(s: System, c: CallId, r: Request, id: string, fault: Fault) returns (run: seq<Step>)
    requires c !in s.calls && id !in s.used && Dedup(s, r).None? && !fault.Fine?
    ensures Reaches(s, run, At(s, c, r, id, Local(Done(StoreFailed(id)), s.inFlight,
              s.history + Effect(fault, Begun(r, id)), ResultTrace(StoreFailed(id)))))
  {
    var l;
    run, l := Admitted(s, c, r, id);
    run := GoSave(s, run, c, r, id, l, fault, Done(StoreFailed(id)), Running);
    assert [] + [Saved(Running, false)] == ResultTrace(StoreFailed(id));
  }

  /** The stored store answers the lookup as the step system does. */
  lemma DedupKnown(s: System, r: Request)
    ensures Dedup(s, r).Some? <==> Known(r, s.history)
    ensures Known(r, s.history) ==> Dedup(s, r).value.id == FirstWithKey(s.history, RequestKey(r)).value.id
  {
    assert Trim("") == "";
    TrimExact(r.correlation);
    TrimExact(Trim(r.correlation));
    if Known(r, s.history) {
      DedupHit(s, r);
    } else if RequestKey(r) != "" {
      FindScansHistory(s.history, RequestKey(r));
    }
  }

  /** What a call does when it runs alone is a run of the step system, for every answer of its
      collaborators and every fault of its saves. */
  lemma CallIsRun(s: System, c: CallId, r: Request, id: string, rateOk: bool, a: Answers) returns (run: seq<Step>)
    requires c !in s.calls && id !in s.used && NoIdleEntry(s.inFlight)
    ensures var o := Outcome(r, id, s.history, rateOk, Limiter.Acquire(s.inFlight, r.session, s.limit).1, a);
            Reaches(s, run, Finished(s, c, r, id, o.0, o.1))
  {
    DedupKnown(s, r);
    if !a.sessionFound || !a.toolFound || (Trim(r.correlation) != "" && !a.lookupOk) {
      run := TurnedAway(s, c, r);
    } else if Known(r, s.history) {
      run := TurnedBack(s, c, r, id);
    } else if !a.first.Fine? {
      run := FailedRun(s, c, r, id, a.first);
    } else {
      run := StoredRun(s, c, r, id, rateOk, a);
    }
  }

  /** Everything goes well, except that the second save is lost. */
  const FINE_RUN := RunResult(NoError, true, true, true)
  const SILENT := Answers(true, true, true, Fine, true, Allow, FINE_RUN, FailsLost)

  lemma SilentOutcome(r: Request, id: string)
    ensures Outcome(r, id, [], true, true, SILENT) == (Ended(id, Ran(FINE_RUN), false), [Begun(r, id)])
  {
    assert !Known(r, []);
    assert Decide(true, true, SILENT) == Ran(FINE_RUN);
    assert [] + Effect(Fine, Begun(r, id)) + Effect(FailsLost, Begun(r, id).(status := Succeeded)) == [Begun(r, id)];
  }

  lemma SilentTrace()
    ensures EndTrace(Ran(FINE_RUN), false) == OPENING + CHECKS + [ToolRan(FINE_RUN), Saved(Succeeded, false), SlotFreed]
  {
    RanTrace(Ran(FINE_RUN), false);
    ClosingMeaning(Ran(FINE_RUN), false);
  }

  lemma LogOf(s: System, c: CallId, r: Request, id: string, l: Local)
    requires s.log == []
    ensures Project(At(s, c, r, id, l).log, id) == l.obs
  {
    ProjectAppend([], id, l.obs, id);
    assert At(s, c, r, id, l).log == [] + Entries(id, l.obs);
  }

  /** A successful run whose second save reports an error ends without audit record and without a
      closing event, with its slot given back. */
  lemma SilentSuccess(limit: int, r: Request, id: string) returns (run: seq<Step>)
    ensures Runs(Init(limit), run)
    ensures var t := After(Init(limit), run);
            && 0 in t.calls && t.calls[0] == Call(r, Done(Ended(id, Ran(FINE_RUN), false)))
            && Project(t.log, id) == OPENING + CHECKS + [ToolRan(FINE_RUN), Saved(Succeeded, false), SlotFreed]
  {
    var s := Init(limit);
    SilentOutcome(r, id);
    run := CallIsRun(s, 0, r, id, true, SILENT);
    LogOf(s, 0, r, id, Local(Done(Ended(id, Ran(FINE_RUN), false)), s.inFlight, [Begun(r, id)], EndTrace(Ran(FINE_RUN), false)));
    SilentTrace();
  }

  // ---- The code ------------------------------------------------------------------------------

  class Service {
    const store: InMemoryInvocationStore
    const limiter: Limiter.InvocationQuotaLimiter

    constructor (store: InMemoryInvocationStore, limiter: Limiter.InvocationQuotaLimiter)
      ensures this.store == store && this.limiter == limiter
    {
      this.store, this.limiter := store, limiter;
    }

    /** The step system that has the store's history and the limiter's slots. */
    ghost predicate Shows(s: System)
      reads store, limiter
    {
      s.history == store.history && s.inFlight == limiter.perSessionInFlight && s.limit == limiter.maxConcurrentPerSession
    }

    /** A save may be lost, or take effect and still report an error. */
    method StoreInvocation(inv: Invocation, fault: Fault) returns (ok: bool)
      requires store.Valid()
      modifies store
      ensures store.Valid() && store.history == old(store.history) + Effect(fault, inv)
      ensures ok == fault.Fine?
    {
      if !fault.FailsLost? { store.Save(inv); }
      ok := fault.Fine?;
    }

    /** Status, save, audit and Denied event of a denied invocation. */
    method DenyInvocation(inv: Invocation, fault: Fault, ghost e: Exit) returns (obs: seq<Obs>)
      requires store.Valid() && StatusOf(e).Denied?
      modifies store
      ensures store.Valid() && store.history == old(store.history) + Effect(fault, inv.(status := StatusOf(e)))
      ensures obs == Closing(e, fault.Fine?) == [Saved(Denied, fault.Fine?), Audited(Denied), Emitted(Refused)]
    {
      ClosingMeaning(e, fault.Fine?);
      var ok := StoreInvocation(inv.(status := Denied), fault);
      obs := [Saved(Denied, ok), Audited(Denied), Emitted(Refused)];
    }

    /** Save and audit of a failed invocation; the authorizer error path emits no event. */
    method FinishFailed(inv: Invocation, emit: bool, fault: Fault, ghost e: Exit) returns (obs: seq<Obs>)
      requires store.Valid() && StatusOf(e) == Status.Failed && emit == !e.PolicyError?
      modifies store
      ensures store.Valid() && store.history == old(store.history) + Effect(fault, inv.(status := StatusOf(e)))
      ensures obs == Closing(e, fault.Fine?)
    {
      ClosingMeaning(e, fault.Fine?);
      var ok := StoreInvocation(inv.(status := Status.Failed), fault);
      obs := [Saved(Status.Failed, ok), Audited(Status.Failed)];
      if emit { obs := obs + [Emitted(Completed)]; }
    }

    /** Records a call stopped at a gate, after the gates it passed. */
    method Refuse(inv: Invocation, fault: Fault, e: Exit) returns (obs: seq<Obs>)
      requires store.Valid() && Early(e)
      modifies store
      ensures store.Valid() && store.history == old(store.history) + Effect(fault, inv.(status := StatusOf(e)))
      ensures obs == Gates(e) + Closing(e, fault.Fine?)
    {
      if e.PolicyError? {
        obs := FinishFailed(inv, false, fault, e);
      } else {
        obs := DenyInvocation(inv, fault, e);
      }
      obs := Gates(e) + obs;
    }

    /** Rate, runtime, policy and slot checks in this order; None means the tool may run. The rate
        windows are charged whatever comes after. */
    method AuthorizeToolInvocation(inv: Invocation, principal: Limiter.Principal, now: nat, a: Answers)
      returns (denied: Option<Exit>, obs: seq<Obs>)
      requires store.Valid()
      modifies store, limiter
      ensures store.Valid()
      ensures var (windows, rateOk) := Charge(old(limiter.View()), limiter.caps, inv.sessionId, principal, now);
              var slot := Limiter.Acquire(old(limiter.perSessionInFlight), inv.sessionId, limiter.maxConcurrentPerSession);
              var e := Decide(rateOk, slot.1, a);
              && limiter.View() == windows
              && if Early(e) then
                   && denied == Some(e) && obs == Gates(e) + Closing(e, a.second.Fine?)
                   && store.history == old(store.history) + Effect(a.second, inv.(status := StatusOf(e)))
                   && limiter.perSessionInFlight == old(limiter.perSessionInFlight)
                 else
                   && denied == None && obs == CHECKS
                   && store.history == old(store.history)
                   && slot.1 && limiter.perSessionInFlight == slot.0
    {
      var rateOk := limiter.Allow(inv.sessionId, principal, now);
      ghost var slot := Limiter.Acquire(old(limiter.perSessionInFlight), inv.sessionId, limiter.maxConcurrentPerSession);
      if !rateOk {
        denied := Some(RateDenied);
      } else if !a.runtimeOk {
        denied := Some(RuntimeDenied);
      } else if a.verdict.AuthorizerError? {
        denied := Some(PolicyError);
      } else if a.verdict.Deny? {
        denied := Some(PolicyDenied);
      } else {
        var slotOk := limiter.AcquireConcurrency(inv.sessionId);
        denied := if slotOk then None else Some(SlotDenied);
      }
      assert denied == if Early(Decide(rateOk, slot.1, a)) then Some(Decide(rateOk, slot.1, a)) else None;
      obs := CHECKS;
      if denied.Some? { obs := Refuse(inv, a.second, denied.value); }
    }

    /** Records the conclusion of a tool run. Only a success reacts to a failed save: it is then
        neither audited nor announced. */
    method CompleteToolInvocation(inv: Invocation, a: Answers) returns (e: Exit, obs: seq<Obs>)
      requires store.Valid()
      modifies store
      ensures store.Valid() && store.history == old(store.history) + Effect(a.second, inv.(status := StatusOf(e)))
      ensures e == Ran(a.run) && obs == Closing(e, a.second.Fine?)
    {
      e := Ran(a.run);
      ClosingMeaning(e, a.second.Fine?);
      if a.run.err.NoError? && !a.run.quotaOk {
        obs := DenyInvocation(inv, a.second, e);
        return;
      }
      if a.run.err.Coded? {
        if a.run.err.code in DENIAL_CODES {
          obs := DenyInvocation(inv, a.second, e);
        } else {
          obs := FinishFailed(inv, true, a.second, e);
        }
        return;
      }
      if !a.run.artifactsOk {
        obs := FinishFailed(inv, true, a.second, e);
        return;
      }
      if !a.run.schemaOk {
        obs := FinishFailed(inv, true, a.second, e);
        return;
      }
      var ok := StoreInvocation(inv.(status := Succeeded), a.second);
      if !ok { return e, [Saved(Succeeded, false)]; }
      return e, [Saved(Succeeded, true), Audited(Succeeded), Emitted(Completed)];
    }

    /** Session, tool and deduplication checks; Some ends the call before it gets an ID. A lookup
        error rejects the call, and can only happen with a correlation ID. */
    method ValidateToolRequest(r: Request, a: Answers) returns (early: Option<Result>)
      requires store.Valid()
      ensures early == if !a.sessionFound || !a.toolFound || (Trim(r.correlation) != "" && !a.lookupOk) then Some(Rejected)
                       else if Known(r, store.history) then
                         Some(Existing(FirstWithKey(store.history, RequestKey(r)).value.id))
                       else None
    {
      if !a.sessionFound || !a.toolFound { return Some(Rejected); }
      var correlation := Trim(r.correlation);
      assert Trim("") == "";
      if correlation != "" {
        if !a.lookupOk { return Some(Rejected); }
        var hit := store.FindByCorrelation(r.session, r.tool, correlation);
        var k := RequestKey(r);
        if k != "" && FirstWithKey(store.history, k).Some? {
          ReplayMeaning(store.history, k, FirstWithKey(store.history, k).value.id);
          LastHasId(store.history, FirstWithKey(store.history, k).value.id);
        }
        if hit.Some? { return Some(Existing(hit.value.id)); }
      }
      return None;
    }

    /** A stored invocation from its Started event to the release of its slot. */
    method RunInvocation(inv: Invocation, principal: Limiter.Principal, now: nat, a: Answers)
      returns (e: Exit, obs: seq<Obs>)
      requires store.Valid() && NoIdleEntry(limiter.perSessionInFlight)
      modifies store, limiter
      ensures store.Valid() && obs == EndTrace(e, a.second.Fine?)
      ensures limiter.perSessionInFlight == old(limiter.perSessionInFlight)
      ensures var (windows, rateOk) := Charge(old(limiter.View()), limiter.caps, inv.sessionId, principal, now);
              && limiter.View() == windows
              && e == Decide(rateOk, Limiter.Acquire(old(limiter.perSessionInFlight), inv.sessionId, limiter.maxConcurrentPerSession).1, a)
      ensures store.history == old(store.history) + Effect(a.second, inv.(status := StatusOf(e)))
    {
      var denied, checks := AuthorizeToolInvocation(inv, principal, now, a);
      if denied.Some? {
        e := denied.value;
        DeniedTrace(e, a.second.Fine?);
        return e, OPENING + checks;
      }
      var closing;
      e, closing := CompleteToolInvocation(inv, a);
      ReleaseUndoesAcquire(old(limiter.perSessionInFlight), inv.sessionId, limiter.maxConcurrentPerSession);
      limiter.ReleaseConcurrency(inv.sessionId);
      RanTrace(e, a.second.Fine?);
      return e, OPENING + checks + [ToolRan(a.run)] + closing + [SlotFreed];
    }

    /** One call from start to return: it takes the exit of the first failing gate or of its run,
        saves what that exit asks for as far as the saves take effect, charges the rate windows if
        it was stored, and leaves the slots as it found them. */
    method Serve(r: Request, id: string, principal: Limiter.Principal, now: nat, a: Answers)
      returns (result: Result, obs: seq<Obs>)
      requires store.Valid() && NoIdleEntry(limiter.perSessionInFlight)
      modifies store, limiter
      ensures store.Valid() && obs == ResultTrace(result)
      ensures limiter.perSessionInFlight == old(limiter.perSessionInFlight)
      ensures var (windows, rateOk) := Charge(old(limiter.View()), limiter.caps, r.session, principal, now);
              var slotOk := Limiter.Acquire(old(limiter.perSessionInFlight), r.session, limiter.maxConcurrentPerSession).1;
              && (result, store.history) == Outcome(r, id, old(store.history), rateOk, slotOk, a)
              && limiter.View() == if result.Ended? then windows else old(limiter.View())
    {
      var early := ValidateToolRequest(r, a);
      if early.Some? { return early.value, []; }
      var inv := Begun(r, id);
      var stored := StoreInvocation(inv, a.first);
      if !stored { return StoreFailed(id), [Saved(Running, false)]; }
      var e;
      e, obs := RunInvocation(inv, principal, now, a);
      return Ended(id, e, a.second.Fine?), obs;
    }

    /** The call refines the step system: from every system `s` that shows the store and the
        limiter there is a run that ends in what they show afterwards, with the call done and
        exactly its observations added to the log. */
    method InvokeTool(r: Request, id: string, principal: Limiter.Principal, now: nat, a: Answers, ghost s: System, ghost c: CallId)
      returns (result: Result, obs: seq<Obs>, ghost run: seq<Step>)
      requires store.Valid() && NoIdleEntry(limiter.perSessionInFlight)
      requires Shows(s) && c !in s.calls && id !in s.used
      modifies store, limiter
      ensures store.Valid() && obs == ResultTrace(result)
      ensures Runs(s, run) && After(s, run) == Finished(s, c, r, id, result, store.history) && Shows(After(s, run))
      ensures var (windows, rateOk) := Charge(old(limiter.View()), limiter.caps, r.session, principal, now);
              var slotOk := Limiter.Acquire(old(limiter.perSessionInFlight), r.session, limiter.maxConcurrentPerSession).1;
              && (result, store.history) == Outcome(r, id, old(store.history), rateOk, slotOk, a)
              && limiter.View() == (if result.Ended? then windows else old(limiter.View()))
              && EndsAs(result, store.history, r, id, rateOk, slotOk, a)
    {
      ghost var rateOk := Charge(limiter.View(), limiter.caps, r.session, principal, now).1;
      ghost var slotOk := Limiter.Acquire(s.inFlight, r.session, s.limit).1;
      run := CallIsRun(s, c, r, id, rateOk, a);
      FinishedShows(s, c, r, id, rateOk, slotOk, a);
      EndedOutcome(r, id, s.history, rateOk, slotOk, a);
      result, obs := Serve(r, id, principal, now, a);
    }
  }
}
