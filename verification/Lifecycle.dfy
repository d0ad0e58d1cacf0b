/** InvokeTool as a step system: any number of calls interleave at every store, event, audit,
    limiter and tool operation. The tool, the stores, the event bus and the authorizer answer
    arbitrarily; invocation IDs are fresh. */
module Lifecycle {
  import opened Common
  import opened GoStrings
  import opened InvocationStore
  import Limiter

  type CallId = nat

  datatype Request = Request(session: string, tool: string, correlation: string)

  /** The answer of a tool, and of the checks of its result. */
  datatype RunError = NoError | Coded(code: string)

  datatype RunResult = RunResult(err: RunError, quotaOk: bool, artifactsOk: bool, schemaOk: bool)

  datatype Verdict = Allow | Deny | AuthorizerError

  /** The ways a stored invocation ends: at a gate, or after a run of its tool. */
  datatype Exit = RateDenied | RuntimeDenied | PolicyDenied | PolicyError | SlotDenied | Ran(run: RunResult)

  datatype Kind = Started | Completed | Refused

  /** What an invocation leaves behind, in order. */
  datatype Obs =
    | Saved(status: Status, ok: bool)
    | Emitted(kind: Kind)
    | Audited(status: Status)
    | RateChecked(pass: bool) | RuntimeChecked(pass: bool) | PolicyChecked(verdict: Verdict)
    | SlotAsked(granted: bool) | ToolRan(run: RunResult) | SlotFreed

  datatype Entry = Entry(id: string, obs: Obs)

  datatype Result =
    | Rejected                                    // unknown session or tool, or lookup error
    | Existing(id: string)                        // deduplicated
    | StoreFailed(sid: string)                    // the first save reported an error
    | Ended(eid: string, exit: Exit, ok: bool)    // `ok`: the second save reported success

  datatype Pc =
    | Validating
    | Storing(id: string)
    | Announcing(id: string)
    | CheckingRate(id: string)
    | CheckingRuntime(id: string)
    | CheckingPolicy(id: string)
    | TakingSlot(id: string)
    | Invoking(id: string)
    | Saving(id: string, exit: Exit)
    | Auditing(id: string, exit: Exit, ok: bool)
    | Emitting(id: string, exit: Exit, ok: bool)
    | Returning(id: string, exit: Exit, ok: bool)
    | Done(result: Result)

  datatype Call = Call(request: Request, pc: Pc)

  /** `history` holds the effective saves; the store is their replay. */
  datatype System = System(
    limit: int,
    calls: map<CallId, Call>,
    used: set<string>,
    inFlight: map<string, int>,
    history: seq<Invocation>,
    log: seq<Entry>)

  datatype Choice =
    | Arrive(request: Request)
    | Reject
    | Look(freshId: string)
    | Store(ok: bool, applied: bool)
    | Announce
    | Rate(pass: bool)
    | Runtime(pass: bool)
    | Policy(verdict: Verdict)
    | Slot
    | Tool(run: RunResult)
    | Audit
    | Emit
    | Return

  // ---- Exits -------------------------------------------------------------------------------

  /** The error codes that make a failed run a denied one. */
  const DENIAL_CODES := {"policy_denied", "approval_required", "environment_mismatch",
                         "no_previous_healthy_replicaset", "rollout_too_young"}

  /** The result quota is only checked for a run without error, and a run error outranks an
      artifact error, which outranks a schema error. */
  function RunStatus(run: RunResult): (s: Status)
  {
    if run.err.NoError? && !run.quotaOk then Denied
    else if run.err.Coded? then (if run.err.code in DENIAL_CODES then Denied else Status.Failed)
    else if !run.artifactsOk then Status.Failed
    else if !run.schemaOk then Status.Failed
    else Succeeded
  }

  /** The run ended well: no error, and quota, artifacts and schema all in order. */
  predicate Passes(run: RunResult)
  {
    run.err.NoError? && run.quotaOk && run.artifactsOk && run.schemaOk
  }

  /** The run was refused: its result is over quota, or its error carries a denial code. */
  predicate Refuses(run: RunResult)
  {
    match run.err
    case NoError => !run.quotaOk
    case Coded(code) =>
      code == "policy_denied" || code == "approval_required" || code == "environment_mismatch" ||
      code == "no_previous_healthy_replicaset" || code == "rollout_too_young"
  }

  /** Which answers lead to which status. */
  lemma RunStatusMeaning(run: RunResult)
    ensures RunStatus(run) == Succeeded <==> Passes(run)
    ensures RunStatus(run) == Denied <==> Refuses(run)
    ensures RunStatus(run) == Status.Failed <==> !Passes(run) && !Refuses(run)
  {
  }

  function StatusOf(e: Exit): (s: Status)
  {
    match e
    case PolicyError => Status.Failed
    case Ran(run) => RunStatus(run)
    case _ => Denied
  }

  /** The exit ended the call before a slot was taken. */
  predicate Early(e: Exit)
  {
    !e.Ran?
  }

  predicate Succeeds(e: Exit)
  {
    StatusOf(e).Succeeded?
  }

  function TerminalKind(e: Exit): (k: Kind)
  {
    if StatusOf(e).Denied? then Refused else Completed
  }

  // ---- Steps -------------------------------------------------------------------------------

  function IdOf(pc: Pc): (r: Option<string>)
  {
    match pc
    case Validating => None
    case Done(Rejected) => None
    case Done(Existing(_)) => None
    case Done(StoreFailed(id)) => Some(id)
    case Done(Ended(id, _, _)) => Some(id)
    case _ => Some(pc.id)
  }

  predicate Holding(pc: Pc)
  {
    match pc
    case Invoking(_) => true
    case Saving(_, e) => !Early(e)
    case Auditing(_, e, _) => !Early(e)
    case Emitting(_, e, _) => !Early(e)
    case Returning(_, _, _) => true
    case _ => false
  }

  /** The moves of one call that already has an ID; `slotOk` answers Slot. */
  predicate Can(pc: Pc, ch: Choice)
  {
    match ch
    case Store(ok, applied) => (pc.Storing? || pc.Saving?) && (ok ==> applied)
    case Announce => pc.Announcing?
    case Rate(_) => pc.CheckingRate?
    case Runtime(_) => pc.CheckingRuntime?
    case Policy(_) => pc.CheckingPolicy?
    case Slot => pc.TakingSlot?
    case Tool(_) => pc.Invoking?
    case Audit => pc.Auditing?
    case Emit => pc.Emitting?
    case Return => pc.Returning?
    case _ => false
  }

  function Advance(pc: Pc, ch: Choice, slotOk: bool): (r: (Pc, seq<Obs>))
    requires Can(pc, ch)
  {
    match ch
    case Store(ok, _) =>
      if pc.Storing? then
        (if ok then Announcing(pc.id) else Done(StoreFailed(pc.id)), [Saved(Running, ok)])
      else
        // only the success path reacts to a failed second save
        (if Succeeds(pc.exit) && !ok then Returning(pc.id, pc.exit, ok) else Auditing(pc.id, pc.exit, ok),
         [Saved(StatusOf(pc.exit), ok)])
    case Announce => (CheckingRate(pc.id), [Emitted(Started)])
    case Rate(pass) => (if pass then CheckingRuntime(pc.id) else Saving(pc.id, RateDenied), [RateChecked(pass)])
    case Runtime(pass) => (if pass then CheckingPolicy(pc.id) else Saving(pc.id, RuntimeDenied), [RuntimeChecked(pass)])
    case Policy(v) =>
      (match v
       case Allow => TakingSlot(pc.id)
       case Deny => Saving(pc.id, PolicyDenied)
       case AuthorizerError => Saving(pc.id, PolicyError),
       [PolicyChecked(v)])
    case Slot => (if slotOk then Invoking(pc.id) else Saving(pc.id, SlotDenied), [SlotAsked(slotOk)])
    case Tool(run) => (Saving(pc.id, Ran(run)), [ToolRan(run)])
    case Audit =>
      (if pc.exit.PolicyError? then Done(Ended(pc.id, pc.exit, pc.ok)) else Emitting(pc.id, pc.exit, pc.ok),
       [Audited(StatusOf(pc.exit))])
    case Emit =>
      (if Early(pc.exit) then Done(Ended(pc.id, pc.exit, pc.ok)) else Returning(pc.id, pc.exit, pc.ok),
       [Emitted(TerminalKind(pc.exit))])
    case Return => (Done(Ended(pc.id, pc.exit, pc.ok)), [SlotFreed])
  }

  function Entries(id: string, obs: seq<Obs>): (r: seq<Entry>)
  {
    seq(|obs|, i requires 0 <= i < |obs| => Entry(id, obs[i]))
  }

  function RecordOf(call: Call, id: string): (inv: Invocation)
  {
    Invocation(id, call.request.session, call.request.tool, Trim(call.request.correlation),
               if call.pc.Saving? then StatusOf(call.pc.exit) else Running)
  }

  predicate Enabled(s: System, c: CallId, ch: Choice)
  {
    match ch
    case Arrive(_) => c !in s.calls
    case Reject => c in s.calls && s.calls[c].pc.Validating?
    case Look(id) => c in s.calls && s.calls[c].pc.Validating? && id !in s.used
    case _ => c in s.calls && Can(s.calls[c].pc, ch)
  }

  /** The deduplication lookup of validateToolRequest. */
  function Dedup(s: System, r: Request): (hit: Option<Invocation>)
  {
    if Trim(r.correlation) == "" then None else Find(Replay(s.history), r.session, r.tool, Trim(r.correlation))
  }

  function SetPc(s: System, c: CallId, pc: Pc): (r: System)
    requires c in s.calls
  {
    s.(calls := s.calls[c := s.calls[c].(pc := pc)])
  }

  /** A move of a call that has its ID, with its effect on the shared state. */
  function Move(s: System, c: CallId, ch: Choice): (r: System)
    requires c in s.calls && Can(s.calls[c].pc, ch)
  {
    var call := s.calls[c];
    var (flights, slotOk) := Limiter.Acquire(s.inFlight, call.request.session, s.limit);
    var (pc, obs) := Advance(call.pc, ch, slotOk);
    var id := IdOf(call.pc).value;
    SetPc(s, c, pc).(
      log := s.log + Entries(id, obs),
      inFlight := if ch.Slot? then flights
                  else if ch.Return? then Limiter.Release(s.inFlight, call.request.session, s.limit)
                  else s.inFlight,
      history := if ch.Store? && ch.applied then s.history + [RecordOf(call, id)] else s.history)
  }

  function Next(s: System, c: CallId, ch: Choice): (r: System)
    requires Enabled(s, c, ch)
  {
    match ch
    case Arrive(request) => s.(calls := s.calls[c := Call(request, Validating)])
    case Reject => SetPc(s, c, Done(Rejected))
    case Look(id) =>
      var hit := Dedup(s, s.calls[c].request);
      if hit.Some? then SetPc(s, c, Done(Existing(hit.value.id)))
      else SetPc(s, c, Storing(id)).(used := s.used + {id})
    case _ => Move(s, c, ch)
  }

  datatype Step = Step(c: CallId, ch: Choice)

  predicate Runs(s: System, run: seq<Step>)
    decreases |run|
  {
    run == [] || (Enabled(s, run[0].c, run[0].ch) && Runs(Next(s, run[0].c, run[0].ch), run[1..]))
  }

  function After(s: System, run: seq<Step>): (r: System)
    requires Runs(s, run)
    decreases |run|
  {
    if run == [] then s else After(Next(s, run[0].c, run[0].ch), run[1..])
  }

  function Init(limit: int): (s: System)
  {
    System(limit, map[], {}, map[], [], [])
  }

  // ---- What an invocation leaves behind ------------------------------------------------------

  /** The part of the log that belongs to one invocation. */
  function Project(log: seq<Entry>, id: string): (r: seq<Obs>)
  {
    if log == [] then []
    else
      var front, last := log[..|log| - 1], log[|log| - 1];
      Project(front, id) + (if last.id == id then [last.obs] else [])
  }

  /** The answers up to an exit. */
  function Gates(e: Exit): (r: seq<Obs>)
  {
    match e
    case RateDenied => [RateChecked(false)]
    case RuntimeDenied => [RateChecked(true), RuntimeChecked(false)]
    case PolicyDenied => [RateChecked(true), RuntimeChecked(true), PolicyChecked(Deny)]
    case PolicyError => [RateChecked(true), RuntimeChecked(true), PolicyChecked(AuthorizerError)]
    case SlotDenied => [RateChecked(true), RuntimeChecked(true), PolicyChecked(Allow), SlotAsked(false)]
    case Ran(run) => [RateChecked(true), RuntimeChecked(true), PolicyChecked(Allow), SlotAsked(true), ToolRan(run)]
  }

  const OPENING: seq<Obs> := [Saved(Running, true), Emitted(Started)]

  function Closed(e: Exit, ok: bool): (r: seq<Obs>)
  {
    OPENING + Gates(e) + [Saved(StatusOf(e), ok)]
  }

  function Audits(e: Exit, ok: bool): (r: seq<Obs>)
  {
    if Succeeds(e) && !ok then [] else [Audited(StatusOf(e))]
  }

  function Emits(e: Exit, ok: bool): (r: seq<Obs>)
  {
    if e.PolicyError? || (Succeeds(e) && !ok) then [] else [Emitted(TerminalKind(e))]
  }

  /** The observations of an invocation that has reached `pc`. */
  function Trace(pc: Pc): (r: seq<Obs>)
  {
    match pc
    case Validating => []
    case Storing(_) => []
    case Announcing(_) => [Saved(Running, true)]
    case CheckingRate(_) => OPENING
    case CheckingRuntime(_) => OPENING + [RateChecked(true)]
    case CheckingPolicy(_) => OPENING + [RateChecked(true), RuntimeChecked(true)]
    case TakingSlot(_) => OPENING + [RateChecked(true), RuntimeChecked(true), PolicyChecked(Allow)]
    case Invoking(_) => OPENING + [RateChecked(true), RuntimeChecked(true), PolicyChecked(Allow), SlotAsked(true)]
    case Saving(_, e) => OPENING + Gates(e)
    case Auditing(_, e, ok) => Closed(e, ok)
    case Emitting(_, e, ok) => Closed(e, ok) + [Audited(StatusOf(e))]
    case Returning(_, e, ok) => Closed(e, ok) + Audits(e, ok) + Emits(e, ok)
    case Done(result) => ResultTrace(result)
  }

  function ResultTrace(result: Result): (r: seq<Obs>)
  {
    match result
    case Rejected => []
    case Existing(_) => []
    case StoreFailed(_) => [Saved(Running, false)]
    case Ended(_, e, ok) => EndTrace(e, ok)
  }

  function EndTrace(e: Exit, ok: bool): (r: seq<Obs>)
  {
    Closed(e, ok) + Audits(e, ok) + Emits(e, ok) + Freed(e)
  }

  function Freed(e: Exit): (r: seq<Obs>)
  {
    if Early(e) then [] else [SlotFreed]
  }

  /** Points a call can be at: only a success skips the audit, only after a failed save. */
  predicate Sound(pc: Pc)
  {
    match pc
    case Auditing(_, e, ok) => Succeeds(e) ==> ok
    case Emitting(_, e, ok) => (Succeeds(e) ==> ok) && !e.PolicyError?
    case Returning(_, e, _) => !Early(e)
    case _ => true
  }

  lemma OpeningTrace(pc: Pc, ch: Choice, slotOk: bool)
    requires Can(pc, ch) && Sound(pc) && !pc.Saving? && !pc.Auditing? && !pc.Emitting? && !pc.Returning?
    ensures var (pc', obs) := Advance(pc, ch, slotOk); Trace(pc') == Trace(pc) + obs && Sound(pc')
  {
  }

  lemma ClosingTrace(pc: Pc, ch: Choice, slotOk: bool)
    requires Can(pc, ch) && Sound(pc) && (pc.Saving? || pc.Auditing? || pc.Emitting? || pc.Returning?)
    ensures var (pc', obs) := Advance(pc, ch, slotOk); Trace(pc') == Trace(pc) + obs && Sound(pc')
  {
  }

  /** One move extends the trace by exactly what it logs. */
  lemma AdvanceTrace(pc: Pc, ch: Choice, slotOk: bool)
    requires Can(pc, ch) && Sound(pc)
    ensures var (pc', obs) := Advance(pc, ch, slotOk); Trace(pc') == Trace(pc) + obs && Sound(pc')
  {
    if pc.Saving? || pc.Auditing? || pc.Emitting? || pc.Returning? {
      ClosingTrace(pc, ch, slotOk);
    } else {
      OpeningTrace(pc, ch, slotOk);
    }
  }

  /** The log tells what the checks and the tool answered. */
  lemma AnswersLogged(pc: Pc, ch: Choice, slotOk: bool)
    requires Can(pc, ch)
    ensures var obs := Advance(pc, ch, slotOk).1;
            && (ch.Rate? ==> obs == [RateChecked(ch.pass)])
            && (ch.Runtime? ==> obs == [RuntimeChecked(ch.pass)])
            && (ch.Policy? ==> obs == [PolicyChecked(ch.verdict)])
            && (ch.Slot? ==> obs == [SlotAsked(slotOk)])
            && (ch.Tool? ==> obs == [ToolRan(ch.run)])
            && (ch.Store? ==> |obs| == 1 && obs[0].Saved? && obs[0].ok == ch.ok)
  {
  }

  /** A move keeps the ID; a slot is held from a granted Slot to the Return. */
  lemma AdvanceHolding(pc: Pc, ch: Choice, slotOk: bool)
    requires Can(pc, ch) && Sound(pc)
    ensures var (pc', _) := Advance(pc, ch, slotOk);
            && IdOf(pc') == IdOf(pc) && IdOf(pc).Some?
            && (ch.Slot? ==> !Holding(pc)) && (ch.Return? ==> Holding(pc))
            && Holding(pc') == if ch.Slot? then slotOk else if ch.Return? then false else Holding(pc)
  {
  }

  // ---- The invariant -------------------------------------------------------------------------

  /** The log of every call with an ID is the trace of the point it has reached. */
  ghost predicate Traced(s: System)
  {
    forall c :: c in s.calls && IdOf(s.calls[c].pc).Some? ==>
      var id := IdOf(s.calls[c].pc).value;
      id in s.used && Project(s.log, id) == Trace(s.calls[c].pc)
  }

  ghost predicate AllSound(s: System)
  {
    forall c :: c in s.calls ==> Sound(s.calls[c].pc)
  }

  /** Fresh IDs have no log. */
  ghost predicate Unlogged(s: System)
  {
    forall id :: id !in s.used ==> Project(s.log, id) == []
  }

  /** No two calls share an ID. */
  ghost predicate OwnIds(s: System)
  {
    forall c, d :: c in s.calls && d in s.calls && c != d && IdOf(s.calls[c].pc).Some?
      ==> IdOf(s.calls[c].pc) != IdOf(s.calls[d].pc)
  }

  ghost predicate Logged(s: System)
  {
    Traced(s) && AllSound(s) && Unlogged(s) && OwnIds(s)
  }

  /** The calls of a session that hold a slot. */
  function Holders(calls: map<CallId, Call>, session: string): (r: set<CallId>)
  {
    set c | c in calls && Holding(calls[c].pc) && calls[c].request.session == session
  }

  /** The in-flight map counts the held slots of a session, within the limit, without a zero
      entry. */
  ghost predicate CountsFor(limit: int, inFlight: map<string, int>, calls: map<CallId, Call>, session: string)
  {
    && Limiter.InFlight(inFlight, session) == |Holders(calls, session)| <= limit
    && (session in inFlight <==> Holders(calls, session) != {})
  }

  ghost predicate Counts(limit: int, inFlight: map<string, int>, calls: map<CallId, Call>)
  {
    limit > 0 ==> forall session :: CountsFor(limit, inFlight, calls, session)
  }

  ghost predicate Counted(s: System)
  {
    Counts(s.limit, s.inFlight, s.calls)
  }

  /** Every used ID belongs to a call. */
  ghost predicate Owned(s: System)
  {
    forall id :: id in s.used ==> exists c :: c in s.calls && IdOf(s.calls[c].pc) == Some(id)
  }

  /** The stored record of a call whose second save succeeded carries the terminal status. */
  ghost predicate Settled(s: System)
  {
    forall c :: c in s.calls && Terminal(s.calls[c].pc).Some? ==>
      LastWithId(s.history, Terminal(s.calls[c].pc).value.id) == Some(FinalRecord(s.calls[c]))
  }

  datatype Final = Final(id: string, exit: Exit)

  /** Past a second save that reported success. */
  function Terminal(pc: Pc): (r: Option<Final>)
  {
    match pc
    case Auditing(id, e, ok) => if ok then Some(Final(id, e)) else None
    case Emitting(id, e, ok) => if ok then Some(Final(id, e)) else None
    case Returning(id, e, ok) => if ok then Some(Final(id, e)) else None
    case Done(Ended(id, e, ok)) => if ok then Some(Final(id, e)) else None
    case _ => None
  }

  function FinalRecord(call: Call): (inv: Invocation)
    requires Terminal(call.pc).Some?
  {
    var f := Terminal(call.pc).value;
    Invocation(f.id, call.request.session, call.request.tool, Trim(call.request.correlation), StatusOf(f.exit))
  }

  ghost predicate Inv(s: System)
  {
    Logged(s) && Counted(s) && Owned(s) && Settled(s)
  }

  lemma {:induction false} ProjectAppend(log: seq<Entry>, id: string, obs: seq<Obs>, other: string)
    ensures Project(log + Entries(id, obs), other) == Project(log, other) + (if other == id then obs else [])
    decreases |obs|
  {
    if obs == [] {
      assert log + Entries(id, obs) == log;
    } else {
      var front, last := obs[..|obs| - 1], obs[|obs| - 1];
      var all := log + Entries(id, obs);
      assert all[..|all| - 1] == log + Entries(id, front);
      ProjectAppend(log, id, front, other);
      assert obs == front + [last];
    }
  }

  /** The system after a call has moved to `pc` and logged `obs`. */
  function Moved(s: System, c: CallId, id: string, pc: Pc, obs: seq<Obs>): (r: System)
    requires c in s.calls
  {
    SetPc(s, c, pc).(log := s.log + Entries(id, obs))
  }

  lemma MovedTraced(s: System, c: CallId, id: string, pc: Pc, obs: seq<Obs>)
    requires Traced(s) && OwnIds(s) && c in s.calls && IdOf(s.calls[c].pc) == Some(id) == IdOf(pc)
    requires Trace(pc) == Trace(s.calls[c].pc) + obs
    ensures Traced(Moved(s, c, id, pc, obs))
  {
    var s' := Moved(s, c, id, pc, obs);
    forall d | d in s'.calls && IdOf(s'.calls[d].pc).Some?
      ensures IdOf(s'.calls[d].pc).value in s'.used
      ensures Project(s'.log, IdOf(s'.calls[d].pc).value) == Trace(s'.calls[d].pc)
    {
      var other := IdOf(s'.calls[d].pc).value;
      ProjectAppend(s.log, id, obs, other);
      if d == c {
        assert s'.calls[d].pc == pc;
      } else {
        assert s'.calls[d] == s.calls[d];
        assert Project(s.log, other) + [] == Project(s.log, other);
      }
    }
  }

  lemma MovedUnlogged(s: System, c: CallId, id: string, pc: Pc, obs: seq<Obs>)
    requires Unlogged(s) && c in s.calls && id in s.used
    ensures Unlogged(Moved(s, c, id, pc, obs))
  {
    forall other | other !in s.used ensures Project(Moved(s, c, id, pc, obs).log, other) == [] {
      ProjectAppend(s.log, id, obs, other);
    }
  }

  lemma MovedOwnIds(s: System, c: CallId, id: string, pc: Pc, obs: seq<Obs>)
    requires OwnIds(s) && c in s.calls && IdOf(s.calls[c].pc) == Some(id) == IdOf(pc)
    ensures OwnIds(Moved(s, c, id, pc, obs))
  {
    var s' := Moved(s, c, id, pc, obs);
    assert forall d :: d in s'.calls ==> d in s.calls && IdOf(s'.calls[d].pc) == IdOf(s.calls[d].pc);
  }

  lemma Relog(s: System, c: CallId, id: string, pc: Pc, obs: seq<Obs>)
    requires Logged(s) && c in s.calls && IdOf(s.calls[c].pc) == Some(id) == IdOf(pc)
    requires Trace(pc) == Trace(s.calls[c].pc) + obs && Sound(pc)
    ensures Logged(Moved(s, c, id, pc, obs))
  {
    MovedTraced(s, c, id, pc, obs);
    MovedUnlogged(s, c, id, pc, obs);
    MovedOwnIds(s, c, id, pc, obs);
  }

  lemma AdvanceLogged(s: System, c: CallId, ch: Choice)
    requires Logged(s) && c in s.calls && Can(s.calls[c].pc, ch)
    ensures Logged(Move(s, c, ch))
  {
    var call := s.calls[c];
    var slotOk := Limiter.Acquire(s.inFlight, call.request.session, s.limit).1;
    AdvanceTrace(call.pc, ch, slotOk);
    AdvanceHolding(call.pc, ch, slotOk);
    var (pc, obs) := Advance(call.pc, ch, slotOk);
    var id := IdOf(call.pc).value;
    Relog(s, c, id, pc, obs);
    assert Logged(Moved(s, c, id, pc, obs));
  }

  /** A call without an ID may arrive or change, and may pick a fresh one. */
  lemma Admit(s: System, c: CallId, call: Call, ids: set<string>)
    requires Logged(s) && (c in s.calls ==> IdOf(s.calls[c].pc).None?)
    requires Sound(call.pc) && Trace(call.pc) == []
    requires IdOf(call.pc).Some? ==> IdOf(call.pc).value !in s.used && ids == {IdOf(call.pc).value}
    ensures Logged(s.(calls := s.calls[c := call], used := s.used + ids))
  {
    var s' := s.(calls := s.calls[c := call], used := s.used + ids);
    forall d, e | d in s'.calls && e in s'.calls && d != e && IdOf(s'.calls[d].pc).Some?
      ensures IdOf(s'.calls[d].pc) != IdOf(s'.calls[e].pc)
    {
      if d != c && e != c { assert d in s.calls && e in s.calls; }
    }
  }

  lemma AdmitLogged(s: System, c: CallId, ch: Choice)
    requires Logged(s) && Enabled(s, c, ch) && (ch.Arrive? || ch.Reject? || ch.Look?)
    ensures Logged(Next(s, c, ch))
  {
    var s' := Next(s, c, ch);
    var ids := if s'.calls[c].pc.Storing? then {s'.calls[c].pc.id} else {};
    Admit(s, c, s'.calls[c], ids);
    assert s' == s.(calls := s.calls[c := s'.calls[c]], used := s.used + ids);
  }

  lemma HoldersUpdate(calls: map<CallId, Call>, c: CallId, call: Call, session: string)
    requires c in calls ==> calls[c].request == call.request
    ensures Holders(calls[c := call], session) ==
            if Holding(call.pc) && call.request.session == session then Holders(calls, session) + {c}
            else Holders(calls, session) - {c}
  {
  }

  lemma AcquireCounts(limit: int, m: map<string, int>, calls: map<CallId, Call>, c: CallId, call: Call)
    requires Counts(limit, m, calls) && c in calls && calls[c].request == call.request
    requires !Holding(calls[c].pc) && Holding(call.pc) == Limiter.Acquire(m, call.request.session, limit).1
    ensures Counts(limit, Limiter.Acquire(m, call.request.session, limit).0, calls[c := call])
  {
    var m', calls' := Limiter.Acquire(m, call.request.session, limit).0, calls[c := call];
    if limit > 0 {
      forall other ensures CountsFor(limit, m', calls', other) {
        assert CountsFor(limit, m, calls, other);
        HoldersUpdate(calls, c, call, other);
        assert c !in Holders(calls, other);
      }
    }
  }

  lemma LastOne(h: set<CallId>, c: CallId)
    requires c in h
    ensures |h - {c}| == |h| - 1 && (|h| == 1 <==> h - {c} == {})
  {
  }

  lemma ReleaseCounts(limit: int, m: map<string, int>, calls: map<CallId, Call>, c: CallId, call: Call)
    requires Counts(limit, m, calls) && c in calls && calls[c].request == call.request
    requires Holding(calls[c].pc) && !Holding(call.pc)
    ensures Counts(limit, Limiter.Release(m, call.request.session, limit), calls[c := call])
  {
    var m', calls' := Limiter.Release(m, call.request.session, limit), calls[c := call];
    if limit > 0 {
      forall other ensures CountsFor(limit, m', calls', other) {
        assert CountsFor(limit, m, calls, other);
        HoldersUpdate(calls, c, call, other);
        if other == call.request.session { LastOne(Holders(calls, other), c); } else { assert c !in Holders(calls, other); }
      }
    }
  }

  lemma SameCounts(limit: int, m: map<string, int>, calls: map<CallId, Call>, c: CallId, call: Call)
    requires Counts(limit, m, calls) && (c in calls ==> calls[c].request == call.request)
    requires Holding(call.pc) <==> c in calls && Holding(calls[c].pc)
    ensures Counts(limit, m, calls[c := call])
  {
    var calls' := calls[c := call];
    if limit > 0 {
      forall other ensures CountsFor(limit, m, calls', other) {
        assert CountsFor(limit, m, calls, other);
        HoldersUpdate(calls, c, call, other);
        assert Holders(calls', other) == Holders(calls, other);
      }
    }
  }

  lemma MoveCounted(s: System, c: CallId, ch: Choice)
    requires Inv(s) && c in s.calls && Can(s.calls[c].pc, ch)
    ensures Counted(Move(s, c, ch))
  {
    var call := s.calls[c];
    var slotOk := Limiter.Acquire(s.inFlight, call.request.session, s.limit).1;
    AdvanceHolding(call.pc, ch, slotOk);
    var call' := call.(pc := Advance(call.pc, ch, slotOk).0);
    assert Move(s, c, ch).calls == s.calls[c := call'];
    if ch.Slot? {
      AcquireCounts(s.limit, s.inFlight, s.calls, c, call');
    } else if ch.Return? {
      ReleaseCounts(s.limit, s.inFlight, s.calls, c, call');
    } else {
      SameCounts(s.limit, s.inFlight, s.calls, c, call');
    }
  }

  lemma AdmitCounted(s: System, c: CallId, ch: Choice)
    requires Counted(s) && Enabled(s, c, ch) && (ch.Arrive? || ch.Reject? || ch.Look?)
    ensures Counted(Next(s, c, ch))
  {
    var s' := Next(s, c, ch);
    SameCounts(s.limit, s.inFlight, s.calls, c, s'.calls[c]);
    assert s'.calls == s.calls[c := s'.calls[c]];
  }

  lemma StepOwned(s: System, c: CallId, ch: Choice)
    requires Logged(s) && Owned(s) && Enabled(s, c, ch)
    ensures Owned(Next(s, c, ch))
  {
    var s' := Next(s, c, ch);
    if !ch.Arrive? && !ch.Reject? && !ch.Look? {
      var call := s.calls[c];
      AdvanceHolding(call.pc, ch, Limiter.Acquire(s.inFlight, call.request.session, s.limit).1);
    }
    forall id | id in s'.used ensures exists d :: d in s'.calls && IdOf(s'.calls[d].pc) == Some(id) {
      if id in s.used {
        var d :| d in s.calls && IdOf(s.calls[d].pc) == Some(id);
        assert d in s'.calls && IdOf(s'.calls[d].pc) == Some(id);
      } else {
        assert IdOf(s'.calls[c].pc) == Some(id);
      }
    }
  }

  lemma AdvanceTerminal(pc: Pc, ch: Choice, slotOk: bool)
    requires Can(pc, ch)
    ensures var pc' := Advance(pc, ch, slotOk).0;
            Terminal(pc') == if pc.Saving? && ch.Store? && ch.ok then Some(Final(pc.id, pc.exit)) else Terminal(pc)
    ensures Terminal(pc).Some? ==> IdOf(pc) == Some(Terminal(pc).value.id) && !ch.Store?
  {
  }

  lemma MoveSettled(s: System, c: CallId, ch: Choice)
    requires Logged(s) && Settled(s) && c in s.calls && Can(s.calls[c].pc, ch)
    ensures Settled(Move(s, c, ch))
  {
    var s', call := Move(s, c, ch), s.calls[c];
    var slotOk := Limiter.Acquire(s.inFlight, call.request.session, s.limit).1;
    AdvanceTerminal(call.pc, ch, slotOk);
    var id := IdOf(call.pc).value;
    var record := RecordOf(call, id);
    assert (s.history + [record])[..|s.history|] == s.history;
    forall d | d in s'.calls && Terminal(s'.calls[d].pc).Some?
      ensures LastWithId(s'.history, Terminal(s'.calls[d].pc).value.id) == Some(FinalRecord(s'.calls[d]))
    {
      if d != c {
        assert s'.calls[d] == s.calls[d];
        TerminalId(s.calls[d].pc);
      }
    }
  }

  lemma TerminalId(pc: Pc)
    requires Terminal(pc).Some?
    ensures IdOf(pc) == Some(Terminal(pc).value.id)
  {
  }

  lemma AdmitSettled(s: System, c: CallId, ch: Choice)
    requires Settled(s) && Enabled(s, c, ch) && (ch.Arrive? || ch.Reject? || ch.Look?)
    ensures Settled(Next(s, c, ch))
  {
    var s' := Next(s, c, ch);
    assert Terminal(s'.calls[c].pc).None? && s'.history == s.history;
  }

  lemma StepInv(s: System, c: CallId, ch: Choice)
    requires Inv(s) && Enabled(s, c, ch)
    ensures Inv(Next(s, c, ch)) && Next(s, c, ch).limit == s.limit
  {
    if ch.Arrive? || ch.Reject? || ch.Look? {
      AdmitLogged(s, c, ch);
      AdmitCounted(s, c, ch);
      AdmitSettled(s, c, ch);
    } else {
      AdvanceLogged(s, c, ch);
      MoveCounted(s, c, ch);
      MoveSettled(s, c, ch);
    }
    StepOwned(s, c, ch);
  }

  lemma {:induction false} RunInv(s: System, run: seq<Step>)
    requires Inv(s) && Runs(s, run)
    ensures Inv(After(s, run)) && After(s, run).limit == s.limit
    decreases |run|
  {
    if run != [] {
      StepInv(s, run[0].c, run[0].ch);
      RunInv(Next(s, run[0].c, run[0].ch), run[1..]);
    }
  }

  // ---- Main results --------------------------------------------------------------------------

  /** Slots over every interleaving with a positive limit: the map holds exactly the number of
      calls between a granted slot and their return, never more than the limit, and no entry
      when there are none. */
  lemma SlotSafety(limit: int, run: seq<Step>, session: string)
    requires limit > 0 && Runs(Init(limit), run)
    ensures var s := After(Init(limit), run);
            && Limiter.InFlight(s.inFlight, session) == |Holders(s.calls, session)| <= limit
            && (session in s.inFlight <==> Holders(s.calls, session) != {})
  {
    RunInv(Init(limit), run);
    var s := After(Init(limit), run);
    assert CountsFor(s.limit, s.inFlight, s.calls, session);
  }

  /** The same in terms of the log alone: the calls of a session that hold a slot are those whose
      log shows one granted and not freed. */
  lemma HoldersByLog(limit: int, run: seq<Step>, session: string, c: CallId)
    requires Runs(Init(limit), run)
    ensures var s := After(Init(limit), run);
            c in Holders(s.calls, session) <==>
              && c in s.calls && s.calls[c].request.session == session && IdOf(s.calls[c].pc).Some?
              && var obs := Project(s.log, IdOf(s.calls[c].pc).value); SlotAsked(true) in obs && SlotFreed !in obs
  {
    RunInv(Init(limit), run);
    var s := After(Init(limit), run);
    if c in s.calls { HoldingMeaning(s.calls[c].pc); }
  }

  /** In every interleaving, a tool runs only behind all gates and inside its slot: the log of
      an invocation that ran its tool starts with the answers of the gates, all of which let it
      pass, the granted slot and that one run, and if the slot has been given back that was its
      last entry. */
  lemma ToolOnlyBehindGates(limit: int, run: seq<Step>, id: string, result: RunResult)
    requires Runs(Init(limit), run)
    ensures var obs := Project(After(Init(limit), run).log, id);
            ToolRan(result) in obs ==> ToRun(result) <= obs && AfterRun(obs[|ToRun(result)|..])
  {
    RunInv(Init(limit), run);
    var s := After(Init(limit), run);
    if ToolRan(result) in Project(s.log, id) {
      var c :| c in s.calls && IdOf(s.calls[c].pc) == Some(id);
      var rest := TraceBehindGates(s.calls[c].pc, result);
      assert (ToRun(result) + rest)[|ToRun(result)|..] == rest;
    }
  }

  function ToRun(run: RunResult): (r: seq<Obs>)
  {
    OPENING + [RateChecked(true), RuntimeChecked(true), PolicyChecked(Allow), SlotAsked(true), ToolRan(run)]
  }

  /** What may follow a tool run: no gate, no second run, and a freed slot only at the end. */
  ghost predicate AfterRun(rest: seq<Obs>)
  {
    && (forall i :: 0 <= i < |rest| ==> rest[i].Saved? || rest[i].Audited? || rest[i].Emitted? || rest[i].SlotFreed?)
    && (forall i :: 0 <= i < |rest| && rest[i].SlotFreed? ==> i == |rest| - 1)
  }

  /** The exit at which a call that ran its tool is, or ended. */
  function ExitOf(pc: Pc): (r: Option<Exit>)
  {
    match pc
    case Saving(_, e) => Some(e)
    case Auditing(_, e, _) => Some(e)
    case Emitting(_, e, _) => Some(e)
    case Returning(_, e, _) => Some(e)
    case Done(Ended(_, e, _)) => Some(e)
    case _ => None
  }

  lemma RunNeedsExit(pc: Pc, run: RunResult)
    requires ToolRan(run) in Trace(pc)
    ensures ExitOf(pc).Some?
  {
  }

  /** What a call at this point logged after its opening and gates. */
  function Rest(pc: Pc): (r: seq<Obs>)
    requires ExitOf(pc).Some?
  {
    match pc
    case Saving(_, e) => []
    case Auditing(_, e, ok) => [Saved(StatusOf(e), ok)]
    case Emitting(_, e, ok) => [Saved(StatusOf(e), ok), Audited(StatusOf(e))]
    case Returning(_, e, ok) => [Saved(StatusOf(e), ok)] + Audits(e, ok) + Emits(e, ok)
    case Done(Ended(_, e, ok)) => [Saved(StatusOf(e), ok)] + Audits(e, ok) + Emits(e, ok) + Freed(e)
  }

  lemma RestAfterRun(pc: Pc)
    requires ExitOf(pc).Some?
    ensures AfterRun(Rest(pc))
  {
  }

  lemma Regroup(a: seq<Obs>, b: seq<Obs>, c: seq<Obs>, d: seq<Obs>, f: seq<Obs>)
    ensures ((a + b) + c) + d == a + (b + c + d) && (((a + b) + c) + d) + f == a + (b + c + d + f)
    ensures (a + b) + c == a + (b + c) && a + [] == a
  {
  }

  lemma TraceRest(pc: Pc)
    requires ExitOf(pc).Some?
    ensures Trace(pc) == OPENING + Gates(ExitOf(pc).value) + Rest(pc)
  {
    var start := OPENING + Gates(ExitOf(pc).value);
    match pc {
      case Auditing(_, e, ok) =>
      case Emitting(_, e, ok) => Regroup(start, [Saved(StatusOf(e), ok)], [Audited(StatusOf(e))], [], []);
      case Returning(_, e, ok) => Regroup(start, [Saved(StatusOf(e), ok)], Audits(e, ok), Emits(e, ok), []);
      case Done(Ended(_, e, ok)) => Regroup(start, [Saved(StatusOf(e), ok)], Audits(e, ok), Emits(e, ok), Freed(e));
      case Saving(_, e) => Regroup(start, [], [], [], []);
    }
  }

  lemma RestFreed(pc: Pc)
    requires ExitOf(pc).Some? && Sound(pc)
    ensures SlotAsked(true) !in Rest(pc) && (SlotFreed in Rest(pc) <==> pc.Done? && !Early(ExitOf(pc).value))
  {
  }

  lemma GatesGranted(e: Exit)
    ensures SlotAsked(true) in Gates(e) <==> !Early(e)
    ensures SlotFreed !in Gates(e) && SlotFreed !in OPENING && SlotAsked(true) !in OPENING
  {
  }

  lemma HoldingBefore(pc: Pc)
    requires ExitOf(pc).None?
    ensures Holding(pc) <==> SlotAsked(true) in Trace(pc) && SlotFreed !in Trace(pc)
  {
  }

  /** A slot is held exactly when the log shows it granted and not yet freed. */
  lemma HoldingMeaning(pc: Pc)
    requires Sound(pc)
    ensures Holding(pc) <==> SlotAsked(true) in Trace(pc) && SlotFreed !in Trace(pc)
  {
    if ExitOf(pc).Some? {
      TraceRest(pc);
      RestFreed(pc);
      GatesGranted(ExitOf(pc).value);
    } else {
      HoldingBefore(pc);
    }
  }

  lemma GatesRun(e: Exit, run: RunResult)
    ensures ToolRan(run) in Gates(e) ==> e == Ran(run) && OPENING + Gates(e) == ToRun(run)
  {
  }

  lemma TraceBehindGates(pc: Pc, run: RunResult) returns (rest: seq<Obs>)
    requires ToolRan(run) in Trace(pc)
    ensures Trace(pc) == ToRun(run) + rest && AfterRun(rest) && ExitOf(pc) == Some(Ran(run))
  {
    RunNeedsExit(pc, run);
    var e := ExitOf(pc).value;
    rest := Rest(pc);
    TraceRest(pc);
    RestAfterRun(pc);
    assert ToolRan(run) in Gates(e);
    GatesRun(e, run);
  }

  /** What an observation is about. */
  datatype Aspect = Saves | AuditRecords | Events | Slots

  predicate Concerns(a: Aspect, o: Obs)
  {
    match a
    case Saves => o.Saved?
    case AuditRecords => o.Audited?
    case Events => o.Emitted?
    case Slots => (o.SlotAsked? && o.granted) || o.ToolRan? || o.SlotFreed?
  }

  /** The entries of one kind, in order. */
  function Select(obs: seq<Obs>, keep: Aspect): (r: seq<Obs>)
  {
    if obs == [] then [] else One(obs[0], keep) + Select(obs[1..], keep)
  }

  lemma Associate(a: seq<Obs>, b: seq<Obs>, c: seq<Obs>)
    ensures (a + b) + c == a + (b + c)
  {
  }

  lemma {:induction false} SelectConcat(a: seq<Obs>, b: seq<Obs>, keep: Aspect)
    ensures Select(a + b, keep) == Select(a, keep) + Select(b, keep)
  {
    if a == [] {
      assert a + b == b;
    } else {
      assert (a + b)[1..] == a[1..] + b && (a + b)[0] == a[0];
      SelectConcat(a[1..], b, keep);
      Associate(One(a[0], keep), Select(a[1..], keep), Select(b, keep));
    }
  }

  lemma {:induction false} SelectNone(a: seq<Obs>, keep: Aspect)
    requires forall i :: 0 <= i < |a| ==> !Concerns(keep, a[i])
    ensures Select(a, keep) == []
  {
    if a != [] { SelectNone(a[1..], keep); }
  }

  function One(o: Obs, keep: Aspect): (r: seq<Obs>)
  {
    if Concerns(keep, o) then [o] else []
  }

  lemma SelectSnoc(a: seq<Obs>, o: Obs, keep: Aspect)
    ensures Select(a + [o], keep) == Select(a, keep) + One(o, keep)
  {
    SelectConcat(a, [o], keep);
    assert [o][1..] == [];
  }

  lemma SelectSkip(a: seq<Obs>, b: seq<Obs>, keep: Aspect)
    requires forall i :: 0 <= i < |b| ==> !Concerns(keep, b[i])
    ensures Select(a + b, keep) == Select(a, keep)
  {
    SelectConcat(a, b, keep);
    SelectNone(b, keep);
  }

  lemma SelectClosed(e: Exit, ok: bool, keep: Aspect)
    requires forall i :: 0 <= i < |Gates(e)| ==> !Concerns(keep, Gates(e)[i])
    ensures Select(Closed(e, ok), keep) ==
            One(Saved(Running, true), keep) + One(Emitted(Started), keep) + One(Saved(StatusOf(e), ok), keep)
  {
    SelectSnoc([], Saved(Running, true), keep);
    assert [] + [Saved(Running, true)] == [Saved(Running, true)];
    SelectSnoc([Saved(Running, true)], Emitted(Started), keep);
    assert OPENING == [Saved(Running, true)] + [Emitted(Started)];
    SelectSkip(OPENING, Gates(e), keep);
    SelectSnoc(OPENING + Gates(e), Saved(StatusOf(e), ok), keep);
  }

  /** Selecting from the complete log of an ended invocation, piece by piece. */
  lemma SelectEnded(e: Exit, ok: bool, keep: Aspect)
    ensures Select(EndTrace(e, ok), keep) ==
            Select(Closed(e, ok), keep) + Select(Audits(e, ok), keep) + Select(Emits(e, ok), keep) + Select(Freed(e), keep)
  {
    var a := Closed(e, ok) + Audits(e, ok);
    SelectConcat(Closed(e, ok), Audits(e, ok), keep);
    SelectConcat(a, Emits(e, ok), keep);
    SelectConcat(a + Emits(e, ok), Freed(e), keep);
  }

  lemma SelectOne(o: Obs, keep: Aspect)
    ensures Select([o], keep) == One(o, keep)
  {
    assert [o][1..] == [];
  }

  lemma QuietGates(e: Exit, keep: Aspect)
    requires !keep.Slots?
    ensures forall i :: 0 <= i < |Gates(e)| ==> !Concerns(keep, Gates(e)[i])
  {
  }

  lemma QuietFreed(e: Exit, keep: Aspect)
    requires !keep.Slots?
    ensures Select(Freed(e), keep) == []
  {
    SelectNone(Freed(e), keep);
  }

  lemma QuietAudits(e: Exit, ok: bool, keep: Aspect)
    requires !keep.AuditRecords?
    ensures Select(Audits(e, ok), keep) == []
  {
    SelectNone(Audits(e, ok), keep);
  }

  lemma QuietEmits(e: Exit, ok: bool, keep: Aspect)
    requires !keep.Events?
    ensures Select(Emits(e, ok), keep) == []
  {
    SelectNone(Emits(e, ok), keep);
  }

  lemma DropEmpty(a: seq<Obs>, b: seq<Obs>)
    ensures a + [] + b + [] == a + b && a + b + [] + [] == a + b && a + [] + [] + b == a + b
    ensures [] + a == a && a + [] == a
  {
  }

  lemma EndSaves(e: Exit, ok: bool)
    ensures Select(EndTrace(e, ok), Saves) == [Saved(Running, true), Saved(StatusOf(e), ok)]
  {
    SelectEnded(e, ok, Saves);
    QuietGates(e, Saves);
    SelectClosed(e, ok, Saves);
    QuietFreed(e, Saves);
    QuietAudits(e, ok, Saves);
    QuietEmits(e, ok, Saves);
  }

  lemma EndAudits(e: Exit, ok: bool)
    ensures Select(EndTrace(e, ok), AuditRecords) == Audits(e, ok)
  {
    SelectEnded(e, ok, AuditRecords);
    QuietGates(e, AuditRecords);
    SelectClosed(e, ok, AuditRecords);
    QuietFreed(e, AuditRecords);
    QuietEmits(e, ok, AuditRecords);
    SelectOne(Audited(StatusOf(e)), AuditRecords);
  }

  lemma EndEvents(e: Exit, ok: bool)
    ensures Select(EndTrace(e, ok), Events) == [Emitted(Started)] + Emits(e, ok)
  {
    SelectEnded(e, ok, Events);
    QuietGates(e, Events);
    SelectClosed(e, ok, Events);
    DropEmpty([Emitted(Started)], Emits(e, ok));
    DropEmpty([Emitted(Started)], []);
    QuietFreed(e, Events);
    QuietAudits(e, ok, Events);
    SelectOne(Emitted(TerminalKind(e)), Events);
  }

  /** The closing records in terms of the exit and its status. */
  lemma ClosingRecords(e: Exit, ok: bool)
    ensures Audits(e, ok) == (if Succeeds(e) && !ok then [] else [Audited(StatusOf(e))])
    ensures Emits(e, ok) == (if e.PolicyError? || (Succeeds(e) && !ok) then []
                             else if StatusOf(e).Denied? then [Emitted(Refused)] else [Emitted(Completed)])
  {
  }

  lemma SelectGates(e: Exit)
    ensures Select(Gates(e), Slots) == if Early(e) then [] else [SlotAsked(true), ToolRan(e.run)]
  {
    if Early(e) {
      SelectNone(Gates(e), Slots);
    } else {
      var passed := [RateChecked(true), RuntimeChecked(true), PolicyChecked(Allow)];
      assert Gates(e) == passed + [SlotAsked(true)] + [ToolRan(e.run)];
      SelectNone(passed, Slots);
      SelectSnoc(passed, SlotAsked(true), Slots);
      SelectSnoc(passed + [SlotAsked(true)], ToolRan(e.run), Slots);
    }
  }

  lemma QuietOpening()
    ensures Select(OPENING, Slots) == []
  {
    assert forall i :: 0 <= i < |OPENING| ==> !Concerns(Slots, OPENING[i]);
    SelectNone(OPENING, Slots);
  }

  lemma SelectMiddle(a: seq<Obs>, b: seq<Obs>, o: Obs, keep: Aspect)
    requires Select(a, keep) == [] && !Concerns(keep, o)
    ensures Select(a + b + [o], keep) == Select(b, keep)
  {
    SelectConcat(a, b, keep);
    SelectSnoc(a + b, o, keep);
  }

  lemma ClosedSlots(e: Exit, ok: bool)
    ensures Select(Closed(e, ok), Slots) == Select(Gates(e), Slots)
  {
    QuietOpening();
    SelectMiddle(OPENING, Gates(e), Saved(StatusOf(e), ok), Slots);
  }

  lemma FreedSlots(e: Exit)
    ensures Select(Freed(e), Slots) == Freed(e)
  {
    SelectSnoc([], SlotFreed, Slots);
    assert [] + [SlotFreed] == [SlotFreed];
  }

  lemma EndSlots(e: Exit, ok: bool)
    ensures Select(EndTrace(e, ok), Slots) == if Early(e) then [] else [SlotAsked(true), ToolRan(e.run), SlotFreed]
  {
    SelectEnded(e, ok, Slots);
    ClosedSlots(e, ok);
    SelectGates(e);
    FreedSlots(e);
    QuietAudits(e, ok, Slots);
    QuietEmits(e, ok, Slots);
    DropEmpty(Select(Gates(e), Slots), Freed(e));
  }

  lemma EndedTrace(limit: int, run: seq<Step>, c: CallId, id: string, e: Exit, ok: bool)
    requires Runs(Init(limit), run)
    requires c in After(Init(limit), run).calls && After(Init(limit), run).calls[c].pc == Done(Ended(id, e, ok))
    ensures Project(After(Init(limit), run).log, id) == EndTrace(e, ok)
    ensures ok ==> var last := LastWithId(After(Init(limit), run).history, id);
                   last.Some? && last.value.status == StatusOf(e)
  {
    RunInv(Init(limit), run);
    var s := After(Init(limit), run);
    assert IdOf(s.calls[c].pc) == Some(id);
    assert ok ==> Terminal(s.calls[c].pc) == Some(Final(id, e));
  }

  /** The bookkeeping of every ended invocation, in every interleaving: two saves, Running and
      then the terminal status; one audit record with that status, missing exactly when the
      success save failed; Started and then at most one of Completed and Refused, Refused
      exactly for a denied status, and neither exactly for an authorizer error or a failed
      success save. A slot is taken and given back once if the tool ran, and not at all
      otherwise. The stored record carries the terminal status if its save succeeded. */
  lemma EndedBookkeeping(limit: int, run: seq<Step>, c: CallId, id: string, e: Exit, ok: bool)
    requires Runs(Init(limit), run)
    requires c in After(Init(limit), run).calls && After(Init(limit), run).calls[c].pc == Done(Ended(id, e, ok))
    ensures var obs, status := Project(After(Init(limit), run).log, id), StatusOf(e);
            && status != Running
            && Select(obs, Saves) == [Saved(Running, true), Saved(status, ok)]
            && Select(obs, AuditRecords) == (if Succeeds(e) && !ok then [] else [Audited(status)])
            && Select(obs, Events) ==
                 [Emitted(Started)] + (if e.PolicyError? || (Succeeds(e) && !ok) then []
                                       else if status.Denied? then [Emitted(Refused)] else [Emitted(Completed)])
            && Select(obs, Slots) == (if Early(e) then [] else [SlotAsked(true), ToolRan(e.run), SlotFreed])
    ensures ok ==> var last := LastWithId(After(Init(limit), run).history, id);
                   last.Some? && last.value.status == StatusOf(e)
  {
    EndedTrace(limit, run, c, id, e, ok);
    EndSaves(e, ok);
    EndAudits(e, ok);
    EndEvents(e, ok);
    EndSlots(e, ok);
    ClosingRecords(e, ok);
  }

  /** An answer of a gate or of the tool, as opposed to bookkeeping. */
  predicate Answer(o: Obs)
  {
    o.RateChecked? || o.RuntimeChecked? || o.PolicyChecked? || o.SlotAsked? || o.ToolRan?
  }

  lemma AnswersOfEnd(e: Exit, ok: bool, o: Obs)
    requires Answer(o)
    ensures o in EndTrace(e, ok) <==> o in Gates(e)
  {
    TraceRest(Done(Ended("", e, ok)));
    RestAfterRun(Done(Ended("", e, ok)));
    assert EndTrace(e, ok) == OPENING + Gates(e) + Rest(Done(Ended("", e, ok)));
  }

  /** Some run of the tool in the log has the property. */
  ghost predicate SomeRun(obs: seq<Obs>, p: RunResult -> bool)
  {
    exists run :: ToolRan(run) in obs && p(run)
  }

  lemma RunOfEnd(e: Exit, ok: bool, p: RunResult -> bool)
    ensures SomeRun(EndTrace(e, ok), p) <==> e.Ran? && p(e.run)
  {
    forall run ensures ToolRan(run) in EndTrace(e, ok) <==> e == Ran(run) {
      AnswersOfEnd(e, ok, ToolRan(run));
    }
  }

  lemma GatesOfEnd(e: Exit, ok: bool)
    ensures RateChecked(false) in EndTrace(e, ok) <==> e.RateDenied?
    ensures RuntimeChecked(false) in EndTrace(e, ok) <==> e.RuntimeDenied?
    ensures PolicyChecked(Deny) in EndTrace(e, ok) <==> e.PolicyDenied?
    ensures PolicyChecked(AuthorizerError) in EndTrace(e, ok) <==> e.PolicyError?
    ensures SlotAsked(false) in EndTrace(e, ok) <==> e.SlotDenied?
  {
    AnswersOfEnd(e, ok, RateChecked(false));
    AnswersOfEnd(e, ok, RuntimeChecked(false));
    AnswersOfEnd(e, ok, PolicyChecked(Deny));
    AnswersOfEnd(e, ok, PolicyChecked(AuthorizerError));
    AnswersOfEnd(e, ok, SlotAsked(false));
  }

  /** Which answers lead to which status, over every run: an ended call succeeded exactly when its
      tool ran and passed; it was denied exactly when a gate said no or the run was refused; it
      failed exactly when the authorizer failed or the run neither passed nor was refused. */
  lemma EndedStatus(limit: int, run: seq<Step>, c: CallId, id: string, e: Exit, ok: bool)
    requires Runs(Init(limit), run)
    requires c in After(Init(limit), run).calls && After(Init(limit), run).calls[c].pc == Done(Ended(id, e, ok))
    ensures var obs, status := Project(After(Init(limit), run).log, id), StatusOf(e);
            && (status == Succeeded <==> SomeRun(obs, Passes))
            && (status == Denied <==> RateChecked(false) in obs || RuntimeChecked(false) in obs || PolicyChecked(Deny) in obs
                                      || SlotAsked(false) in obs || SomeRun(obs, Refuses))
            && (status == Status.Failed <==> PolicyChecked(AuthorizerError) in obs
                                             || SomeRun(obs, (r: RunResult) => !Passes(r) && !Refuses(r)))
  {
    EndedTrace(limit, run, c, id, e, ok);
    GatesOfEnd(e, ok);
    RunOfEnd(e, ok, Passes);
    RunOfEnd(e, ok, Refuses);
    RunOfEnd(e, ok, (r: RunResult) => !Passes(r) && !Refuses(r));
    if e.Ran? { RunStatusMeaning(e.run); }
  }

  // ---- Every call can finish -----------------------------------------------------------------

  /** Own steps a call has left at most. */
  function Left(pc: Pc): (n: nat)
    ensures n == 0 <==> pc.Done?
    ensures n <= 12
  {
    match pc
    case Validating => 12
    case Storing(_) => 11
    case Announcing(_) => 10
    case CheckingRate(_) => 9
    case CheckingRuntime(_) => 8
    case CheckingPolicy(_) => 7
    case TakingSlot(_) => 6
    case Invoking(_) => 5
    case Saving(_, _) => 4
    case Auditing(_, _, _) => 3
    case Emitting(_, _, _) => 2
    case Returning(_, _, _) => 1
    case Done(_) => 0
  }

  /** Own steps of a call in a run. */
  function Own(run: seq<Step>, c: CallId): (n: nat)
  {
    if run == [] then 0 else (if run[0].c == c then 1 else 0) + Own(run[1..], c)
  }

  lemma AdvanceLeft(pc: Pc, ch: Choice, slotOk: bool)
    requires Can(pc, ch)
    ensures Left(Advance(pc, ch, slotOk).0) < Left(pc)
  {
  }

  lemma StepLeft(s: System, c: CallId, ch: Choice)
    requires Enabled(s, c, ch) && c in s.calls
    ensures Left(Next(s, c, ch).calls[c].pc) < Left(s.calls[c].pc)
  {
    if !ch.Reject? && !ch.Look? {
      AdvanceLeft(s.calls[c].pc, ch, Limiter.Acquire(s.inFlight, s.calls[c].request.session, s.limit).1);
    }
  }

  lemma StepOthers(s: System, c: CallId, ch: Choice, d: CallId)
    requires Enabled(s, c, ch) && d in s.calls && d != c
    ensures d in Next(s, c, ch).calls && Next(s, c, ch).calls[d] == s.calls[d]
  {
  }

  /** Whatever the other calls do, a call takes at most twelve steps of its own after arriving. */
  lemma {:induction false} StepsBounded(s: System, run: seq<Step>, c: CallId)
    requires Runs(s, run) && c in s.calls
    ensures c in After(s, run).calls && Own(run, c) + Left(After(s, run).calls[c].pc) <= Left(s.calls[c].pc)
    decreases |run|
  {
    if run != [] {
      if run[0].c == c { StepLeft(s, c, run[0].ch); } else { StepOthers(s, run[0].c, run[0].ch, c); }
      StepsBounded(Next(s, run[0].c, run[0].ch), run[1..], c);
    }
  }

  /** The step a call can take without help from any other call or collaborator's good will. */
  function AnyChoice(pc: Pc): (ch: Choice)
    requires !pc.Done?
  {
    match pc
    case Validating => Reject
    case Storing(_) => Choice.Store(false, false)
    case Announcing(_) => Announce
    case CheckingRate(_) => Rate(false)
    case CheckingRuntime(_) => Runtime(false)
    case CheckingPolicy(_) => Policy(AuthorizerError)
    case TakingSlot(_) => Slot
    case Invoking(_) => Tool(RunResult(Coded("timeout"), false, false, false))
    case Saving(_, _) => Choice.Store(false, false)
    case Auditing(_, _, _) => Audit
    case Emitting(_, _, _) => Emit
    case Returning(_, _, _) => Return
  }

  /** No call is ever stuck: from every state, even when every collaborator fails, its own steps
      alone bring it to an end. With the bookkeeping of ended calls, every slot comes back. */
  lemma {:induction false} Finishes(s: System, c: CallId) returns (run: seq<Step>)
    requires c in s.calls
    ensures Runs(s, run) && c in After(s, run).calls && After(s, run).calls[c].pc.Done?
    decreases Left(s.calls[c].pc)
  {
    run := [];
    if !s.calls[c].pc.Done? {
      var ch := AnyChoice(s.calls[c].pc);
      StepLeft(s, c, ch);
      var rest := Finishes(Next(s, c, ch), c);
      run := [Step(c, ch)] + rest;
      assert run[1..] == rest;
    }
  }

  // ---- Deduplication over runs ---------------------------------------------------------------

  function RequestKey(r: Request): (k: string)
  {
    LookupKey(r.session, r.tool, Trim(r.correlation))
  }

  lemma {:induction false} FirstStable(history: seq<Invocation>, more: seq<Invocation>, k: string)
    requires FirstWithKey(history, k).Some?
    ensures FirstWithKey(history + more, k) == FirstWithKey(history, k)
  {
    if KeyOf(history[0]) != k {
      assert (history + more)[1..] == history[1..] + more;
      FirstStable(history[1..], more, k);
    }
  }

  lemma StepHistory(s: System, c: CallId, ch: Choice)
    requires Enabled(s, c, ch)
    ensures s.history <= Next(s, c, ch).history
  {
  }

  /** A lookup for a key that has been saved returns the ID that was saved first. */
  lemma DedupHit(s: System, r: Request)
    requires RequestKey(r) != "" && FirstWithKey(s.history, RequestKey(r)).Some?
    ensures Dedup(s, r).Some? && Dedup(s, r).value.id == FirstWithKey(s.history, RequestKey(r)).value.id
  {
    var k := RequestKey(r);
    FindScansHistory(s.history, k);
    ReplayMeaning(s.history, k, "");
    LastHasId(s.history, FirstWithKey(s.history, k).value.id);
    assert Trim("") == "";
  }

  lemma {:induction false} LastHasId(history: seq<Invocation>, id: string)
    ensures LastWithId(history, id).Some? ==> LastWithId(history, id).value.id == id
  {
    if history != [] { LastHasId(history[..|history| - 1], id); }
  }

  /** Once some save carries a request's key, every call for it that has not yet looked up ends
      without an ID of its own, so without a log entry and without a tool run: it is rejected,
      or it returns the ID that was saved first. */
  lemma {:induction false} AtMostOnce(s: System, run: seq<Step>, c: CallId, r: Request)
    requires Runs(s, run)
    requires RequestKey(r) != "" && FirstWithKey(s.history, RequestKey(r)).Some?
    requires c !in s.calls || (s.calls[c].request == r && s.calls[c].pc.Validating?)
    requires forall i :: 0 <= i < |run| && run[i].c == c && run[i].ch.Arrive? ==> run[i].ch.request == r
    ensures var s', first := After(s, run), FirstWithKey(s.history, RequestKey(r)).value.id;
            c in s'.calls ==>
              s'.calls[c].pc in {Validating, Done(Rejected), Done(Existing(first))}
    decreases |run|
  {
    if run != [] {
      var t := Next(s, run[0].c, run[0].ch);
      StepHistory(s, run[0].c, run[0].ch);
      assert t.history == s.history + t.history[|s.history|..];
      FirstStable(s.history, t.history[|s.history|..], RequestKey(r));
      if run[0].c == c && c in s.calls {
        DedupHit(s, r);
        DoneStays(t, run[1..], c);
      } else {
        AtMostOnce(t, run[1..], c, r);
      }
    }
  }

  lemma {:induction false} DoneStays(s: System, run: seq<Step>, c: CallId)
    requires Runs(s, run) && c in s.calls && s.calls[c].pc.Done?
    ensures c in After(s, run).calls && After(s, run).calls[c] == s.calls[c]
    decreases |run|
  {
    if run != [] { DoneStays(Next(s, run[0].c, run[0].ch), run[1..], c); }
  }

  /** The first save of the call took effect and was confirmed. */
  predicate Stored(pc: Pc)
  {
    IdOf(pc).Some? && !pc.Storing? && !(pc.Done? && pc.result.StoreFailed?)
  }

  /** The history holds a record under the key of every stored call. */
  ghost predicate Indexed(s: System)
  {
    forall c :: c in s.calls && Stored(s.calls[c].pc) && RequestKey(s.calls[c].request) != "" ==>
      FirstWithKey(s.history, RequestKey(s.calls[c].request)).Some?
  }

  lemma GrowsIndexed(before: seq<Invocation>, after: seq<Invocation>, k: string)
    requires before <= after && FirstWithKey(before, k).Some?
    ensures FirstWithKey(after, k).Some?
  {
    assert after == before + after[|before|..];
    FirstStable(before, after[|before|..], k);
  }

  lemma AdvanceStored(pc: Pc, ch: Choice, slotOk: bool)
    requires Can(pc, ch)
    ensures Stored(Advance(pc, ch, slotOk).0) ==> Stored(pc) || (ch.Store? && ch.applied && pc.Storing?)
  {
  }

  lemma MoveIndexed(s: System, c: CallId, ch: Choice)
    requires Indexed(s) && c in s.calls && Can(s.calls[c].pc, ch)
    ensures var s' := Move(s, c, ch);
            Stored(s'.calls[c].pc) && RequestKey(s'.calls[c].request) != "" ==>
              FirstWithKey(s'.history, RequestKey(s'.calls[c].request)).Some?
  {
    var call, s' := s.calls[c], Move(s, c, ch);
    var k := RequestKey(call.request);
    AdvanceStored(call.pc, ch, Limiter.Acquire(s.inFlight, call.request.session, s.limit).1);
    if ch.Store? && ch.applied {
      var record := RecordOf(call, IdOf(call.pc).value);
      FirstAppend(s.history, record, k);
      assert KeyOf(record) == k;
    }
  }

  lemma AdmitIndexed(s: System, c: CallId, ch: Choice)
    requires Enabled(s, c, ch) && (ch.Arrive? || ch.Reject? || ch.Look?)
    ensures c in Next(s, c, ch).calls && !Stored(Next(s, c, ch).calls[c].pc)
  {
  }

  lemma OthersIndexed(s: System, c: CallId, ch: Choice, d: CallId)
    requires Indexed(s) && Enabled(s, c, ch) && d in Next(s, c, ch).calls && d != c
    requires Stored(Next(s, c, ch).calls[d].pc) && RequestKey(Next(s, c, ch).calls[d].request) != ""
    ensures FirstWithKey(Next(s, c, ch).history, RequestKey(Next(s, c, ch).calls[d].request)).Some?
  {
    StepHistory(s, c, ch);
    assert d in s.calls && Next(s, c, ch).calls[d] == s.calls[d];
    GrowsIndexed(s.history, Next(s, c, ch).history, RequestKey(s.calls[d].request));
  }

  lemma StepIndexed(s: System, c: CallId, ch: Choice)
    requires Indexed(s) && Enabled(s, c, ch)
    ensures Indexed(Next(s, c, ch))
  {
    if ch.Arrive? || ch.Reject? || ch.Look? { AdmitIndexed(s, c, ch); } else { MoveIndexed(s, c, ch); }
    var s' := Next(s, c, ch);
    forall d | d in s'.calls && d != c && Stored(s'.calls[d].pc) && RequestKey(s'.calls[d].request) != ""
      ensures FirstWithKey(s'.history, RequestKey(s'.calls[d].request)).Some?
    {
      OthersIndexed(s, c, ch, d);
    }
  }

  lemma {:induction false} RunIndexed(s: System, run: seq<Step>)
    requires Indexed(s) && Runs(s, run)
    ensures Indexed(After(s, run))
    decreases |run|
  {
    if run != [] {
      StepIndexed(s, run[0].c, run[0].ch);
      RunIndexed(Next(s, run[0].c, run[0].ch), run[1..]);
    }
  }

  /** Once the first save of a call with a correlation ID is confirmed, no later call of the same
      key gets an ID, let alone runs its tool: in every continuation it is still at its checks,
      was rejected, or was answered with the ID saved first. */
  lemma OncePerKey(limit: int, before: seq<Step>, after: seq<Step>, c: CallId, d: CallId, r: Request)
    requires Runs(Init(limit), before) && Runs(After(Init(limit), before), after)
    requires var s := After(Init(limit), before);
             && c in s.calls && Stored(s.calls[c].pc) && RequestKey(s.calls[c].request) == RequestKey(r) != ""
             && (d !in s.calls || (s.calls[d].request == r && s.calls[d].pc.Validating?))
    requires forall i :: 0 <= i < |after| && after[i].c == d && after[i].ch.Arrive? ==> after[i].ch.request == r
    ensures var s, t := After(Init(limit), before), After(After(Init(limit), before), after);
            && FirstWithKey(s.history, RequestKey(r)).Some?
            && (d in t.calls ==>
                  t.calls[d].pc in {Validating, Done(Rejected), Done(Existing(FirstWithKey(s.history, RequestKey(r)).value.id))})
  {
    RunIndexed(Init(limit), before);
    AtMostOnce(After(Init(limit), before), after, d, r);
  }
}
