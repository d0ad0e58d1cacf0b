/** Tool listing, and its agreement with the gates of an invocation over every run. */
module Listing {
  import opened Common
  import opened GoStrings
  import opened Policy
  import opened Sorting
  import Limiter
  import L = Lifecycle

  datatype RuntimeKind = Local | Kubernetes | Docker | OtherKind

  /** `k8sDelivery` is the flag WORKSPACE_ENABLE_K8S_DELIVERY_TOOLS. */
  datatype Place = Place(runtime: RuntimeKind, k8sDelivery: bool)

  const K8S_DELIVERY := {"k8s.apply_manifest", "k8s.rollout_status", "k8s.restart_deployment", "k8s.rollout_pause",
                         "k8s.rollout_undo", "k8s.scale_deployment", "k8s.restart_pods", "k8s.circuit_break"}

  predicate Supported(place: Place, cap: Capability)
  {
    cap.scope.Cluster? ==> place.runtime.Kubernetes? && (Trim(cap.name) in K8S_DELIVERY ==> place.k8sDelivery)
  }

  /** Cluster tools need Kubernetes, and the delivery tools among them the flag as well. */
  lemma SupportedMeaning(place: Place, cap: Capability)
    ensures var n := Trim(cap.name);
            var delivery := n == "k8s.apply_manifest" || n == "k8s.rollout_status" || n == "k8s.restart_deployment" ||
                            n == "k8s.rollout_pause" || n == "k8s.rollout_undo" || n == "k8s.scale_deployment" ||
                            n == "k8s.restart_pods" || n == "k8s.circuit_break";
            Supported(place, cap) <==>
              !cap.scope.Cluster? || (place.runtime.Kubernetes? && (!delivery || place.k8sDelivery))
  {
  }

  /** The two gates an invocation must pass between its rate check and its slot. */
  predicate PassesGates(place: Place, env: Env, session: Session, cap: Capability, args: RawArgs, approved: bool)
  {
    Supported(place, cap) && Authorize(Input(session, cap, args, approved), env).Allowed?
  }

  /** Listing asks the authorizer about {} with approval. */
  predicate Listed(place: Place, env: Env, session: Session, cap: Capability)
  {
    PassesGates(place, env, session, cap, EMPTY_OBJECT, true)
  }

  predicate ByName(a: Capability, b: Capability)
  {
    Less(a.name, b.name)
  }

  lemma ByNameOrder()
    ensures StrictOrder(ByName)
  {
    forall a: Capability ensures !ByName(a, a) { LessIrreflexive(a.name); }
    forall a: Capability, b: Capability, c: Capability | ByName(a, b) && ByName(b, c) ensures ByName(a, c) {
      LessTransitive(a.name, b.name, c.name);
    }
    forall a: Capability, b: Capability, c: Capability | !ByName(a, b) && !ByName(b, c) ensures !ByName(a, c) {
      NotLessTransitive(a.name, b.name, c.name);
    }
  }

  /** ListTools returns exactly the catalog entries that pass, sorted by name. */
  method ListTools(place: Place, env: Env, session: Session, catalog: seq<Capability>) returns (enabled: seq<Capability>)
    ensures forall cap :: multiset(enabled)[cap] == if Listed(place, env, session, cap) then multiset(catalog)[cap] else 0
    ensures forall i, j :: 0 <= i < j < |enabled| ==> !Less(enabled[j].name, enabled[i].name)
  {
    var kept := [];
    var i := 0;
    while i < |catalog|
      invariant 0 <= i <= |catalog|
      invariant forall cap :: multiset(kept)[cap] == if Listed(place, env, session, cap) then multiset(catalog[..i])[cap] else 0
    {
      var cap := catalog[i];
      assert catalog[..i + 1] == catalog[..i] + [cap];
      if Supported(place, cap) {
        var decision := Authorize(Input(session, cap, EMPTY_OBJECT, true), env);
        if decision.Allowed? { kept := kept + [cap]; }
      }
      i := i + 1;
    }
    assert catalog[..|catalog|] == catalog;
    enabled := Sort(kept, ByName);
    ByNameOrder();
    SortSorted(kept, ByName);
  }

  /** A tool is listed exactly when some arguments and approval flag pass the runtime and policy
      gates; one that is not listed passes them for none. */
  lemma ListedExactly(place: Place, env: Env, session: Session, cap: Capability)
    ensures Listed(place, env, session, cap) <==>
            exists args, approved :: PassesGates(place, env, session, cap, args, approved)
  {
    forall args, approved | PassesGates(place, env, session, cap, args, approved) ensures Listed(place, env, session, cap) {
      var input := Input(session, cap, args, approved);
      ListingComplete(input, env);
      assert input.(args := EMPTY_OBJECT, approved := true) == Input(session, cap, EMPTY_OBJECT, true);
    }
  }

  // ---- Over every run --------------------------------------------------------------------------

  /** What the calls of a run are about: sessions, tools, and each call's arguments and approval. */
  datatype World = World(env: Env, place: string -> Place, session: string -> Session, catalog: string -> Capability,
                         args: L.CallId -> RawArgs, approved: L.CallId -> bool)

  predicate RuntimePasses(w: World, q: L.Request)
  {
    Supported(w.place(q.session), w.catalog(q.tool))
  }

  predicate PolicyPasses(w: World, q: L.Request, c: L.CallId)
  {
    Authorize(Input(w.session(q.session), w.catalog(q.tool), w.args(c), w.approved(c)), w.env).Allowed?
  }

  /** The runtime check and the authorizer answer as they do; the authorizer may also fail. */
  predicate StepGoverned(w: World, s: L.System, c: L.CallId, ch: L.Choice)
    requires L.Enabled(s, c, ch)
  {
    match ch
    case Runtime(pass) => pass == RuntimePasses(w, s.calls[c].request)
    case Policy(verdict) => !verdict.AuthorizerError? ==> (verdict.Allow? <==> PolicyPasses(w, s.calls[c].request, c))
    case _ => true
  }

  predicate Governed(w: World, s: L.System, run: seq<L.Step>)
    requires L.Runs(s, run)
    decreases |run|
  {
    run == [] || (StepGoverned(w, s, run[0].c, run[0].ch) && Governed(w, L.Next(s, run[0].c, run[0].ch), run[1..]))
  }

  /** The call is past the policy gate. */
  predicate PastPolicy(pc: L.Pc)
  {
    pc.TakingSlot? || pc.Invoking? || (L.ExitOf(pc).Some? && (!L.Early(L.ExitOf(pc).value) || L.ExitOf(pc).value.SlotDenied?))
  }

  ghost predicate Gated(w: World, q: L.Request, c: L.CallId, pc: L.Pc)
  {
    && (PastPolicy(pc) || pc.CheckingPolicy? ==> RuntimePasses(w, q))
    && (PastPolicy(pc) ==> PolicyPasses(w, q, c))
  }

  ghost predicate AllGated(w: World, s: L.System)
  {
    forall c :: c in s.calls ==> Gated(w, s.calls[c].request, c, s.calls[c].pc)
  }

  /** Only a granted check takes a call past it. */
  lemma AdvancePast(pc: L.Pc, ch: L.Choice, slotOk: bool)
    requires L.Can(pc, ch)
    ensures var pc' := L.Advance(pc, ch, slotOk).0;
            && (pc'.CheckingPolicy? ==> ch.Runtime? && ch.pass)
            && (PastPolicy(pc') ==> PastPolicy(pc) || (pc.CheckingPolicy? && ch.Policy? && ch.verdict.Allow?))
  {
  }

  lemma MoveGated(w: World, s: L.System, c: L.CallId, ch: L.Choice)
    requires AllGated(w, s) && L.Enabled(s, c, ch) && StepGoverned(w, s, c, ch)
    requires !ch.Arrive? && !ch.Reject? && !ch.Look?
    ensures var s' := L.Next(s, c, ch);
            s'.calls == s.calls[c := s'.calls[c]] && Gated(w, s'.calls[c].request, c, s'.calls[c].pc)
  {
    var call := s.calls[c];
    var slotOk := Limiter.Acquire(s.inFlight, call.request.session, s.limit).1;
    AdvancePast(call.pc, ch, slotOk);
    assert L.Next(s, c, ch) == L.Move(s, c, ch);
    assert L.Move(s, c, ch).calls == s.calls[c := call.(pc := L.Advance(call.pc, ch, slotOk).0)];
  }

  lemma AdmitGated(w: World, s: L.System, c: L.CallId, ch: L.Choice)
    requires L.Enabled(s, c, ch) && (ch.Arrive? || ch.Reject? || ch.Look?)
    ensures var s' := L.Next(s, c, ch);
            s'.calls == s.calls[c := s'.calls[c]] && Gated(w, s'.calls[c].request, c, s'.calls[c].pc)
  {
  }

  lemma StepGated(w: World, s: L.System, c: L.CallId, ch: L.Choice)
    requires AllGated(w, s) && L.Enabled(s, c, ch) && StepGoverned(w, s, c, ch)
    ensures AllGated(w, L.Next(s, c, ch))
  {
    if ch.Arrive? || ch.Reject? || ch.Look? { AdmitGated(w, s, c, ch); } else { MoveGated(w, s, c, ch); }
  }

  lemma {:induction false} RunGated(w: World, s: L.System, run: seq<L.Step>)
    requires AllGated(w, s) && L.Runs(s, run) && Governed(w, s, run)
    ensures AllGated(w, L.After(s, run))
    decreases |run|
  {
    if run != [] {
      StepGated(w, s, run[0].c, run[0].ch);
      RunGated(w, L.Next(s, run[0].c, run[0].ch), run[1..]);
    }
  }

  lemma RanIsPast(pc: L.Pc, result: L.RunResult)
    requires L.ToolRan(result) in L.Trace(pc)
    ensures PastPolicy(pc)
  {
    var rest := L.TraceBehindGates(pc, result);
  }

  /** A tool that is not listed for its session never runs: in no interleaving of calls, whatever
      their arguments and approval flags, does a call for it reach its tool. */
  lemma UnlistedNeverRuns(w: World, limit: int, run: seq<L.Step>, c: L.CallId, id: string, result: L.RunResult)
    requires L.Runs(L.Init(limit), run) && Governed(w, L.Init(limit), run)
    requires c in L.After(L.Init(limit), run).calls
    requires var call := L.After(L.Init(limit), run).calls[c];
             && L.IdOf(call.pc) == Some(id)
             && !Listed(w.place(call.request.session), w.env, w.session(call.request.session), w.catalog(call.request.tool))
    ensures L.ToolRan(result) !in L.Project(L.After(L.Init(limit), run).log, id)
  {
    var s := L.After(L.Init(limit), run);
    var call := s.calls[c];
    L.RunInv(L.Init(limit), run);
    RunGated(w, L.Init(limit), run);
    if L.ToolRan(result) in L.Project(s.log, id) {
      RanIsPast(call.pc, result);
      ListedExactly(w.place(call.request.session), w.env, w.session(call.request.session), w.catalog(call.request.tool));
      assert PassesGates(w.place(call.request.session), w.env, w.session(call.request.session), w.catalog(call.request.tool),
                         w.args(c), w.approved(c));
    }
  }
}
