/**
 Guarded creation over whole runs: whichever API calls fail, a workspace pod
 only ever exists behind its RBAC objects, its three NetworkPolicies and its
 volume, and under exactly the traffic rules of a spec the Workspace had.
 */
module LifecycleGuards {
  import opened Common
  import opened WorkspaceApi
  import opened Lifecycle
  import opened LifecycleStatus
  import NP = NetworkPolicies

  predicate Owned<T>(c: Option<Child<T>>) {
    c.Some? && c.value.owner == Ours
  }

  /** How many of the guards a pending call may rely on, in creation order. */
  function Reached(c: Call): nat {
    match c
    case EnsureRole => 1
    case EnsureBinding => 2
    case EnsureDenyAll => 3
    case EnsureEgress => 4
    case EnsureIngress => 5
    case ReadPvc => 6
    case CreatePvc => 6
    case ReadPod => 7
    case CreatePod => 7
    case _ => 0
  }

  predicate GuardsUpTo(api: Cluster, n: nat, volume: bool) {
    && (n >= 1 ==> Owned(api.account))
    && (n >= 2 ==> Owned(api.role))
    && (n >= 3 ==> Owned(api.binding))
    && (n >= 4 ==> Owned(api.denyAll))
    && (n >= 5 ==> Owned(api.egress))
    && (n >= 6 ==> Owned(api.ingress))
    && (n >= 7 && volume ==> api.pvc.Some?)
  }

  predicate OwnPod(api: Cluster) {
    api.pod.Some? && api.pod.value.owner == Ours
  }

  /** The volume claim is a leftover that another owner's removal may take away. */
  predicate ForeignVolume(api: Cluster) {
    api.pvc.Some? && api.pvc.value.owner == Other
  }

  ghost predicate CompiledFrom(cfg: Config, specs: set<Spec>, p: NP.Policy) {
    exists s :: s in specs && p == WantedEgress(cfg, s)
  }

  /** The policies of this Workspace are what the compiler produced for one of
      the specs it has had. */
  ghost predicate PoliciesCompiled(cfg: Config, api: Cluster, specs: set<Spec>) {
    && (Owned(api.denyAll) ==> api.denyAll.value.content == WantedDenyAll(cfg))
    && (Owned(api.egress) ==> CompiledFrom(cfg, specs, api.egress.value.content))
    && (Owned(api.ingress) ==> api.ingress.value.content == WantedIngress(cfg))
  }

  ghost predicate GuardInvariant(cfg: Config, w: World, specs: set<Spec>, volume: bool) {
    && (w.api.cr.Some? ==>
        && w.api.cr.value.spec in specs
        && (OwnPod(w.api) ==> GuardsUpTo(w.api, 7, volume))
        && (w.op.Working? ==> GuardsUpTo(w.api, Reached(w.op.next), volume))
        && (volume ==> !ForeignVolume(w.api)))
    && (w.op.Working? ==> w.op.ws.spec in specs)
    && PoliciesCompiled(cfg, w.api, specs)
  }

  /** Steps that leave the guards alone and create no pod. */
  predicate GuardsUntouched(w: World, w': World) {
    && w'.api.account == w.api.account && w'.api.role == w.api.role && w'.api.binding == w.api.binding
    && w'.api.denyAll == w.api.denyAll && w'.api.egress == w.api.egress && w'.api.ingress == w.api.ingress
    && w'.api.pvc == w.api.pvc
    && (OwnPod(w'.api) ==> OwnPod(w.api))
    && (w'.api.cr.Some? ==> w.api.cr.Some? && w'.api.cr.value.spec == w.api.cr.value.spec)
    && (w'.op.Working? ==>
        || (w.op.Working? && w'.op.ws.spec == w.op.ws.spec && Reached(w'.op.next) <= Reached(w.op.next))
        || (w'.api.cr.Some? && w'.op.ws.spec == w'.api.cr.value.spec && Reached(w'.op.next) == 0))
  }

  lemma UntouchedKeepsGuards(cfg: Config, w: World, w': World, specs: set<Spec>, volume: bool)
    requires GuardInvariant(cfg, w, specs, volume) && GuardsUntouched(w, w')
    ensures GuardInvariant(cfg, w', specs, volume)
  {
    hide WantedDenyAll, WantedIngress, CompiledFrom, Reached;
  }

  lemma AccountKeepsGuards(cfg: Config, w: World, o: Outcome, specs: set<Spec>, volume: bool)
    requires GuardInvariant(cfg, w, specs, volume) && w.op.Working? && w.op.next.EnsureAccount?
    ensures GuardInvariant(cfg, AccessStep(w, o), specs, volume)
  {
    hide WantedDenyAll, WantedEgress, WantedIngress, CompiledFrom, Setback;
  }

  lemma RoleKeepsGuards(cfg: Config, w: World, o: Outcome, specs: set<Spec>, volume: bool)
    requires GuardInvariant(cfg, w, specs, volume) && w.op.Working? && w.op.next.EnsureRole?
    ensures GuardInvariant(cfg, AccessStep(w, o), specs, volume)
  {
    hide WantedDenyAll, WantedEgress, WantedIngress, CompiledFrom, Setback;
  }

  lemma BindingKeepsGuards(cfg: Config, w: World, o: Outcome, specs: set<Spec>, volume: bool)
    requires GuardInvariant(cfg, w, specs, volume) && w.op.Working? && w.op.next.EnsureBinding?
    ensures GuardInvariant(cfg, AccessStep(w, o), specs, volume)
  {
    hide WantedDenyAll, WantedEgress, WantedIngress, CompiledFrom, Setback;
  }

  lemma DenyAllKeepsGuards(cfg: Config, w: World, o: Outcome, specs: set<Spec>, volume: bool)
    requires GuardInvariant(cfg, w, specs, volume) && w.op.Working? && w.op.next.EnsureDenyAll?
    ensures GuardInvariant(cfg, PolicyStep(cfg, w, o), specs, volume)
  {
    hide WantedDenyAll, WantedEgress, WantedIngress, CompiledFrom, Setback;
  }

  lemma IngressKeepsGuards(cfg: Config, w: World, o: Outcome, specs: set<Spec>, volume: bool)
    requires GuardInvariant(cfg, w, specs, volume) && w.op.Working? && w.op.next.EnsureIngress?
    ensures GuardInvariant(cfg, PolicyStep(cfg, w, o), specs, volume)
  {
    hide WantedDenyAll, WantedEgress, WantedIngress, CompiledFrom, Setback;
  }

  lemma EgressKeepsGuards(cfg: Config, w: World, o: Outcome, specs: set<Spec>, volume: bool)
    requires GuardInvariant(cfg, w, specs, volume)
    requires w.op.Working? && w.op.next.EnsureEgress?
    ensures GuardInvariant(cfg, PolicyStep(cfg, w, o), specs, volume)
  {
    hide WantedDenyAll, WantedIngress, WantedEgress;
  }

  lemma PvcKeepsGuards(cfg: Config, w: World, o: Outcome, specs: set<Spec>, volume: bool)
    requires GuardInvariant(cfg, w, specs, volume)
    requires w.op.Working? && (w.op.next.ReadPvc? || w.op.next.CreatePvc?)
    ensures GuardInvariant(cfg, PvcStep(w, o), specs, volume)
  {
    hide WantedDenyAll, WantedIngress, CompiledFrom;
  }

  lemma PodKeepsGuards(cfg: Config, w: World, o: Outcome, specs: set<Spec>, volume: bool)
    requires GuardInvariant(cfg, w, specs, volume)
    requires w.op.Working? && (w.op.next.ReadPod? || w.op.next.CreatePod? || w.op.next.DeleteOutdated?)
    ensures GuardInvariant(cfg, PodStep(cfg, w, o), specs, volume)
  {
    hide WantedDenyAll, WantedIngress, CompiledFrom;
  }

  lemma WorkspaceCallsLeaveGuards(cfg: Config, w: World, o: Outcome)
    requires w.op.Resting? || w.op.next.Decide? || w.op.next.SeedLastAccessed? || w.op.next.Report?
    ensures GuardsUntouched(w, OperatorStep(cfg, w, o))
  {
    hide AccessStep, PolicyStep, PvcStep, PodStep, ServiceStep, ApplyPatch, Diff, Summarised;
  }

  lemma ServiceLeavesGuards(cfg: Config, w: World, o: Outcome)
    requires w.op.Working? && w.op.next.EnsureService?
    ensures GuardsUntouched(w, ServiceStep(cfg, w, o))
  {
    hide Serving, PodReport;
    var w' := ServiceStep(cfg, w, o);
    assert w'.op.Working? && w'.op.ws == w.op.ws && Reached(w'.op.next) == 0;
  }

  lemma IdleCallsLeaveGuards(cfg: Config, w: World, o: Outcome)
    requires w.op.Working? && (w.op.next.JudgeIdle? || w.op.next.DeleteIdle?)
    ensures GuardsUntouched(w, OperatorStep(cfg, w, o))
  {
    hide AccessStep, PolicyStep, PvcStep, PodStep, DecideStep, SeedStep, ReportStep, ServiceStep, PodReport;
  }

  lemma OperatorKeepsGuards(cfg: Config, w: World, o: Outcome, specs: set<Spec>, volume: bool)
    requires GuardInvariant(cfg, w, specs, volume)
    ensures GuardInvariant(cfg, OperatorStep(cfg, w, o), specs, volume)
  {
    hide GuardInvariant, GuardsUntouched, AccessStep, PolicyStep, PvcStep, PodStep;
    if w.op.Working? {
      match w.op.next {
        case EnsureAccount => AccountKeepsGuards(cfg, w, o, specs, volume); return;
        case EnsureRole => RoleKeepsGuards(cfg, w, o, specs, volume); return;
        case EnsureBinding => BindingKeepsGuards(cfg, w, o, specs, volume); return;
        case EnsureDenyAll => DenyAllKeepsGuards(cfg, w, o, specs, volume); return;
        case EnsureEgress => EgressKeepsGuards(cfg, w, o, specs, volume); return;
        case EnsureIngress => IngressKeepsGuards(cfg, w, o, specs, volume); return;
        case ReadPvc => PvcKeepsGuards(cfg, w, o, specs, volume); return;
        case CreatePvc => PvcKeepsGuards(cfg, w, o, specs, volume); return;
        case ReadPod => PodKeepsGuards(cfg, w, o, specs, volume); return;
        case CreatePod => PodKeepsGuards(cfg, w, o, specs, volume); return;
        case DeleteOutdated => PodKeepsGuards(cfg, w, o, specs, volume); return;
        case EnsureService(_) => ServiceLeavesGuards(cfg, w, o);
        case JudgeIdle(_, _) => IdleCallsLeaveGuards(cfg, w, o);
        case DeleteIdle => IdleCallsLeaveGuards(cfg, w, o);
        case _ => WorkspaceCallsLeaveGuards(cfg, w, o);
      }
    } else {
      WorkspaceCallsLeaveGuards(cfg, w, o);
    }
    UntouchedKeepsGuards(cfg, w, OperatorStep(cfg, w, o), specs, volume);
  }

  lemma CollectKeepsGuards(cfg: Config, w: World, t: Target, specs: set<Spec>, volume: bool)
    requires GuardInvariant(cfg, w, specs, volume)
    ensures GuardInvariant(cfg, w.(api := Collected(w.api, t)), specs, volume)
  {
    hide WantedDenyAll, WantedIngress, CompiledFrom, Reached;
  }

  lemma OutsideLeavesGuards(cfg: Config, w: World, e: Event)
    requires !e.Operate? && !e.Collect? && !e.EditSpec? && !e.VolumeReports?
    ensures GuardsUntouched(w, Do(cfg, w, e))
  {
    hide ApplyPatch, Diff, WakeMessage, TouchMessage, Decode, Reached, OperatorStep, Collected;
  }

  lemma StepKeepsGuards(cfg: Config, w: World, e: Event, specs: set<Spec>, volume: bool)
    requires GuardInvariant(cfg, w, specs, volume)
    ensures GuardInvariant(cfg, Do(cfg, w, e), specs + SpecNow(Do(cfg, w, e)), volume)
  {
    hide OperatorStep, Deliver, WantedDenyAll, WantedIngress, Reached, Collected, GuardsUntouched;
    var w' := Do(cfg, w, e);
    MoreSpecs(cfg, w, specs, specs + SpecNow(w'), volume);
    var more := specs + SpecNow(w');
    match e
    case Operate(o) => OperatorKeepsGuards(cfg, w, o, more, volume);
    case Collect(t) => CollectKeepsGuards(cfg, w, t, more, volume);
    case EditSpec(_) =>
    case VolumeReports(_) =>
    case _ =>
      OutsideLeavesGuards(cfg, w, e);
      UntouchedKeepsGuards(cfg, w, w', more, volume);
  }

  // ------------------------------------------------------------- whole runs

  function SpecNow(w: World): set<Spec> {
    if w.api.cr.Some? then {w.api.cr.value.spec} else {}
  }

  /** Every spec the Workspace has had in a run. */
  function SpecsSeen(cfg: Config, w: World, es: seq<Event>): set<Spec> {
    SpecNow(Run(cfg, w, es)) + if es == [] then {} else SpecsSeen(cfg, w, es[..|es| - 1])
  }

  lemma MoreSpecs(cfg: Config, w: World, specs: set<Spec>, more: set<Spec>, volume: bool)
    requires GuardInvariant(cfg, w, specs, volume) && specs <= more
    ensures GuardInvariant(cfg, w, more, volume)
  {
    hide WantedDenyAll, WantedIngress, WantedEgress, Reached;
    if Owned(w.api.egress) {
      var s :| s in specs && w.api.egress.value.content == WantedEgress(cfg, s);
      assert s in more;
    }
  }

  /** A Workspace at the start of its life owns nothing yet. */
  predicate Newborn(w: World) {
    && Initial(w) && !OwnPod(w.api)
    && !Owned(w.api.denyAll) && !Owned(w.api.egress) && !Owned(w.api.ingress)
  }

  lemma {:induction false} GuardsThroughout(cfg: Config, w: World, es: seq<Event>, volume: bool)
    requires Newborn(w) && (volume ==> !ForeignVolume(w.api))
    ensures GuardInvariant(cfg, Run(cfg, w, es), SpecsSeen(cfg, w, es), volume)
  {
    hide Do, WantedDenyAll, WantedEgress, WantedIngress;
    if es != [] {
      hide GuardInvariant, SpecNow;
      var n := |es| - 1;
      GuardsThroughout(cfg, w, es[..n], volume);
      var before := Run(cfg, w, es[..n]);
      var specs := SpecsSeen(cfg, w, es[..n]);
      StepKeepsGuards(cfg, before, es[n], specs, volume);
      assert SpecsSeen(cfg, w, es) == specs + SpecNow(Do(cfg, before, es[n]));
    }
  }

  /** In every run a pod of this Workspace exists only together with its
      ServiceAccount, Role, RoleBinding and all three NetworkPolicies, and with a
      PVC, unless the run began with another owner's PVC under its name. */
  lemma PodsAreGuarded(cfg: Config, w: World, es: seq<Event>)
    requires Newborn(w)
    requires var api := Run(cfg, w, es).api; api.cr.Some? && OwnPod(api)
    ensures GuardsUpTo(Run(cfg, w, es).api, 7, !ForeignVolume(w.api))
  {
    hide Do;
    GuardsThroughout(cfg, w, es, !ForeignVolume(w.api));
  }

  // ------------------------------------------------------ the moment of creation

  /** A Reconcile past its first checks works for a Workspace that carries the
      finalizer, and such a Workspace cannot be removed behind its back. */
  predicate FinalizerInvariant(w: World) {
    w.op.Working? ==>
      && (!w.op.next.Decide? && !w.op.next.Report? ==> w.op.ws.finalizer)
      && (w.op.ws.finalizer ==> w.api.cr.Some? && w.api.cr.value.finalizer)
  }

  lemma ChecksKeepFinalizer(cfg: Config, w: World, o: Outcome)
    requires FinalizerInvariant(w)
    requires w.op.Resting? || w.op.next.Decide? || w.op.next.SeedLastAccessed? || w.op.next.Report?
    ensures FinalizerInvariant(OperatorStep(cfg, w, o))
  {
    hide AccessStep, PolicyStep, PvcStep, PodStep, ServiceStep, ApplyPatch, Diff, Summarised, Decode;
  }

  lemma OperatorKeepsFinalizer(cfg: Config, w: World, o: Outcome)
    requires FinalizerInvariant(w)
    ensures FinalizerInvariant(OperatorStep(cfg, w, o))
  {
    hide OperatorStep;
    if w.op.Working? && !WritesWorkspace(w.op.next) {
      OtherCallsAreQuiet(cfg, w, o);
    } else {
      ChecksKeepFinalizer(cfg, w, o);
    }
  }

  lemma OutsideKeepsFinalizer(cfg: Config, w: World, e: Event)
    requires FinalizerInvariant(w) && !e.Operate?
    ensures FinalizerInvariant(Do(cfg, w, e))
  {
    hide OperatorStep, ApplyPatch, Diff, WakeMessage, TouchMessage, Decode;
  }

  lemma {:induction false} FinalizerThroughout(cfg: Config, w: World, es: seq<Event>)
    requires w.op.Resting?
    ensures FinalizerInvariant(Run(cfg, w, es))
  {
    hide OperatorStep, Deliver, Collected, FinalizerInvariant;
    if es == [] {
      assert FinalizerInvariant(w) by { RestingKeepsFinalizer(w); }
    } else {
      var n := |es| - 1;
      FinalizerThroughout(cfg, w, es[..n]);
      if es[n].Operate? {
        OperatorKeepsFinalizer(cfg, Run(cfg, w, es[..n]), es[n].outcome);
      } else {
        OutsideKeepsFinalizer(cfg, Run(cfg, w, es[..n]), es[n]);
      }
    }
  }

  lemma RestingKeepsFinalizer(w: World)
    requires w.op.Resting?
    ensures FinalizerInvariant(w)
  {
  }

  /** Only one call makes a pod of this Workspace, and it leaves the Workspace alone. */
  lemma PodsComeFromCreate(cfg: Config, w: World, e: Event)
    requires !OwnPod(w.api) && OwnPod(Do(cfg, w, e).api)
    ensures e.Operate? && w.op.Working? && w.op.next.CreatePod? && Do(cfg, w, e).api.cr == w.api.cr
  {
    hide WantedDenyAll, WantedEgress, WantedIngress, Serving, FirstStuck, Summarised, ApplyPatch, Diff, Decode, WholeSeconds;
  }

  /** The moment of creation, without any premise on the Workspace: whichever calls
      fail, and even if it is being deleted meanwhile, a pod of this Workspace comes
      into being only while the Workspace exists and with all guards in place. */
  lemma PodsAreCreatedGuarded(cfg: Config, w: World, es: seq<Event>, e: Event)
    requires Newborn(w)
    requires !OwnPod(Run(cfg, w, es).api) && OwnPod(Do(cfg, Run(cfg, w, es), e).api)
    ensures var api := Do(cfg, Run(cfg, w, es), e).api;
            api.cr.Some? && api.cr.value.finalizer && GuardsUpTo(api, 7, !ForeignVolume(w.api))
  {
    hide Do, Run, GuardsUpTo, Newborn;
    assert w.op.Resting? by { NewbornRests(w); }
    PodsComeFromCreate(cfg, Run(cfg, w, es), e);
    FinalizerThroughout(cfg, w, es);
    assert Run(cfg, w, es + [e]) == Do(cfg, Run(cfg, w, es), e) by { RunExtends(cfg, w, es, e); }
    PodsAreGuarded(cfg, w, es + [e]);
  }

  lemma NewbornRests(w: World)
    requires Newborn(w)
    ensures w.op.Resting?
  {
  }

  lemma RunExtends(cfg: Config, w: World, es: seq<Event>, e: Event)
    ensures Run(cfg, w, es + [e]) == Do(cfg, Run(cfg, w, es), e)
  {
    hide Do;
    assert (es + [e])[..|es|] == es;
  }

  // ----------------------------------------------------------------- its traffic

  /** The three policies as stored right now. */
  function StoredPolicies(api: Cluster): set<NP.Policy>
    requires GuardsUpTo(api, 7, false)
  {
    {api.denyAll.value.content, api.egress.value.content, api.ingress.value.content}
  }

  ghost predicate TrafficFollows(cfg: Config, api: Cluster, spec: Spec, near: NP.Workload, f: NP.Flow)
    requires GuardsUpTo(api, 7, false)
  {
    NP.Permitted(StoredPolicies(api), near, f) <==>
    NP.IntendedFor(
      cfg.namespace,
      spec.egressNamespaces,
      cfg.llmNamespaces,
      spec.egressPorts,
      cfg.egressPorts,
      cfg.gatewayNamespace,
      f)
  }

  /** At every moment of every run, with any failures and any interleaving, a
      workspace pod can exchange exactly the traffic intended for one spec that
      this Workspace has had; in particular it is never left unprotected. */
  lemma PodTrafficIsAlwaysIntended(cfg: Config, w: World, es: seq<Event>, near: NP.Workload)
    returns (spec: Spec)
    requires Newborn(w)
    requires var api := Run(cfg, w, es).api; api.cr.Some? && OwnPod(api)
    requires near.namespace == cfg.namespace && NP.WorkspaceLabels(near.labels, cfg.user)
    ensures GuardsUpTo(Run(cfg, w, es).api, 7, false)
    ensures spec in SpecsSeen(cfg, w, es)
    ensures forall f: NP.Flow | f.far.pod.Some? ==> NP.WellLabelled(f.far.pod.value) ::
              TrafficFollows(cfg, Run(cfg, w, es).api, spec, near, f)
  {
    hide Do;
    GuardsThroughout(cfg, w, es, false);
    var api := Run(cfg, w, es).api;
    spec :| spec in SpecsSeen(cfg, w, es) && api.egress.value.content == WantedEgress(cfg, spec);
    CompiledTraffic(cfg, api, spec, near);
  }

  lemma CompiledTraffic(cfg: Config, api: Cluster, spec: Spec, near: NP.Workload)
    requires GuardsUpTo(api, 7, false)
    requires api.denyAll.value.content == WantedDenyAll(cfg) && api.ingress.value.content == WantedIngress(cfg)
    requires api.egress.value.content == WantedEgress(cfg, spec)
    requires near.namespace == cfg.namespace && NP.WorkspaceLabels(near.labels, cfg.user)
    ensures forall f: NP.Flow | f.far.pod.Some? ==> NP.WellLabelled(f.far.pod.value) ::
              TrafficFollows(cfg, api, spec, near, f)
  {
    var llm := NP.ResolvedNamespaces(spec.egressNamespaces, cfg.llmNamespaces);
    var ports := NP.ResolvedPorts(spec.egressPorts, cfg.egressPorts);
    assert StoredPolicies(api) == NP.CompiledPolicies(cfg.namespace, cfg.user, llm, ports, cfg.gatewayNamespace);
    forall f: NP.Flow | f.far.pod.Some? ==> NP.WellLabelled(f.far.pod.value)
      ensures TrafficFollows(cfg, api, spec, near, f)
    {
      NP.UnionIsIntended(cfg.namespace, cfg.user, llm, ports, cfg.gatewayNamespace, near, f);
      NP.IntendedMeaning(cfg.namespace, spec.egressNamespaces, cfg.llmNamespaces, spec.egressPorts, cfg.egressPorts,
                         cfg.gatewayNamespace, f);
    }
  }
}
