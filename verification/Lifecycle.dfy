/**
 The workspace lifecycle as a state machine: the API server's objects, the
 operator's Reconcile cut at every API call, the gateway's reads and patches,
 and the environment. One event is one atomic step; every interleaving is a
 sequence of events.
 */
module Lifecycle {
  import opened Common
  import opened WorkspaceApi
  import NP = NetworkPolicies

  // --------------------------------------------------------- cluster objects

  /** The controller reference of an object: this Workspace, none, or another
      owner, for instance an earlier Workspace of the same name. */
  datatype Owner = Ours | Nobody | Other

  /** Contents whose details carry no property here. */
  datatype Manifest = AsBuilt | Drifted(id: nat)

  datatype Child<T> = Child(owner: Owner, content: T)

  datatype PvcPhase = ClaimPending | ClaimBound | ClaimLost
  datatype Pvc = Pvc(owner: Owner, storage: nat, phase: PvcPhase)

  datatype PodPhase = PodNew | PodWaiting | PodRunning | PodSucceeded | PodFailed | PodLost
  datatype PodCondition = PodCondition(aboutReady: bool, value: ConditionStatus)
  datatype ContainerState = Started | Waiting(stuck: bool, reason: nat)
  datatype PodStatus = PodStatus(phase: PodPhase, conditions: seq<PodCondition>, containers: seq<ContainerState>)
  datatype Pod = Pod(owner: Owner, image: Option<nat>, terminating: bool, status: PodStatus)

  datatype Cluster = Cluster(
    cr: Option<Workspace>,
    account: Option<Child<Manifest>>,
    role: Option<Child<Manifest>>,
    binding: Option<Child<Manifest>>,
    denyAll: Option<Child<NP.Policy>>,
    egress: Option<Child<NP.Policy>>,
    ingress: Option<Child<NP.Policy>>,
    pvc: Option<Pvc>,
    pod: Option<Pod>,
    service: Option<Child<Manifest>>)

  datatype Config = Config(
    namespace: string,
    user: string,
    image: nat,
    idleTimeout: int,
    llmNamespaces: seq<string>,
    egressPorts: seq<int>,
    gatewayNamespace: string)

  /** isPodReady: the first Ready condition decides. */
  predicate IsPodReady(cs: seq<PodCondition>) {
    cs != [] && if cs[0].aboutReady then cs[0].value == True else IsPodReady(cs[1..])
  }

  predicate Serving(p: Pod) {
    p.status.phase == PodRunning && IsPodReady(p.status.conditions)
  }

  predicate Outdated(cfg: Config, p: Pod) {
    p.image.Some? && p.image.value != cfg.image && !p.terminating
  }

  /** The first container waiting for a reason that means failure. */
  function FirstStuck(cs: seq<ContainerState>): Option<nat> {
    if cs == [] then None
    else if cs[0].Waiting? && cs[0].stuck then Some(cs[0].reason)
    else FirstStuck(cs[1..])
  }

  function WantedEgress(cfg: Config, spec: Spec): NP.Policy {
    NP.EgressPolicy(
      cfg.namespace,
      cfg.user,
      NP.ResolvedNamespaces(spec.egressNamespaces, cfg.llmNamespaces),
      NP.ResolvedPorts(spec.egressPorts, cfg.egressPorts))
  }

  function WantedDenyAll(cfg: Config): NP.Policy {
    NP.DenyAllPolicy(cfg.namespace, cfg.user)
  }

  function WantedIngress(cfg: Config): NP.Policy {
    NP.IngressPolicy(cfg.namespace, cfg.user, cfg.gatewayNamespace)
  }

  // ---------------------------------------------------------------- operator

  /** What Reconcile returns: a result with an optional RequeueAfter (0 stands
      for Requeue: true), or an error, which controller-runtime retries. */
  datatype Result = Settled(requeue: Option<nat>) | Errored

  /** The next API call of a running Reconcile, with the local variables it
      still needs. */
  datatype Call =
    | Decide
    | EnsureAccount | EnsureRole | EnsureBinding
    | EnsureDenyAll | EnsureEgress | EnsureIngress
    | ReadPvc | CreatePvc | ReadPod | CreatePod
    | DeleteOutdated
    | EnsureService(pod: Pod)
    | SeedLastAccessed(pod: Pod, idle: int, stamp: nat)
    | JudgeIdle(pod: Pod, idle: int)
    | DeleteIdle
    | Report(sum: Summary, result: Result)

  datatype Operator = Resting(last: Result) | Working(ws: Workspace, next: Call)

  /** An API call succeeds, is refused, or is carried out while its answer is lost. */
  datatype Outcome = Ok | Rejected(code: nat) | LostReply(code: nat)

  function Failure(about: Topic, code: nat): Summary {
    Summary(WorkspaceApi.Failed, NoText, NoText, NoText, Note(about, code), Note(about, code), Because(about, code))
  }

  function Setback(ws: Workspace, about: Topic, code: nat): Summary {
    Summary(Creating, ws.status.podName, ws.status.endpoint, Note(about, code), NoText, Note(about, code), Because(about, code))
  }

  const RUNNING_SUMMARY := Summary(Running, PodRef, EndpointRef, NoText, NoText, NoText, BecauseRunning)
  const STOPPED_SUMMARY := Summary(Stopped, NoText, NoText, Note(Idle, 0), NoText, NoText, BecauseStopped)

  function PodTrouble(about: Topic, code: nat): Summary {
    Summary(WorkspaceApi.Failed, PodRef, NoText, NoText, Note(about, code), Note(about, code), Because(about, code))
  }

  /** A quarter of the idle window; RequeueAfter of zero asks for nothing. */
  function RequeueAfter(idle: int): Option<nat> {
    if idle >= 4 then Some(idle / 4) else None
  }

  /** The status report that follows from the pod that was read. */
  function PodReport(p: Pod, idle: int): (c: Call)
    ensures c.Report? && (c.sum.phase == Running <==> Serving(p))
  {
    if Serving(p) then
      Report(RUNNING_SUMMARY, Settled(RequeueAfter(idle)))
    else if p.status.phase == PodFailed then
      Report(PodTrouble(PodFailure, 0), Settled(None))
    else if p.status.phase == PodLost then
      Report(PodTrouble(PodUnknown, 0), Settled(None))
    else if FirstStuck(p.status.containers).Some? then
      Report(PodTrouble(PodStuck, FirstStuck(p.status.containers).value), Settled(None))
    else
      Report(
        Summary(Creating, PodRef, EndpointRef, Note(PodPending, if p.status.phase == PodNew then 0 else 1),
                NoText, NoText, Progressing),
        Settled(Some(5 * SECOND)))
  }

  // ------------------------------------------------------------------- world

  /** A gateway patch on its way to the API server. */
  datatype Message = Message(touch: bool, patch: Patch)

  datatype World = World(
    api: Cluster,
    clock: nat,
    op: Operator,
    copies: set<Status>,        // statuses the gateway has read
    sessions: set<Status>,      // copies held by handlers that saw phase Running
    inflight: multiset<Message>)

  datatype Target = TheAccount | TheRole | TheBinding | TheDenyAll | TheEgress | TheIngress | ThePvc | ThePod | TheService

  datatype Event =
    | Operate(outcome: Outcome)
    | GatewayRead
    | GatewayWake(copy: Status)
    | GatewayOpen(copy: Status)
    | GatewayTouch(held: Status)
    | GatewayClose(held: Status)
    | GatewayForget(copy: Status)
    | GatewayDeliver(m: Message)
    | GatewayLose(m: Message)
    | Tick(elapsed: nat)
    | KubeletReports(status: PodStatus)
    | PodRemoved
    | VolumeReports(phase: PvcPhase)
    | Collect(target: Target)
    | EditSpec(spec: Spec)
    | DeleteWorkspace

  // ---------------------------------------------------- operator, call by call

  function Rest(w: World, r: Result): World {
    w.(op := Resting(r))
  }

  function Goto(w: World, next: Call): World
    requires w.op.Working?
  {
    w.(op := Working(w.op.ws, next))
  }

  /** controllerutil.CreateOrUpdate with SetControllerReference. An object that
      another controller owns is refused before anything is written. */
  function Ensured<T>(child: Option<Child<T>>, want: T, o: Outcome): Option<Child<T>> {
    if o.Rejected? || (child.Some? && child.value.owner == Other) then child
    else Some(Child(Ours, want))
  }

  predicate EnsureSucceeds<T>(child: Option<Child<T>>, o: Outcome) {
    o.Ok? && !(child.Some? && child.value.owner == Other)
  }

  function Code(o: Outcome): nat {
    if o.Ok? then 0 else o.code
  }

  /** Reconcile's first call: read the Workspace. */
  function Fetch(w: World, o: Outcome): World {
    if !o.Ok? then Rest(w, Errored)
    else if w.api.cr.None? then Rest(w, Settled(None))
    else w.(op := Working(w.api.cr.value, Decide))
  }

  /** r.Update of the whole object: the resource version must still match. */
  function UpdateWorkspace(w: World, updated: Option<Workspace>, o: Outcome, result: Result): World
    requires w.op.Working?
  {
    if o.Rejected? || w.api.cr != Some(w.op.ws) then Rest(w, Errored)
    else
      var w' := w.(api := w.api.(cr := updated));
      Rest(w', if o.Ok? then result else Errored)
  }

  function DecideStep(w: World, o: Outcome): World
    requires w.op.Working?
  {
    var ws := w.op.ws;
    if ws.deleting then
      UpdateWorkspace(w, None, o, Settled(None))
    else if !ValidSpec(ws.spec) then
      Goto(w, Report(Failure(Validation, 0), Settled(None)))
    else if !ws.finalizer then
      UpdateWorkspace(w, Some(ws.(finalizer := true)), o, Settled(Some(0)))
    else if ws.status.phase == Stopped then
      Rest(w, Settled(None))
    else
      Goto(w, EnsureAccount)
  }

  /** The status report after a failed ensure; the error itself is returned. */
  function Fail(w: World, about: Topic, o: Outcome): World
    requires w.op.Working?
  {
    Goto(w, Report(Setback(w.op.ws, about, Code(o)), Errored))
  }

  function AccessStep(w: World, o: Outcome): World
    requires w.op.Working? && (w.op.next.EnsureAccount? || w.op.next.EnsureRole? || w.op.next.EnsureBinding?)
  {
    match w.op.next
    case EnsureAccount =>
      var w' := w.(api := w.api.(account := Ensured(w.api.account, AsBuilt, o)));
      if EnsureSucceeds(w.api.account, o) then Goto(w', EnsureRole) else Fail(w', Access, o)
    case EnsureRole =>
      var w' := w.(api := w.api.(role := Ensured(w.api.role, AsBuilt, o)));
      if EnsureSucceeds(w.api.role, o) then Goto(w', EnsureBinding) else Fail(w', Access, o)
    case EnsureBinding =>
      var w' := w.(api := w.api.(binding := Ensured(w.api.binding, AsBuilt, o)));
      if EnsureSucceeds(w.api.binding, o) then Goto(w', EnsureDenyAll) else Fail(w', Access, o)
  }

  function PolicyStep(cfg: Config, w: World, o: Outcome): World
    requires w.op.Working? && (w.op.next.EnsureDenyAll? || w.op.next.EnsureEgress? || w.op.next.EnsureIngress?)
  {
    match w.op.next
    case EnsureDenyAll =>
      var w' := w.(api := w.api.(denyAll := Ensured(w.api.denyAll, WantedDenyAll(cfg), o)));
      if EnsureSucceeds(w.api.denyAll, o) then Goto(w', EnsureEgress) else Fail(w', Policies, o)
    case EnsureEgress =>
      var w' := w.(api := w.api.(egress := Ensured(w.api.egress, WantedEgress(cfg, w.op.ws.spec), o)));
      if EnsureSucceeds(w.api.egress, o) then Goto(w', EnsureIngress) else Fail(w', Policies, o)
    case EnsureIngress =>
      var w' := w.(api := w.api.(ingress := Ensured(w.api.ingress, WantedIngress(cfg), o)));
      if EnsureSucceeds(w.api.ingress, o) then Goto(w', ReadPvc) else Fail(w', Policies, o)
  }

  function PvcStep(w: World, o: Outcome): World
    requires w.op.Working? && (w.op.next.ReadPvc? || w.op.next.CreatePvc?)
  {
    match w.op.next
    case ReadPvc =>
      if !o.Ok? then Goto(w, Report(Setback(w.op.ws, PvcRead, Code(o)), Errored))
      else if w.api.pvc.None? then Goto(w, CreatePvc)
      else if w.api.pvc.value.phase == ClaimLost then Goto(w, Report(Failure(PvcLost, 0), Settled(None)))
      else Goto(w, ReadPod)
    case CreatePvc =>
      var created := if o.Rejected? || w.api.pvc.Some? then w.api.pvc
                     else Some(Pvc(Ours, w.op.ws.spec.storage, ClaimPending));
      var w' := w.(api := w.api.(pvc := created));
      if o.Ok? && w.api.pvc.None? then
        Goto(w', Report(
          Summary(Creating, w.op.ws.status.podName, w.op.ws.status.endpoint, Note(PvcBinding, 0), NoText, NoText, Progressing),
          Settled(Some(2 * SECOND))))
      else
        Goto(w', Report(Failure(WorkspaceApi.PvcCreate, Code(o)), Settled(None)))
  }

  const NEW_POD_STATUS := PodStatus(PodNew, [], [])

  function PodStep(cfg: Config, w: World, o: Outcome): World
    requires w.op.Working? && (w.op.next.ReadPod? || w.op.next.CreatePod? || w.op.next.DeleteOutdated?)
  {
    match w.op.next
    case ReadPod =>
      if !o.Ok? then Goto(w, Report(Setback(w.op.ws, PodRead, Code(o)), Errored))
      else if w.api.pod.None? then Goto(w, CreatePod)
      else if Outdated(cfg, w.api.pod.value) then Goto(w, DeleteOutdated)
      else Goto(w, EnsureService(w.api.pod.value))
    case CreatePod =>
      var created := if o.Rejected? || w.api.pod.Some? then w.api.pod
                     else Some(Pod(Ours, Some(cfg.image), false, NEW_POD_STATUS));
      var w' := w.(api := w.api.(pod := created));
      if o.Ok? && w.api.pod.None? then Rest(w', Settled(Some(2 * SECOND)))
      else Goto(w', Report(Failure(WorkspaceApi.PodCreate, Code(o)), Settled(None)))
    case DeleteOutdated =>
      Rest(DeletePod(w, o), if o.Ok? then Settled(Some(2 * SECOND)) else Errored)
  }

  /** Graceful deletion marks the pod; a missing pod counts as deleted. */
  function DeletePod(w: World, o: Outcome): World {
    if o.Rejected? || w.api.pod.None? then w
    else w.(api := w.api.(pod := Some(w.api.pod.value.(terminating := true))))
  }

  function ServiceStep(cfg: Config, w: World, o: Outcome): World
    requires w.op.Working? && w.op.next.EnsureService?
  {
    var w' := w.(api := w.api.(service := Ensured(w.api.service, AsBuilt, o)));
    var pod, idle := w.op.next.pod, EffectiveIdleTimeout(w.op.ws.spec, cfg.idleTimeout);
    if !EnsureSucceeds(w.api.service, o) then
      Goto(w', Report(Failure(ServiceEnsure, Code(o)), Settled(None)))
    else if !Serving(pod) || idle <= 0 then Goto(w', PodReport(pod, idle))
    else if w.op.ws.status.lastAccessed.None? then Goto(w', SeedLastAccessed(pod, idle, WholeSeconds(w.clock)))
    else Goto(w', JudgeIdle(pod, idle))
  }

  /** A status patch of the operator: the difference from its own copy. */
  function PatchStatus(w: World, edited: Status, o: Outcome): World
    requires w.op.Working?
  {
    if o.Rejected? || w.api.cr.None? then w
    else
      var stored := w.api.cr.value;
      w.(api := w.api.(cr := Some(stored.(status := ApplyPatch(stored.status, Diff(w.op.ws.status, edited))))))
  }

  predicate PatchSucceeds(w: World, o: Outcome) {
    o.Ok? && w.api.cr.Some?
  }

  function SeedStep(w: World, o: Outcome): World
    requires w.op.Working? && w.op.next.SeedLastAccessed?
  {
    var held := w.op.ws.status.(lastAccessed := Some(w.op.next.stamp));
    var w' := PatchStatus(w, held, o);
    if PatchSucceeds(w, o) then
      var answer := w'.api.cr.value;
      w'.(op := Working(answer.(status := Decode(held, answer.status)), JudgeIdle(w.op.next.pod, w.op.next.idle)))
    else Rest(w', Errored)
  }

  /** time.Since(lastAccessed) > idle */
  predicate Expired(lastAccessed: Option<nat>, now: nat, idle: int) {
    lastAccessed.None? || now - lastAccessed.value > idle
  }

  function JudgeStep(w: World): World
    requires w.op.Working? && w.op.next.JudgeIdle?
  {
    if Expired(w.op.ws.status.lastAccessed, w.clock, w.op.next.idle) then Goto(w, DeleteIdle)
    else Goto(w, PodReport(w.op.next.pod, w.op.next.idle))
  }

  function DeleteIdleStep(w: World, o: Outcome): World
    requires w.op.Working? && w.op.next.DeleteIdle?
  {
    var w' := DeletePod(w, o);
    if o.Ok? then Goto(w', Report(STOPPED_SUMMARY, Settled(None))) else Rest(w', Errored)
  }

  /** updateStatus, then the return statement that follows it. */
  function ReportStep(w: World, o: Outcome): World
    requires w.op.Working? && w.op.next.Report?
  {
    var edited := Summarised(w.op.ws.status, w.op.next.sum, w.op.ws.generation, w.clock);
    Rest(PatchStatus(w, edited, o), if PatchSucceeds(w, o) then w.op.next.result else Errored)
  }

  function OperatorStep(cfg: Config, w: World, o: Outcome): World {
    if w.op.Resting? then Fetch(w, o)
    else
      match w.op.next
      case Decide => DecideStep(w, o)
      case EnsureAccount => AccessStep(w, o)
      case EnsureRole => AccessStep(w, o)
      case EnsureBinding => AccessStep(w, o)
      case EnsureDenyAll => PolicyStep(cfg, w, o)
      case EnsureEgress => PolicyStep(cfg, w, o)
      case EnsureIngress => PolicyStep(cfg, w, o)
      case ReadPvc => PvcStep(w, o)
      case CreatePvc => PvcStep(w, o)
      case ReadPod => PodStep(cfg, w, o)
      case CreatePod => PodStep(cfg, w, o)
      case DeleteOutdated => PodStep(cfg, w, o)
      case EnsureService(_) => ServiceStep(cfg, w, o)
      case SeedLastAccessed(_, _, _) => SeedStep(w, o)
      case JudgeIdle(_, _) => JudgeStep(w)
      case DeleteIdle => DeleteIdleStep(w, o)
      case Report(_, _) => ReportStep(w, o)
  }

  // ----------------------------------------------------------------- gateway

  /** EnsureExists and waitForRunning clear the phase of a Stopped workspace. */
  function Cleared(s: Status): Status {
    s.(phase := NoPhase, message := NoText, podName := NoText)
  }

  /** TouchLastAccessed and the stamp at the end of EnsureWorkspace. */
  function Touched(s: Status, now: nat): Status {
    s.(lastAccessed := Some(WholeSeconds(now)))
  }

  function WakeMessage(copy: Status): Message {
    Message(false, Diff(copy, Cleared(copy)))
  }

  function TouchMessage(held: Status, now: nat): Message {
    Message(true, Diff(held, Touched(held, now)))
  }

  function Deliver(w: World, m: Message): World {
    if m !in w.inflight || w.api.cr.None? then w
    else
      var stored := w.api.cr.value;
      var answer := ApplyPatch(stored.status, m.patch);
      w.(api := w.api.(cr := Some(stored.(status := answer))),
         inflight := w.inflight - multiset{m},
         sessions := if m.touch then w.sessions + set s | s in w.sessions :: Decode(s, answer) else w.sessions)
  }

  // ------------------------------------------------------------- environment

  predicate Collectable<T>(api: Cluster, child: Option<Child<T>>) {
    child.Some? && (child.value.owner == Other || (child.value.owner == Ours && api.cr.None?))
  }

  predicate CollectableOwner(api: Cluster, owner: Owner) {
    owner == Other || (owner == Ours && api.cr.None?)
  }

  /** The garbage collector removes objects whose owner is gone. */
  function Collected(api: Cluster, t: Target): Cluster {
    match t
    case TheAccount => if Collectable(api, api.account) then api.(account := None) else api
    case TheRole => if Collectable(api, api.role) then api.(role := None) else api
    case TheBinding => if Collectable(api, api.binding) then api.(binding := None) else api
    case TheDenyAll => if Collectable(api, api.denyAll) then api.(denyAll := None) else api
    case TheEgress => if Collectable(api, api.egress) then api.(egress := None) else api
    case TheIngress => if Collectable(api, api.ingress) then api.(ingress := None) else api
    case TheService => if Collectable(api, api.service) then api.(service := None) else api
    case ThePod => if api.pod.Some? && CollectableOwner(api, api.pod.value.owner) then api.(pod := None) else api
    case ThePvc => if api.pvc.Some? && CollectableOwner(api, api.pvc.value.owner) && api.pod.None? then api.(pvc := None) else api
  }

  function Edited(ws: Workspace, spec: Spec): Workspace {
    ws.(spec := spec, generation := ws.generation + 1)
  }

  function OnWorkspace(w: World, updated: Option<Workspace>): World {
    w.(api := w.api.(cr := updated))
  }

  // -------------------------------------------------------------------- runs

  /** One step. An event that is not enabled changes nothing. */
  function Do(cfg: Config, w: World, e: Event): World {
    match e
    case Operate(o) => OperatorStep(cfg, w, o)
    case GatewayRead => if w.api.cr.Some? then w.(copies := w.copies + {w.api.cr.value.status}) else w
    case GatewayWake(copy) =>
      if copy in w.copies && copy.phase == Stopped then w.(inflight := w.inflight + multiset{WakeMessage(copy)}) else w
    case GatewayOpen(copy) =>
      if copy in w.copies && copy.phase == Running then w.(sessions := w.sessions + {copy}) else w
    case GatewayTouch(held) =>
      if held in w.sessions then
        w.(inflight := w.inflight + multiset{TouchMessage(held, w.clock)}, sessions := w.sessions + {Touched(held, w.clock)})
      else w
    case GatewayClose(held) => w.(sessions := w.sessions - {held})
    case GatewayForget(copy) => w.(copies := w.copies - {copy})
    case GatewayDeliver(m) => Deliver(w, m)
    case GatewayLose(m) => w.(inflight := w.inflight - multiset{m})
    case Tick(elapsed) => w.(clock := w.clock + elapsed)
    case KubeletReports(s) =>
      if w.api.pod.Some? then w.(api := w.api.(pod := Some(w.api.pod.value.(status := s)))) else w
    case PodRemoved => w.(api := w.api.(pod := None))
    case VolumeReports(p) =>
      if w.api.pvc.Some? then w.(api := w.api.(pvc := Some(w.api.pvc.value.(phase := p)))) else w
    case Collect(t) => w.(api := Collected(w.api, t))
    case EditSpec(spec) => if w.api.cr.Some? then OnWorkspace(w, Some(Edited(w.api.cr.value, spec))) else w
    case DeleteWorkspace =>
      if w.api.cr.None? then w
      else if w.api.cr.value.finalizer then OnWorkspace(w, Some(w.api.cr.value.(deleting := true)))
      else OnWorkspace(w, None)
  }

  function Run(cfg: Config, w: World, es: seq<Event>): World {
    if es == [] then w else Do(cfg, Run(cfg, w, es[..|es| - 1]), es[|es| - 1])
  }

  lemma {:induction false} RunConcat(cfg: Config, w: World, es: seq<Event>, fs: seq<Event>)
    ensures Run(cfg, w, es + fs) == Run(cfg, Run(cfg, w, es), fs)
  {
    hide Do;
    if fs == [] {
      assert es + fs == es;
    } else {
      var n := |fs| - 1;
      RunConcat(cfg, w, es, fs[..n]);
      assert (es + fs)[..|es + fs| - 1] == es + fs[..n];
    }
  }

  /** A patch of the shape the gateway sends: it may clear the phase, the message
      and the pod name, or set lastAccessed, and nothing else. */
  predicate GatewayShaped(m: Message) {
    && m.patch.endpoint.None? && m.patch.hint.None? && m.patch.conditions.None?
    && (m.touch ==> m.patch.phase.None? && m.patch.message.None? && m.patch.podName.None?)
    && (!m.touch ==> m.patch.lastAccessed.None?
                     && m.patch.phase in {None, Some(NoPhase)}
                     && m.patch.message in {None, Some(NoText)}
                     && m.patch.podName in {None, Some(NoText)})
  }

  /** The start of a run: an idle operator, a consistent status, any children, and
      any gateway patches still under way. */
  predicate Initial(w: World) {
    && w.op.Resting?
    && (w.api.cr.Some? ==> ReadyAgrees(w.api.cr.value.status))
    && (forall m :: m in w.inflight ==> GatewayShaped(m))
  }
}
