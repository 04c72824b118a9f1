/**
 The Workspace object, its status, and the way both writers change that status:
 JSON Merge Patch (section 2 of RFC 7396) computed against the copy they read.
 */
module WorkspaceApi {
  import opened Common

  // ------------------------------------------------------------------ status

  datatype Phase = NoPhase | Pending | Creating | Running | Failed | Stopped

  /** The short texts of a status. Only their equality and emptiness matter. */
  datatype Text = NoText | PodRef | EndpointRef | PodIsReady | Note(about: Topic, detail: nat)

  datatype Topic =
    | Validation | Access | Policies | PvcRead | PvcCreate | PvcBinding | PvcLost
    | PodRead | PodCreate | ServiceEnsure | Idle | PodFailure | PodUnknown | PodStuck | PodPending

  datatype Reason = Unset | BecauseRunning | Progressing | BecauseStopped | BecauseFailed | Because(about: Topic, detail: nat)

  datatype ConditionKind = Ready | OtherKind(id: nat)
  datatype ConditionStatus = True | False | Unknown
  datatype Condition = Condition(
    kind: ConditionKind,
    status: ConditionStatus,
    reason: Reason,
    message: Text,
    generation: nat,
    transition: nat)

  datatype Status = Status(
    phase: Phase,
    podName: Text,
    endpoint: Text,
    message: Text,
    hint: Text,
    conditions: seq<Condition>,
    lastAccessed: Option<nat>)

  const EMPTY_STATUS := Status(NoPhase, NoText, NoText, NoText, NoText, [], None)

  /** metav1.Time is written to JSON with whole seconds. */
  function WholeSeconds(t: nat): (r: nat)
    ensures r <= t < r + SECOND && r % SECOND == 0
  {
    t - t % SECOND
  }

  // ------------------------------------------------------------ merge patches

  /** One entry per status field; None means the field is absent from the patch. */
  datatype Patch = Patch(
    phase: Option<Phase>,
    podName: Option<Text>,
    endpoint: Option<Text>,
    message: Option<Text>,
    hint: Option<Text>,
    conditions: Option<seq<Condition>>,
    lastAccessed: Option<Option<nat>>)

  function Change<T(==)>(base: T, edited: T): Option<T> {
    if base == edited then None else Some(edited)
  }

  function Overlay<T>(stored: T, change: Option<T>): T {
    if change.None? then stored else change.value
  }

  /** client.MergeFrom(base) applied to the edited copy. Lists are atomic. */
  function Diff(base: Status, edited: Status): Patch {
    Patch(
      Change(base.phase, edited.phase),
      Change(base.podName, edited.podName),
      Change(base.endpoint, edited.endpoint),
      Change(base.message, edited.message),
      Change(base.hint, edited.hint),
      Change(base.conditions, edited.conditions),
      Change(base.lastAccessed, edited.lastAccessed))
  }

  /** The API server's side: there is no version check. */
  function ApplyPatch(stored: Status, p: Patch): Status {
    Status(
      Overlay(stored.phase, p.phase),
      Overlay(stored.podName, p.podName),
      Overlay(stored.endpoint, p.endpoint),
      Overlay(stored.message, p.message),
      Overlay(stored.hint, p.hint),
      Overlay(stored.conditions, p.conditions),
      Overlay(stored.lastAccessed, p.lastAccessed))
  }

  predicate Merged<T(==)>(stored: T, base: T, edited: T, result: T) {
    result == if base == edited then stored else edited
  }

  /** A patch writes the fields that were edited, and leaves all others as they are
      stored, however different the base has become. */
  lemma PatchMeaning(stored: Status, base: Status, edited: Status)
    ensures var r := ApplyPatch(stored, Diff(base, edited));
      && Merged(stored.phase, base.phase, edited.phase, r.phase)
      && Merged(stored.podName, base.podName, edited.podName, r.podName)
      && Merged(stored.endpoint, base.endpoint, edited.endpoint, r.endpoint)
      && Merged(stored.message, base.message, edited.message, r.message)
      && Merged(stored.hint, base.hint, edited.hint, r.hint)
      && Merged(stored.conditions, base.conditions, edited.conditions, r.conditions)
      && Merged(stored.lastAccessed, base.lastAccessed, edited.lastAccessed, r.lastAccessed)
  {
  }

  function Kept(held: Text, decoded: Text): Text {
    if decoded == NoText then held else decoded
  }

  /** The client decodes the server's answer into the struct it sent. Fields that
      the answer omits because they are empty keep their old value;
      lastAccessed is always present. */
  function Decode(held: Status, answer: Status): Status {
    Status(
      if answer.phase == NoPhase then held.phase else answer.phase,
      Kept(held.podName, answer.podName),
      Kept(held.endpoint, answer.endpoint),
      Kept(held.message, answer.message),
      Kept(held.hint, answer.hint),
      if answer.conditions == [] then held.conditions else answer.conditions,
      answer.lastAccessed)
  }

  /** Decoding into an empty struct gives the answer, and decoding an answer without
      content into any struct changes its stamp alone. */
  lemma DecodeLaws(held: Status, answer: Status)
    ensures Decode(EMPTY_STATUS, answer) == answer
    ensures Decode(held, EMPTY_STATUS.(lastAccessed := answer.lastAccessed)) == held.(lastAccessed := answer.lastAccessed)
    ensures var r := Decode(held, answer);
      && (answer.phase != NoPhase ==> r.phase == answer.phase) && (answer.podName != NoText ==> r.podName == answer.podName)
      && (answer.endpoint != NoText ==> r.endpoint == answer.endpoint) && (answer.message != NoText ==> r.message == answer.message)
      && (answer.hint != NoText ==> r.hint == answer.hint) && (answer.conditions != [] ==> r.conditions == answer.conditions)
  {
  }

  // --------------------------------------------------------- Ready condition

  function Find(cs: seq<Condition>, kind: ConditionKind): (i: nat)
    ensures i <= |cs|
    ensures i < |cs| ==> cs[i].kind == kind
    ensures forall j :: 0 <= j < i ==> cs[j].kind != kind
  {
    if cs == [] || cs[0].kind == kind then 0 else 1 + Find(cs[1..], kind)
  }

  /** meta.SetStatusCondition */
  function SetCondition(cs: seq<Condition>, c: Condition, now: nat): seq<Condition> {
    var i := Find(cs, c.kind);
    if i == |cs| then cs + [c.(transition := WholeSeconds(now))]
    else cs[i := c.(transition := if cs[i].status == c.status then cs[i].transition else WholeSeconds(now))]
  }

  function ReadyStatus(cs: seq<Condition>): Option<ConditionStatus> {
    var i := Find(cs, Ready);
    if i == |cs| then None else Some(cs[i].status)
  }

  lemma SetConditionReady(cs: seq<Condition>, c: Condition, now: nat)
    requires c.kind == Ready
    ensures ReadyStatus(SetCondition(cs, c, now)) == Some(c.status)
    ensures SetCondition(SetCondition(cs, c, now), c, now) == SetCondition(cs, c, now)
  {
    var ds := SetCondition(cs, c, now);
    var i := Find(cs, Ready);
    var j := Find(ds, Ready);
    assert ds[i].kind == Ready;
    assert j == i;
  }

  /** The relation a reader of the status relies on. */
  predicate ReadyAgrees(s: Status) {
    match s.phase
    case Running => ReadyStatus(s.conditions) == Some(True)
    case Creating => ReadyStatus(s.conditions) == Some(False)
    case Failed => ReadyStatus(s.conditions) == Some(False)
    case Stopped => ReadyStatus(s.conditions) == Some(False)
    case NoPhase => true
    case Pending => false
  }

  // ---------------------------------------------------------- status summary

  datatype Summary = Summary(
    phase: Phase,
    podName: Text,
    endpoint: Text,
    message: Text,
    override: Text,
    hint: Text,
    reason: Reason)

  function DefaultReadyReason(phase: Phase): Reason {
    match phase
    case Running => BecauseRunning
    case Creating => Progressing
    case Failed => BecauseFailed
    case Stopped => BecauseStopped
    case _ => Progressing
  }

  function SummaryMessage(sum: Summary): Text {
    if sum.override != NoText then sum.override else sum.message
  }

  function ReadyCondition(sum: Summary, generation: nat): Condition {
    var message := SummaryMessage(sum);
    Condition(
      Ready,
      if sum.phase == Running then True else False,
      if sum.reason == Unset then DefaultReadyReason(sum.phase) else sum.reason,
      if message == NoText && sum.phase == Running then PodIsReady else message,
      generation,
      0)
  }

  /** ApplyStatusSummary with syncReadyCondition. */
  function Summarised(s: Status, sum: Summary, generation: nat, now: nat): Status {
    Status(
      sum.phase,
      sum.podName,
      sum.endpoint,
      SummaryMessage(sum),
      sum.hint,
      SetCondition(s.conditions, ReadyCondition(sum, generation), now),
      s.lastAccessed)
  }

  /** A summary always leaves phase and Ready in agreement. */
  lemma SummarisedAgrees(s: Status, sum: Summary, generation: nat, now: nat)
    requires sum.phase in {Creating, Running, Failed, Stopped}
    ensures ReadyAgrees(Summarised(s, sum, generation, now))
  {
    SetConditionReady(s.conditions, ReadyCondition(sum, generation), now);
  }

  /** What a reader finds after a summary: its fields, with the override in place of the
      message; one Ready condition with the reason given, or that of the phase; its
      transition time changed only when its status did; other conditions untouched; and
      the stamp as it was. */
  lemma SummarisedMeaning(s: Status, sum: Summary, generation: nat, now: nat)
    ensures var r := Summarised(s, sum, generation, now);
      && r.phase == sum.phase && r.podName == sum.podName && r.endpoint == sum.endpoint && r.hint == sum.hint
      && r.message == (if sum.override == NoText then sum.message else sum.override)
      && r.lastAccessed == s.lastAccessed
    ensures var old', new' := s.conditions, Summarised(s, sum, generation, now).conditions;
      var i := Find(old', Ready);
      && Find(new', Ready) == i < |new'| == (if i < |old'| then |old'| else |old'| + 1)
      && (forall k :: 0 <= k < |old'| && k != i ==> new'[k] == old'[k])
      && (new'[i].status == if sum.phase == Running then True else False)
      && (sum.reason != Unset ==> new'[i].reason == sum.reason)
      && (sum.reason == Unset && sum.phase == Running ==> new'[i].reason == BecauseRunning)
      && (sum.reason == Unset && sum.phase == Stopped ==> new'[i].reason == BecauseStopped)
      && (sum.reason == Unset && sum.phase == Failed ==> new'[i].reason == BecauseFailed)
      && (sum.reason == Unset && sum.phase !in {Running, Stopped, Failed} ==> new'[i].reason == Progressing)
      && new'[i].message == (if Summarised(s, sum, generation, now).message == NoText && sum.phase == Running then PodIsReady
                             else Summarised(s, sum, generation, now).message)
      && new'[i].generation == generation
      && new'[i].transition ==
         (if i < |old'| && old'[i].status == new'[i].status then old'[i].transition else WholeSeconds(now))
  {
    var cs, c := s.conditions, ReadyCondition(sum, generation);
    var ds := SetCondition(cs, c, now);
    assert ds[Find(cs, Ready)].kind == Ready;
    assert Find(ds, Ready) == Find(cs, Ready);
  }

  // ------------------------------------------------------------------ object

  /** spec.lifecycle.idleTimeout after trimming. */
  datatype IdleSetting = Inherit | Disabled | Lasting(d: int) | Malformed

  datatype Spec = Spec(
    wellFormed: bool,
    idle: IdleSetting,
    egressNamespaces: seq<string>,
    egressPorts: seq<int>,
    storage: nat)

  datatype Workspace = Workspace(
    spec: Spec,
    status: Status,
    finalizer: bool,
    deleting: bool,
    generation: nat)

  /** ValidateSpec: the field checks, then the idle timeout's syntax. */
  predicate ValidSpec(s: Spec) {
    s.wellFormed && s.idle != Malformed
  }

  function EffectiveIdleTimeout(s: Spec, operatorDefault: int): int {
    match s.idle
    case Inherit => operatorDefault
    case Disabled => 0
    case Lasting(d) => d
    case Malformed => operatorDefault
  }
}
