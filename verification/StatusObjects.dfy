/**
 Status writes on the heap. Both writers edit a decoded object in place and send
 the difference from a copy taken before the edit; that difference is only right
 because the copy shares no memory with the object.
 */
module StatusObjects {
  import opened Common
  import opened WorkspaceApi
  import opened Lifecycle

  class StatusObject {
    var phase: Phase
    var podName: Text
    var endpoint: Text
    var message: Text
    var hint: Text
    var conditions: array<Condition>
    var lastAccessed: Option<nat>

    /** The JSON value of the object. */
    ghost function View(): Status
      reads this, conditions
    {
      Status(phase, podName, endpoint, message, hint, conditions[..], lastAccessed)
    }

    constructor ()
      ensures View() == EMPTY_STATUS && fresh(conditions)
    {
      phase, podName, endpoint, message, hint := NoPhase, NoText, NoText, NoText, NoText;
      conditions, lastAccessed := new Condition[0], None;
    }

    /** WorkspaceStatus.DeepCopyInto: the conditions get a backing array of their own. */
    method DeepCopyInto(out: StatusObject)
      requires out != this
      modifies out
      ensures out.View() == View() && fresh(out.conditions)
    {
      var n := conditions.Length;
      var copy := new Condition[n];
      for i := 0 to n
        invariant copy[..i] == conditions[..i]
      {
        copy[i] := conditions[i];
      }
      assert copy[..] == copy[..n] && conditions[..] == conditions[..n];
      out.phase, out.podName, out.endpoint := phase, podName, endpoint;
      out.message, out.hint, out.lastAccessed := message, hint, lastAccessed;
      out.conditions := copy;
    }

    method DeepCopy() returns (out: StatusObject)
      ensures fresh(out) && fresh(out.conditions) && out.View() == View()
    {
      out := new StatusObject();
      DeepCopyInto(out);
    }

    /** meta.SetStatusCondition: an existing condition is overwritten in the slice. */
    method SetStatusCondition(c: Condition, now: nat)
      modifies this`conditions, conditions
      ensures conditions[..] == SetCondition(old(conditions[..]), c, now)
      ensures conditions == old(conditions) || fresh(conditions)
    {
      var n, i := conditions.Length, 0;
      while i < n && conditions[i].kind != c.kind
        invariant i <= n
        invariant forall j :: 0 <= j < i ==> conditions[j].kind != c.kind
      {
        i := i + 1;
      }
      FindIs(conditions[..], c.kind, i);
      if i < n {
        var since := if conditions[i].status == c.status then conditions[i].transition else WholeSeconds(now);
        conditions[i] := c.(transition := since);
      } else {
        var grown := new Condition[n + 1](j requires 0 <= j <= n reads this, conditions =>
          if j < conditions.Length then conditions[j] else c.(transition := WholeSeconds(now)));
        conditions := grown;
      }
    }

    /** ApplyStatusSummary with syncReadyCondition. */
    method ApplyStatusSummary(sum: Summary, generation: nat, now: nat)
      modifies this, conditions
      ensures View() == Summarised(old(View()), sum, generation, now)
      ensures conditions == old(conditions) || fresh(conditions)
    {
      var msg := sum.message;
      if sum.override != NoText {
        msg := sum.override;
      }
      phase, podName, endpoint, message, hint := sum.phase, sum.podName, sum.endpoint, msg, sum.hint;
      var reason := if sum.reason == Unset then DefaultReadyReason(sum.phase) else sum.reason;
      var ready := if sum.phase == Running then True else False;
      var text := if msg == NoText && sum.phase == Running then PodIsReady else msg;
      SetStatusCondition(Condition(Ready, ready, reason, text, generation, 0), now);
    }

    /** The client decodes the server's answer into the object it sent. */
    method Absorb(answer: Status)
      modifies this
      ensures View() == Decode(old(View()), answer)
      ensures conditions == old(conditions) || fresh(conditions)
    {
      phase := if answer.phase == NoPhase then phase else answer.phase;
      podName, endpoint := Kept(podName, answer.podName), Kept(endpoint, answer.endpoint);
      message, hint := Kept(message, answer.message), Kept(hint, answer.hint);
      if answer.conditions != [] {
        var n := |answer.conditions|;
        conditions := new Condition[n](i requires 0 <= i < n => answer.conditions[i]);
      }
      lastAccessed := answer.lastAccessed;
    }
  }

  /** A position with that kind, and none before it, is what Find returns. */
  lemma FindIs(cs: seq<Condition>, kind: ConditionKind, i: nat)
    requires i <= |cs| && (forall j :: 0 <= j < i ==> cs[j].kind != kind)
    requires i < |cs| ==> cs[i].kind == kind
    ensures Find(cs, kind) == i
  {
    var f := Find(cs, kind);
    if f < i {
      assert false;
    }
  }

  /** The status subresource of the stored Workspace. */
  class StatusStore {
    var stored: Status

    constructor (stored: Status)
      ensures this.stored == stored
    {
      this.stored := stored;
    }

    /** Status().Patch(ctx, obj, MergeFrom(base)): no version check, and the answer
        is decoded into obj. */
    method Send(obj: StatusObject, base: StatusObject, o: Outcome)
      modifies this, obj
      ensures stored == if o.Rejected? then old(stored) else ApplyPatch(old(stored), Diff(old(base.View()), old(obj.View())))
      ensures obj.View() == if o.Ok? then Decode(old(obj.View()), stored) else old(obj.View())
      ensures obj.conditions == old(obj.conditions) || fresh(obj.conditions)
    {
      if !o.Rejected? {
        var before := Status(base.phase, base.podName, base.endpoint, base.message, base.hint, base.conditions[..], base.lastAccessed);
        var after := Status(obj.phase, obj.podName, obj.endpoint, obj.message, obj.hint, obj.conditions[..], obj.lastAccessed);
        stored := ApplyPatch(stored, Diff(before, after));
      }
      if o.Ok? {
        obj.Absorb(stored);
      }
    }

    /** updateStatus. What reaches the server is exactly the difference the summary
        makes to the object as it was read, and lastAccessed is never part of it. */
    method UpdateStatus(obj: StatusObject, sum: Summary, generation: nat, now: nat, o: Outcome)
      modifies this, obj, obj.conditions
      ensures var read := old(obj.View());
        stored == if o.Rejected? then old(stored)
                  else ApplyPatch(old(stored), Diff(read, Summarised(read, sum, generation, now)))
      ensures stored.lastAccessed == old(stored).lastAccessed
      ensures !o.Rejected? && old(obj.View()) == old(stored) ==> stored == Summarised(old(stored), sum, generation, now)
    {
      var base := obj.DeepCopy();
      obj.ApplyStatusSummary(sum, generation, now);
      Send(obj, base, o);
    }

    /** TouchLastAccessed, and the stamp at the end of EnsureWorkspace: whatever the
        object's age, no field but lastAccessed changes on the server. */
    method TouchLastAccessed(obj: StatusObject, now: nat, o: Outcome)
      modifies this, obj
      ensures stored == if o.Rejected? then old(stored) else ApplyPatch(old(stored), TouchMessage(old(obj.View()), now).patch)
      ensures stored == old(stored).(lastAccessed := stored.lastAccessed)
      ensures stored.lastAccessed in {old(stored).lastAccessed, Some(WholeSeconds(now))}
      ensures !o.Rejected? && old(obj.lastAccessed) != Some(WholeSeconds(now)) ==> stored.lastAccessed == Some(WholeSeconds(now))
      ensures obj.View() == if o.Ok? then Decode(Touched(old(obj.View()), now), stored) else Touched(old(obj.View()), now)
      ensures obj.conditions == old(obj.conditions) || fresh(obj.conditions)
    {
      var base := obj.DeepCopy();
      obj.lastAccessed := Some(WholeSeconds(now));
      assert obj.View() == Touched(old(obj.View()), now);
      Send(obj, base, o);
    }

    /** The wake-up edit of EnsureExists and waitForRunning: it never sets
        lastAccessed, the endpoint, the hint or the conditions. */
    method ClearStopped(obj: StatusObject, o: Outcome) returns (ok: bool)
      requires obj.phase == Stopped
      modifies this, obj
      ensures ok == o.Ok?
      ensures stored == if o.Rejected? then old(stored) else ApplyPatch(old(stored), WakeMessage(old(obj.View())).patch)
      ensures stored == old(stored).(phase := stored.phase, message := stored.message, podName := stored.podName)
      ensures !o.Rejected? ==> stored.phase == NoPhase
    {
      var base := obj.DeepCopy();
      obj.phase, obj.message, obj.podName := NoPhase, NoText, NoText;
      assert obj.View() == Cleared(old(obj.View()));
      Send(obj, base, o);
      ok := o.Ok?;
    }
  }
}
