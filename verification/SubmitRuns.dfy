/** What becomes of a `submit` call in every run, src/long_running_pool_manager.rs. */
module SubmitRuns {
  import opened Prelude
  import opened WorkerPool
  import opened PoolProperties

  // ---- one call in one step ----

  /** A call is moved by its own steps only. */
  lemma OthersLeaveCall(s: Pool, step: Step, id: nat)
    requires Inv(s) && id in s.calls && Next(s, step).Some? && step != CallStep(id)
    ensures id in Next(s, step).value.calls && Next(s, step).value.calls[id] == s.calls[id]
  {
    match step
    case CallStep(other) => CallLeavesOthers(s, other, id);
    case WorkerStep(w, choice, now) => WorkerLeavesCalls(s, w, choice, now);
    case _ =>
  }

  lemma CallLeavesOthers(s: Pool, other: nat, id: nat)
    requires Inv(s) && other in s.calls && id in s.calls && id != other && CallNext(s, s.calls[other]).Some?
    ensures var s' := CallNext(s, s.calls[other]).value; id in s'.calls && s'.calls[id] == s.calls[id]
  {
    if Delivers(s, s.calls[other]) {
      SendDelivers(s, other);
    } else {
      CallMovesQuietly(s, other);
    }
  }

  lemma WorkerLeavesCalls(s: Pool, w: nat, choice: Choice, now: nat)
    requires w < |s.workers| && WorkerNext(s, w, choice, now).Some?
    ensures WorkerNext(s, w, choice, now).value.calls == s.calls && WorkerNext(s, w, choice, now).value.shutdown == s.shutdown
  {
    if Shared(s.workers[w].pc) {
      var pc := SharedStep(s, w, choice, now);
    } else {
      LocalStep(s, w, choice, now);
    }
  }

  /** A call appears by its own `Submit` only, and then it has its check before it. */
  lemma CallAppears(s: Pool, step: Step, id: nat)
    requires Inv(s) && id !in s.calls && Next(s, step).Some? && id in Next(s, step).value.calls
    ensures Next(s, step).value.calls[id].Checking? && step.Submit?
  {
    match step
    case CallStep(other) =>
      if Delivers(s, s.calls[other]) { SendDelivers(s, other); } else { CallMovesQuietly(s, other); }
    case WorkerStep(w, choice, now) => WorkerLeavesCalls(s, w, choice, now);
    case _ =>
  }

  /** The flag goes up once and stays up. */
  lemma FlagStays(s: Pool, step: Step)
    requires Inv(s) && Next(s, step).Some?
    ensures s.shutdown ==> Next(s, step).value.shutdown
    ensures Next(s, step).value.shutdown && !s.shutdown ==> step.BeginShutdown?
  {
    match step
    case CallStep(id) => if Delivers(s, s.calls[id]) { DeliveryKeepsFlag(s, id); } else { CallMovesQuietly(s, id); }
    case WorkerStep(w, choice, now) => WorkerLeavesCalls(s, w, choice, now);
    case _ =>
  }

  lemma DeliveryKeepsFlag(s: Pool, id: nat)
    requires id in s.calls && s.calls[id].task.id == id && Delivers(s, s.calls[id]) && CallNext(s, s.calls[id]).Some?
    ensures CallNext(s, s.calls[id]).value.shutdown == s.shutdown
  {
  }

  // ---- the check ----

  /** The check reads the flag: up means refused, down means on to routing, and nothing else changes. */
  lemma CheckReadsFlag(s: Pool, id: nat)
    requires id in s.calls && s.calls[id].Checking? && s.calls[id].task.id == id
    ensures s.shutdown ==> Next(s, CallStep(id)) == Some(At(s, id, ErrShutdown(s.calls[id].task)))
    ensures !s.shutdown ==> Next(s, CallStep(id)) == Some(At(s, id, Routing(s.calls[id].task)))
  {
  }

  /** Refused for good, or past the check for good. */
  predicate Refused(c: Call) {
    c.ErrShutdown?
  }

  predicate Admitted(c: Call) {
    !c.Checking? && !c.ErrShutdown?
  }

  lemma AdmittedStays(s: Pool, id: nat)
    requires Inv(s) && id in s.calls && Admitted(s.calls[id]) && CallNext(s, s.calls[id]).Some?
    ensures var s' := CallNext(s, s.calls[id]).value; id in s'.calls && Admitted(s'.calls[id])
  {
    if Delivers(s, s.calls[id]) {
      SendDelivers(s, id);
    } else {
      CallMovesQuietly(s, id);
      MovesOn(s, id);
    }
  }

  lemma MovesOn(s: Pool, id: nat)
    requires id in s.calls && s.calls[id].task.id == id && Admitted(s.calls[id]) && CallNext(s, s.calls[id]).Some?
    requires QuietMove(s, id, CallNext(s, s.calls[id]).value)
    ensures Admitted(CallNext(s, s.calls[id]).value.calls[id])
  {
  }

  lemma StepKeepsFate(s: Pool, step: Step, id: nat)
    requires Inv(s) && id in s.calls && Next(s, step).Some?
    ensures id in Next(s, step).value.calls
    ensures Refused(s.calls[id]) ==> Refused(Next(s, step).value.calls[id])
    ensures Admitted(s.calls[id]) ==> Admitted(Next(s, step).value.calls[id])
  {
    if step != CallStep(id) {
      OthersLeaveCall(s, step, id);
    } else if Admitted(s.calls[id]) {
      AdmittedStays(s, id);
    } else if s.calls[id].Checking? {
      CheckReadsFlag(s, id);
    }
  }

  lemma {:induction false} RunKeepsFate(s: Pool, steps: seq<Step>, id: nat)
    requires Inv(s) && id in s.calls && Exec(s, steps).Some?
    ensures id in Exec(s, steps).value.calls
    ensures Refused(s.calls[id]) ==> Refused(Exec(s, steps).value.calls[id])
    ensures Admitted(s.calls[id]) ==> Admitted(Exec(s, steps).value.calls[id])
  {
    if steps != [] {
      var rest := steps[..|steps| - 1];
      RunKeepsFate(s, rest, id);
      ExecKeepsInv(s, rest);
      StepKeepsFate(Exec(s, rest).value, steps[|steps| - 1], id);
    }
  }

  lemma {:induction false} WaitsForCheck(s: Pool, steps: seq<Step>, id: nat)
    requires Inv(s) && id in s.calls && Exec(s, steps).Some? && CallStep(id) !in steps
    ensures id in Exec(s, steps).value.calls && Exec(s, steps).value.calls[id] == s.calls[id]
  {
    if steps != [] {
      var rest, last := steps[..|steps| - 1], steps[|steps| - 1];
      assert last in steps && forall x :: x in rest ==> x in steps;
      WaitsForCheck(s, rest, id);
      ExecKeepsInv(s, rest);
      OthersLeaveCall(Exec(s, rest).value, last, id);
    }
  }

  /**
   A call's fate is decided at its check and by the flag alone: however the steps of others
   interleave, it waits for its check, and it ends refused for the shutdown exactly if the flag was
   up at that step.
   */
  lemma CheckDecides(s: Pool, before: seq<Step>, after: seq<Step>, id: nat)
    requires Reachable(s) && id in s.calls && s.calls[id].Checking? && CallStep(id) !in before
    requires Exec(s, before).Some? && Exec(s, before + [CallStep(id)] + after).Some?
    ensures var mid, end := Exec(s, before).value, Exec(s, before + [CallStep(id)] + after).value;
            && id in mid.calls && mid.calls[id] == s.calls[id] && id in end.calls && !end.calls[id].Checking?
            && (end.calls[id].ErrShutdown? <==> mid.shutdown)
  {
    ReachableInv(s);
    WaitsForCheck(s, before, id);
    ExecKeepsInv(s, before);
    var mid := Exec(s, before).value;
    CheckReadsFlag(mid, id);
    ExecSnoc(s, before, CallStep(id));
    ExecAppend(s, before + [CallStep(id)], after);
    ExecKeepsInv(s, before + [CallStep(id)]);
    RunKeepsFate(Next(mid, CallStep(id)).value, after, id);
  }

  // ---- after the flag ----

  predicate NotAdmitted(s: Pool, id: nat) {
    id in s.calls ==> s.calls[id].Checking? || s.calls[id].ErrShutdown?
  }

  lemma StepKeepsOut(s: Pool, step: Step, id: nat)
    requires Inv(s) && s.shutdown && NotAdmitted(s, id) && Next(s, step).Some?
    ensures Next(s, step).value.shutdown && NotAdmitted(Next(s, step).value, id)
  {
    FlagStays(s, step);
    if id !in s.calls {
      if id in Next(s, step).value.calls { CallAppears(s, step, id); }
    } else if step != CallStep(id) {
      OthersLeaveCall(s, step, id);
    } else if s.calls[id].Checking? {
      CheckReadsFlag(s, id);
    }
  }

  lemma {:induction false} RunKeepsOut(s: Pool, steps: seq<Step>, id: nat)
    requires Inv(s) && s.shutdown && NotAdmitted(s, id) && Exec(s, steps).Some?
    ensures Exec(s, steps).value.shutdown && NotAdmitted(Exec(s, steps).value, id)
  {
    if steps != [] {
      var rest := steps[..|steps| - 1];
      RunKeepsOut(s, rest, id);
      ExecKeepsInv(s, rest);
      StepKeepsOut(Exec(s, rest).value, steps[|steps| - 1], id);
    }
  }

  /**
   A call made after the shutdown flag went up, or not yet checked then, is never accepted: in every
   run it is still before its check or refused, and no worker ever gets its task.
   */
  lemma LateSubmitIsRefused(s: Pool, steps: seq<Step>, id: nat)
    requires Reachable(s) && s.shutdown && (id in s.calls ==> s.calls[id].Checking?) && Exec(s, steps).Some?
    ensures var end := Exec(s, steps).value;
            && (id in end.calls ==> end.calls[id].Checking? || end.calls[id].ErrShutdown?)
            && forall w, i :: 0 <= w < |end.workers| && 0 <= i < |end.workers[w].sent| ==> end.workers[w].sent[i].id != id
  {
    ReachableInv(s);
    RunKeepsOut(s, steps, id);
    ExecKeepsInv(s, steps);
    var end := Exec(s, steps).value;
    forall w, i | 0 <= w < |end.workers| && 0 <= i < |end.workers[w].sent| ensures end.workers[w].sent[i].id != id {
      assert end.calls[end.workers[w].sent[i].id] == Accepted(end.workers[w].sent[i], w);
    }
  }

  predicate RefusedOnlyDown(s: Pool) {
    forall id :: id in s.calls && s.calls[id].ErrShutdown? ==> s.shutdown
  }

  lemma StepRefuses(s: Pool, step: Step, id: nat)
    requires Inv(s) && RefusedOnlyDown(s) && Next(s, step).Some?
    requires id in Next(s, step).value.calls && Next(s, step).value.calls[id].ErrShutdown?
    ensures Next(s, step).value.shutdown
  {
    FlagStays(s, step);
    if id !in s.calls {
      CallAppears(s, step, id);
    } else if step != CallStep(id) {
      OthersLeaveCall(s, step, id);
    } else if Admitted(s.calls[id]) {
      AdmittedStays(s, id);
    } else {
      CheckReadsFlag(s, id);
    }
  }

  lemma {:induction false} RunRefusesOnlyDown(s: Pool, steps: seq<Step>)
    requires Inv(s) && RefusedOnlyDown(s) && Exec(s, steps).Some?
    ensures RefusedOnlyDown(Exec(s, steps).value)
  {
    if steps != [] {
      var rest, step := steps[..|steps| - 1], steps[|steps| - 1];
      RunRefusesOnlyDown(s, rest);
      ExecKeepsInv(s, rest);
      var mid, end := Exec(s, rest).value, Exec(s, steps).value;
      forall id | id in end.calls && end.calls[id].ErrShutdown? ensures end.shutdown {
        StepRefuses(mid, step, id);
      }
    }
  }

  /** In every run a call is refused for the shutdown only if the flag is up. */
  lemma RefusedMeansShutdown(s: Pool, id: nat)
    requires Reachable(s) && id in s.calls && s.calls[id].ErrShutdown?
    ensures s.shutdown
  {
    var n: nat, depth: nat, config, sha256, steps :| Exec(Init(n, depth, config, sha256), steps) == Some(s);
    InitInv(n, depth, config, sha256);
    RunRefusesOnlyDown(Init(n, depth, config, sha256), steps);
  }

  // ---- the send ----

  /**
   The send at the end: a worker whose receiver is open and whose queue has room gets the task, at the
   end of its queue and once; otherwise the call fails with a full queue, and nothing else changes.
   */
  lemma SendDecides(s: Pool, id: nat)
    requires id in s.calls && s.calls[id].Sending? && s.calls[id].task.id == id && s.calls[id].target < |s.workers|
    ensures var (t, w) := (s.calls[id].task, s.calls[id].target);
            var (wk, next) := (s.workers[w], Next(s, CallStep(id)));
            if wk.pc.Stopped? || |wk.queue| >= s.depth then next == Some(At(s, id, ErrQueueFull(t)))
            else
              && next.Some? && |next.value.workers| == |s.workers|
              && next.value.workers[w].queue == wk.queue + [t] && next.value.workers[w].sent == wk.sent + [t]
              && next.value.workers[w].pc == wk.pc && next.value.workers[w].answered == wk.answered
              && (forall v :: 0 <= v < |s.workers| && v != w ==> next.value.workers[v] == s.workers[v])
              && next.value == At(s, id, Accepted(t, w)).(workers := next.value.workers)
  {
  }
}
