/** What a returned shutdown means in every interleaving, src/long_running_pool_manager.rs. */
module ShutdownRuns {
  import opened Prelude
  import opened WorkerPool
  import opened PoolProperties
  import QC = QueryCache

  /** Step `j` of the run reads the counter of worker `w`, which is not executing then. */
  ghost predicate ReadsIdle(s: Pool, steps: seq<Step>, w: nat, j: nat) {
    && j < |steps| && steps[j].DrainStep? && Exec(s, steps[..j]).Some?
    && var mid := Exec(s, steps[..j]).value;
       && w < |mid.workers| && mid.drain.Summing? && mid.drain.k == w
       && !IsExecuting(mid.workers[w].pc)
  }

  ghost predicate ReadIdle(s: Pool, steps: seq<Step>, w: nat) {
    exists j: nat :: ReadsIdle(s, steps, w, j)
  }

  lemma ReadEarlier(s: Pool, steps: seq<Step>, w: nat)
    requires steps != [] && ReadIdle(s, steps[..|steps| - 1], w)
    ensures ReadIdle(s, steps, w)
  {
    var rest := steps[..|steps| - 1];
    var j: nat :| ReadsIdle(s, rest, w, j);
    assert rest[..j] == steps[..j];
    assert ReadsIdle(s, steps, w, j);
  }

  /** How far the counters have been read as zero: the workers below this index. */
  function ReadSoFar(s: Pool): nat {
    match s.drain
    case Summing(k, total) => if total == 0 then k else 0
    case Returned(timedOut) => if timedOut then 0 else |s.workers|
    case Idle => 0
  }

  lemma StepReads(s: Pool, step: Step)
    requires Inv(s) && Next(s, step).Some?
    ensures |Next(s, step).value.workers| == |s.workers|
    ensures || ReadSoFar(Next(s, step).value) <= ReadSoFar(s)
            || (&& step.DrainStep? && s.drain.Summing? && s.drain.k < |s.workers|
                && ReadSoFar(Next(s, step).value) == s.drain.k + 1 && ReadSoFar(s) == s.drain.k
                && !IsExecuting(s.workers[s.drain.k].pc))
            || (step.DrainStep? && s.drain.Summing? && s.drain.k >= |s.workers| && ReadSoFar(s) == s.drain.k)
  {
    match step
    case DrainStep(_) =>
      if s.drain.Summing? && s.drain.k < |s.workers| {
        assert WorkerInv(s.workers[s.drain.k], s.shutdown, s.handlesDropped, s.depth);
      }
    case CallStep(id) => CallKeepsDrain(s, id);
    case WorkerStep(w, choice, now) => WorkerKeepsDrain(s, w, choice, now);
    case _ =>
  }

  lemma CallKeepsDrain(s: Pool, id: nat)
    requires Inv(s) && id in s.calls && CallNext(s, s.calls[id]).Some?
    ensures var s' := CallNext(s, s.calls[id]).value; s'.drain == s.drain && |s'.workers| == |s.workers|
  {
    if !Delivers(s, s.calls[id]) {
      CallMovesQuietly(s, id);
    }
  }

  lemma WorkerKeepsDrain(s: Pool, w: nat, choice: Choice, now: nat)
    requires w < |s.workers| && WorkerNext(s, w, choice, now).Some?
    ensures var s' := WorkerNext(s, w, choice, now).value; s'.drain == s.drain && |s'.workers| == |s.workers|
  {
    if Shared(s.workers[w].pc) {
      var pc := SharedStep(s, w, choice, now);
    } else {
      LocalStep(s, w, choice, now);
    }
  }

  /** The last step of a run either leaves what was read, or reads one more counter. */
  lemma LastRead(s: Pool, rest: seq<Step>, step: Step, w: nat)
    requires Exec(s, rest).Some? && Inv(Exec(s, rest).value) && Next(Exec(s, rest).value, step).Some?
    requires w < |Exec(s, rest).value.workers| && w < ReadSoFar(Next(Exec(s, rest).value, step).value)
    requires w >= ReadSoFar(Exec(s, rest).value)
    ensures ReadIdle(s, rest + [step], w)
  {
    StepReads(Exec(s, rest).value, step);
    assert (rest + [step])[..|rest|] == rest;
    assert ReadsIdle(s, rest + [step], w, |rest|);
  }

  lemma ReadAlready(s: Pool, rest: seq<Step>, step: Step, w: nat)
    requires ReadIdle(s, rest, w)
    ensures ReadIdle(s, rest + [step], w)
  {
    assert (rest + [step])[..|rest + [step]| - 1] == rest;
    ReadEarlier(s, rest + [step], w);
  }

  /** In a run that starts with nothing read, every counter read as zero was read while its worker was idle. */
  lemma {:induction false} ReadsAreIdle(s: Pool, steps: seq<Step>, w: nat)
    requires Inv(s) && ReadSoFar(s) == 0 && Exec(s, steps).Some?
    requires w < ReadSoFar(Exec(s, steps).value) && w < |s.workers|
    ensures ReadIdle(s, steps, w)
    decreases |steps|
  {
    if steps != [] {
      var rest, step := steps[..|steps| - 1], steps[|steps| - 1];
      assert steps == rest + [step];
      ExecKeepsInv(s, rest);
      ExecExtends(s, rest, w);
      if w < ReadSoFar(Exec(s, rest).value) {
        ReadsAreIdle(s, rest, w);
        ReadAlready(s, rest, step, w);
      } else {
        LastRead(s, rest, step, w);
      }
    }
  }

  /** The task that was number `n` to be answered is past its execution. */
  predicate CountedOut(wk: Worker, n: nat) {
    |wk.answered| > n || (|wk.answered| == n && (wk.pc.Storing? || wk.pc.Replying?))
  }

  predicate StillAt(wk: Worker, n: nat) {
    |wk.answered| == n && IsExecuting(wk.pc)
  }

  lemma WorkerProgress(s: Pool, w: nat, choice: Choice, now: nat, n: nat)
    requires w < |s.workers| && WorkerNext(s, w, choice, now).Some?
    ensures var wk, wk' := s.workers[w], WorkerNext(s, w, choice, now).value.workers[w];
            && (CountedOut(wk, n) ==> CountedOut(wk', n))
            && (StillAt(wk, n) ==> StillAt(wk', n) || CountedOut(wk', n))
  {
    var wk := s.workers[w];
    if Shared(wk.pc) {
      var pc := SharedStep(s, w, choice, now);
    } else {
      LocalStep(s, w, choice, now);
      LocalExtends(wk, s.shutdown, s.handlesDropped, choice);
    }
  }

  lemma DeliveryProgress(s: Pool, id: nat, w: nat)
    requires id in s.calls && s.calls[id].task.id == id && Delivers(s, s.calls[id]) && w < |s.workers|
    ensures CallNext(s, s.calls[id]).Some?
    ensures var s' := CallNext(s, s.calls[id]).value;
            && |s'.workers| == |s.workers|
            && s'.workers[w].pc == s.workers[w].pc && s'.workers[w].answered == s.workers[w].answered
  {
  }

  lemma StepProgress(s: Pool, step: Step, w: nat, n: nat)
    requires Inv(s) && Next(s, step).Some? && w < |s.workers|
    ensures var s' := Next(s, step).value;
            && |s'.workers| == |s.workers|
            && (CountedOut(s.workers[w], n) ==> CountedOut(s'.workers[w], n))
            && (StillAt(s.workers[w], n) ==> StillAt(s'.workers[w], n) || CountedOut(s'.workers[w], n))
  {
    match step
    case WorkerStep(v, choice, now) =>
      WorkerKeepsDrain(s, v, choice, now);
      if v == w { WorkerProgress(s, w, choice, now, n); } else { WorkerNextExtends(s, v, choice, now); }
    case CallStep(id) =>
      if Delivers(s, s.calls[id]) { DeliveryProgress(s, id, w); } else { CallMovesQuietly(s, id); }
    case _ => WorkersRest(s, step);
  }

  lemma {:induction false} RunProgress(s: Pool, steps: seq<Step>, w: nat, n: nat)
    requires Inv(s) && Exec(s, steps).Some? && w < |s.workers|
    ensures var s' := Exec(s, steps).value;
            && |s'.workers| == |s.workers|
            && (CountedOut(s.workers[w], n) ==> CountedOut(s'.workers[w], n))
            && (StillAt(s.workers[w], n) ==> StillAt(s'.workers[w], n) || CountedOut(s'.workers[w], n))
  {
    if steps != [] {
      var rest := steps[..|steps| - 1];
      RunProgress(s, rest, w, n);
      ExecKeepsInv(s, rest);
      StepProgress(Exec(s, rest).value, steps[|steps| - 1], w, n);
    }
  }

  /**
   In every interleaving: when a shutdown has returned without a timeout, each worker's counter was
   read, after the flag went up, at a moment when that worker was not executing. So the query that
   a worker was executing when the flag went up has been counted out: it is answered, or its
   answer is about to be stored or sent.
   */
  lemma CleanReturnMeansCountedOut(s: Pool, steps: seq<Step>, w: nat)
    requires Reachable(s) && !s.handlesDropped && w < |s.workers| && Exec(Begun(s), steps).Some?
    requires Exec(Begun(s), steps).value.drain == Returned(false)
    ensures Next(s, BeginShutdown) == Some(Begun(s)) && |Exec(Begun(s), steps).value.workers| == |s.workers|
    ensures ReadIdle(Begun(s), steps, w)
    ensures IsExecuting(s.workers[w].pc) ==>
              var wk, n := Exec(Begun(s), steps).value.workers[w], |s.workers[w].answered|;
              CountedOut(wk, n) && (if |wk.answered| > n then wk.answered[n].0 else wk.pc.task) == s.workers[w].pc.task
  {
    ReachableInv(s);
    FlagStepKeepsInv(s, Begun(s));
    var start, end := Begun(s), Exec(Begun(s), steps).value;
    ExecExtends(start, steps, w);
    ReadsAreIdle(start, steps, w);
    if IsExecuting(s.workers[w].pc) {
      CountedOutOnceRead(start, steps, w);
      ExecKeepsInv(start, steps);
      assert WorkerInv(end.workers[w], end.shutdown, end.handlesDropped, end.depth);
      assert WorkerInv(s.workers[w], s.shutdown, s.handlesDropped, s.depth);
      HeldIsNext(s.workers[w], end.workers[w]);
    }
  }

  lemma CountedOutOnceRead(s: Pool, steps: seq<Step>, w: nat)
    requires Inv(s) && w < |s.workers| && Exec(s, steps).Some? && IsExecuting(s.workers[w].pc) && ReadIdle(s, steps, w)
    ensures |Exec(s, steps).value.workers| == |s.workers|
    ensures CountedOut(Exec(s, steps).value.workers[w], |s.workers[w].answered|)
  {
    var n := |s.workers[w].answered|;
    var j: nat :| ReadsIdle(s, steps, w, j);
    RunProgress(s, steps[..j], w, n);
    ExecKeepsInv(s, steps[..j]);
    RestRuns(s, steps, j);
    RunProgress(Exec(s, steps[..j]).value, steps[j..], w, n);
  }

  lemma RestRuns(s: Pool, steps: seq<Step>, j: nat)
    requires j <= |steps| && Exec(s, steps[..j]).Some?
    ensures Exec(s, steps) == Exec(Exec(s, steps[..j]).value, steps[j..])
  {
    assert steps == steps[..j] + steps[j..];
    ExecAppend(s, steps[..j], steps[j..]);
  }

  /** The task a worker holds is the next one it answers. */
  lemma HeldIsNext(wk: Worker, later: Worker)
    requires Ledger(wk) && Ledger(later) && Extends(wk, later) && Held(wk.pc) != []
    requires CountedOut(later, |wk.answered|)
    ensures var n := |wk.answered|;
            (if |later.answered| > n then later.answered[n].0 else later.pc.task) == Held(wk.pc)[0]
  {
    var n := |wk.answered|;
    assert wk.sent[n] == Held(wk.pc)[0];
    assert later.sent[n] == wk.sent[n];
    if |later.answered| > n {
      assert Tasks(later.answered)[n] == later.answered[n].0;
    } else {
      assert Held(later.pc) == [later.pc.task];
    }
  }

  // ---- and what it does not mean ----

  lemma Advance(s: Pool, step: Step) returns (s': Pool)
    requires Reachable(s) && Next(s, step).Some?
    ensures Next(s, step) == Some(s') && Reachable(s')
  {
    OneStep(s, step);
    ReachableExec(s, [step]);
    s' := Next(s, step).value;
  }

  /** A pool whose only worker has received its only task and not yet counted it. */
  lemma OneTaskHeld(config: QC.Config, sha256: string -> seq<byte>) returns (s: Pool)
    ensures Reachable(s) && !s.handlesDropped && !s.shutdown && |s.workers| == 1
    ensures s.workers[0].pc.Holding? && s.workers[0].inFlight == 0
    ensures s.cache == QC.EMPTY && s.config == config && s.sha256 == sha256
  {
    s := OneTaskAccepted(config, sha256);
    ReachableInv(s);
    s := Advance(s, WorkerStep(0, Proceed, 0));
    s := Advance(s, WorkerStep(0, Proceed, 0));
    s := Advance(s, WorkerStep(0, Proceed, 0));
    InFlightIsExact(s, 0);
  }

  /** A clean return does not mean that nobody is executing: a worker can start after its counter was read. */
  lemma CleanReturnWhileExecuting(config: QC.Config, sha256: string -> seq<byte>) returns (s: Pool)
    ensures Reachable(s) && s.drain == Returned(false) && |s.workers| == 1 && IsExecuting(s.workers[0].pc)
  {
    s := OneTaskHeld(config, sha256);
    s := Advance(s, BeginShutdown);
    s := Advance(s, DrainStep(false));
    s := Advance(s, WorkerStep(0, Proceed, 0));
    s := Advance(s, DrainStep(false));
  }
}
