/** What a worker answers, in every run and undisturbed, src/long_running_pool_manager.rs. */
module WorkerRuns {
  import opened Prelude
  import QC = QueryCache
  import opened WorkerPool
  import opened PoolProperties

  // ---- after the flag ----

  ghost predicate RefusalsFrom(wk: Worker, n: nat) {
    forall i :: n <= i < |wk.answered| ==> wk.answered[i].1 == RefusedByShutdown
  }

  predicate PastQueries(pc: Pc) {
    pc.Top? || pc.Draining? || pc.Refusing? || pc.Exiting? || pc.Leaving? || pc.Stopped?
  }

  /** At most one more answer than `n` that is no refusal, and none once it is given. */
  ghost predicate Closing(wk: Worker, n: nat) {
    RefusalsFrom(wk, n + 1) && (|wk.answered| > n ==> PastQueries(wk.pc))
  }

  lemma AnswersKeepClosing(wk: Worker, choice: Choice, handlesDropped: bool, n: nat)
    requires |wk.answered| >= n && Closing(wk, n) && LocalNext(wk, true, handlesDropped, choice).Some?
    ensures Closing(LocalNext(wk, true, handlesDropped, choice).value, n)
  {
  }

  lemma WorkerKeepsClosing(s: Pool, w: nat, choice: Choice, now: nat, n: nat)
    requires s.shutdown && w < |s.workers| && WorkerNext(s, w, choice, now).Some?
    requires |s.workers[w].answered| >= n && Closing(s.workers[w], n)
    ensures Closing(WorkerNext(s, w, choice, now).value.workers[w], n)
  {
    if Shared(s.workers[w].pc) {
      var pc := SharedStep(s, w, choice, now);
    } else {
      LocalStep(s, w, choice, now);
      AnswersKeepClosing(s.workers[w], choice, s.handlesDropped, n);
    }
  }

  lemma CallKeepsAnswered(s: Pool, id: nat, w: nat)
    requires Inv(s) && id in s.calls && CallNext(s, s.calls[id]).Some? && w < |s.workers|
    ensures var s' := CallNext(s, s.calls[id]).value;
            && |s'.workers| == |s.workers|
            && s'.workers[w].pc == s.workers[w].pc && s'.workers[w].answered == s.workers[w].answered
  {
    if Delivers(s, s.calls[id]) {
      DeliveryKeepsAnswered(s, id, w);
    } else {
      CallMovesQuietly(s, id);
    }
  }

  lemma DeliveryKeepsAnswered(s: Pool, id: nat, w: nat)
    requires id in s.calls && s.calls[id].task.id == id && Delivers(s, s.calls[id]) && w < |s.workers|
    ensures CallNext(s, s.calls[id]).Some?
    ensures var s' := CallNext(s, s.calls[id]).value;
            && |s'.workers| == |s.workers|
            && s'.workers[w].pc == s.workers[w].pc && s'.workers[w].answered == s.workers[w].answered
  {
  }

  lemma StepKeepsClosing(s: Pool, step: Step, w: nat, n: nat)
    requires Inv(s) && s.shutdown && Next(s, step).Some? && w < |s.workers|
    requires |s.workers[w].answered| >= n && Closing(s.workers[w], n)
    ensures var s' := Next(s, step).value;
            s'.shutdown && |s'.workers| == |s.workers| && Closing(s'.workers[w], n)
  {
    match step
    case WorkerStep(v, choice, now) =>
      WorkerNextExtends(s, v, choice, now);
      if v == w { WorkerKeepsClosing(s, w, choice, now, n); }
    case CallStep(id) =>
      CallNextExtends(s, id, w);
      CallKeepsAnswered(s, id, w);
    case _ => WorkersRest(s, step);
  }

  /**
   Once the flag is up, each worker gives at most one more answer that is not a refusal, and it is
   the next one: whatever else it answers in any run, it answers with a refusal.
   */
  lemma {:induction false} LateAnswersAreRefusals(s: Pool, steps: seq<Step>, w: nat)
    requires Inv(s) && s.shutdown && Exec(s, steps).Some? && w < |s.workers|
    ensures Exec(s, steps).value.shutdown && |Exec(s, steps).value.workers| == |s.workers|
    ensures Closing(Exec(s, steps).value.workers[w], |s.workers[w].answered|)
    ensures forall i :: |s.workers[w].answered| < i < |Exec(s, steps).value.workers[w].answered| ==>
              Exec(s, steps).value.workers[w].answered[i].1 == RefusedByShutdown
  {
    if steps != [] {
      var rest := steps[..|steps| - 1];
      LateAnswersAreRefusals(s, rest, w);
      ExecKeepsInv(s, rest);
      ExecExtends(s, rest, w);
      StepKeepsClosing(Exec(s, rest).value, steps[|steps| - 1], w, |s.workers[w].answered|);
    }
  }

  // ---- before the flag ----

  /** The worker has refused nothing and holds no refusal. */
  ghost predicate NoRefusal(wk: Worker) {
    && (forall i :: 0 <= i < |wk.answered| ==> wk.answered[i].1 != RefusedByShutdown)
    && !wk.pc.Draining? && !wk.pc.Refusing?
    && (wk.pc.Executed? || wk.pc.Storing? || wk.pc.Replying? ==> wk.pc.outcome != RefusedByShutdown)
  }

  lemma LocalRefusesNothing(wk: Worker, handlesDropped: bool, choice: Choice)
    requires NoRefusal(wk) && LocalNext(wk, false, handlesDropped, choice).Some?
    ensures NoRefusal(LocalNext(wk, false, handlesDropped, choice).value)
  {
  }

  lemma WorkerRefusesNothing(s: Pool, w: nat, choice: Choice, now: nat)
    requires !s.shutdown && w < |s.workers| && WorkerNext(s, w, choice, now).Some? && NoRefusal(s.workers[w])
    ensures NoRefusal(WorkerNext(s, w, choice, now).value.workers[w])
  {
    if !Shared(s.workers[w].pc) {
      LocalStep(s, w, choice, now);
      LocalRefusesNothing(s.workers[w], s.handlesDropped, choice);
    }
  }

  lemma StepRefusesNothing(s: Pool, step: Step, w: nat)
    requires Inv(s) && !s.shutdown && Next(s, step).Some? && w < |s.workers| && NoRefusal(s.workers[w])
    ensures |Next(s, step).value.workers| == |s.workers| && NoRefusal(Next(s, step).value.workers[w])
  {
    match step
    case WorkerStep(v, choice, now) =>
      WorkerNextExtends(s, v, choice, now);
      if v == w { WorkerRefusesNothing(s, w, choice, now); }
    case CallStep(id) =>
      CallNextExtends(s, id, w);
      CallKeepsAnswered(s, id, w);
    case _ => WorkersRest(s, step);
  }

  lemma {:induction false} RunRefusesNothing(s: Pool, steps: seq<Step>, w: nat)
    requires Inv(s) && Exec(s, steps).Some? && !Exec(s, steps).value.shutdown && w < |s.workers| && NoRefusal(s.workers[w])
    ensures |Exec(s, steps).value.workers| == |s.workers| && NoRefusal(Exec(s, steps).value.workers[w])
  {
    if steps != [] {
      var rest := steps[..|steps| - 1];
      ExecKeepsInv(s, rest);
      ExecExtends(s, rest, w);
      NextExtends(Exec(s, rest).value, steps[|steps| - 1], w);
      RunRefusesNothing(s, rest, w);
      StepRefusesNothing(Exec(s, rest).value, steps[|steps| - 1], w);
    }
  }

  /** In every run, while the flag is down no worker answers with a refusal. */
  lemma NoEarlyRefusal(s: Pool, w: nat, i: nat)
    requires Reachable(s) && !s.shutdown && w < |s.workers| && i < |s.workers[w].answered|
    ensures s.workers[w].answered[i].1 != RefusedByShutdown
  {
    var n: nat, depth: nat, config, sha256, steps :| Exec(Init(n, depth, config, sha256), steps) == Some(s);
    var start := Init(n, depth, config, sha256);
    InitInv(n, depth, config, sha256);
    if w < n {
      RunRefusesNothing(start, steps, w);
    } else {
      RunKeepsCount(start, steps);
      assert false;
    }
  }

  lemma {:induction false} RunKeepsCount(s: Pool, steps: seq<Step>)
    requires Inv(s) && Exec(s, steps).Some?
    ensures |Exec(s, steps).value.workers| == |s.workers|
  {
    if steps != [] {
      var rest, step := steps[..|steps| - 1], steps[|steps| - 1];
      RunKeepsCount(s, rest);
      ExecKeepsInv(s, rest);
      StepKeepsCount(Exec(s, rest).value, step);
    }
  }

  lemma StepKeepsCount(s: Pool, step: Step)
    requires Inv(s) && Next(s, step).Some?
    ensures |Next(s, step).value.workers| == |s.workers|
  {
    match step
    case WorkerStep(v, choice, now) => WorkerNextExtends(s, v, choice, now);
    case CallStep(id) => if Delivers(s, s.calls[id]) { SendDelivers(s, id); } else { CallMovesQuietly(s, id); }
    case _ => WorkersRest(s, step);
  }

  // ---- a worker by itself ----

  /** The state with worker `w` moved to `wk`. */
  function With(s: Pool, w: nat, wk: Worker): Pool
    requires w < |s.workers|
  {
    s.(workers := s.workers[w := wk])
  }

  lemma WithTwice(s: Pool, w: nat, a: Worker, b: Worker)
    requires w < |s.workers|
    ensures With(With(s, w, a), w, b) == With(s, w, b)
  {
  }

  lemma LocalAlone(s: Pool, w: nat, choice: Choice, now: nat)
    requires w < |s.workers| && !Shared(s.workers[w].pc)
    requires LocalNext(s.workers[w], s.shutdown, s.handlesDropped, choice).Some?
    ensures Next(s, WorkerStep(w, choice, now)) ==
            Some(With(s, w, LocalNext(s.workers[w], s.shutdown, s.handlesDropped, choice).value))
  {
  }

  lemma ThenLocal(s: Pool, steps: seq<Step>, mid: Pool, w: nat, choice: Choice, now: nat, next: Pool)
    requires Exec(s, steps) == Some(mid) && w < |mid.workers| && !Shared(mid.workers[w].pc)
    requires LocalNext(mid.workers[w], mid.shutdown, mid.handlesDropped, choice).Some?
    requires next == With(mid, w, LocalNext(mid.workers[w], mid.shutdown, mid.handlesDropped, choice).value)
    ensures Exec(s, steps + [WorkerStep(w, choice, now)]) == Some(next)
  {
    ExecSnoc(s, steps, WorkerStep(w, choice, now));
    LocalAlone(mid, w, choice, now);
  }

  lemma FirstLocal(s: Pool, w: nat, choice: Choice, now: nat, next: Pool)
    requires w < |s.workers| && !Shared(s.workers[w].pc)
    requires LocalNext(s.workers[w], s.shutdown, s.handlesDropped, choice).Some?
    requires next == With(s, w, LocalNext(s.workers[w], s.shutdown, s.handlesDropped, choice).value)
    ensures Exec(s, [WorkerStep(w, choice, now)]) == Some(next)
  {
    OneStep(s, WorkerStep(w, choice, now));
    LocalAlone(s, w, choice, now);
  }

  function Refusals(queue: seq<QueryTask>): seq<(QueryTask, Outcome)> {
    seq(|queue|, i requires 0 <= i < |queue| => (queue[i], RefusedByShutdown))
  }

  lemma RefusalsCons(answered: seq<(QueryTask, Outcome)>, queue: seq<QueryTask>)
    requires queue != []
    ensures (answered + [(queue[0], RefusedByShutdown)]) + Refusals(queue[1..]) == answered + Refusals(queue)
  {
  }

  /** Where a draining worker ends. */
  function Drained(wk: Worker): Worker {
    wk.(pc := Stopped, alive := false, queue := [], dropped := [], answered := wk.answered + Refusals(wk.queue))
  }

  lemma OneRefusal(s: Pool, w: nat, now: nat) returns (s': Pool)
    requires s.shutdown && w < |s.workers| && s.workers[w].pc.Draining? && s.workers[w].queue != []
    ensures Exec(s, [WorkerStep(w, Proceed, now)] + [WorkerStep(w, Proceed, now)]) == Some(s')
    ensures var wk := s.workers[w];
            s' == With(s, w, wk.(queue := wk.queue[1..], answered := wk.answered + [(wk.queue[0], RefusedByShutdown)]))
  {
    var wk, step := s.workers[w], WorkerStep(w, Proceed, now);
    var refusing := wk.(pc := Refusing(wk.queue[0]), queue := wk.queue[1..]);
    LocalAlone(s, w, Proceed, now);
    OneStep(s, step);
    ExecSnoc(s, [step], step);
    LocalAlone(With(s, w, refusing), w, Proceed, now);
    s' := Next(With(s, w, refusing), step).value;
  }

  lemma LastSteps(s: Pool, w: nat, now: nat)
    requires s.shutdown && w < |s.workers| && s.workers[w].pc.Draining? && s.workers[w].queue == []
    ensures var step := WorkerStep(w, Proceed, now);
            Exec(s, [step] + [step] + [step]) == Some(With(s, w, Drained(s.workers[w])))
  {
    var wk, step := s.workers[w], WorkerStep(w, Proceed, now);
    var exiting, leaving := wk.(pc := Exiting), wk.(pc := Leaving, alive := false);
    FirstLocal(s, w, Proceed, now, With(s, w, exiting));
    WithTwice(s, w, exiting, leaving);
    ThenLocal(s, [step], With(s, w, exiting), w, Proceed, now, With(s, w, leaving));
    assert wk.answered + Refusals([]) == wk.answered;
    WithTwice(s, w, leaving, Drained(wk));
    ThenLocal(s, [step] + [step], With(s, w, leaving), w, Proceed, now, With(s, w, Drained(wk)));
  }

  lemma DrainedOnce(s: Pool, w: nat, wk: Worker, wk': Worker)
    requires w < |s.workers| && wk == s.workers[w] && wk.queue != []
    requires wk' == wk.(queue := wk.queue[1..], answered := wk.answered + [(wk.queue[0], RefusedByShutdown)])
    ensures With(With(s, w, wk'), w, Drained(wk')) == With(s, w, Drained(wk))
  {
    RefusalsCons(wk.answered, wk.queue);
    WithTwice(s, w, wk', Drained(wk'));
  }

  lemma OneRound(s: Pool, w: nat, now: nat) returns (s': Pool)
    requires s.shutdown && w < |s.workers| && s.workers[w].pc.Draining? && s.workers[w].queue != []
    ensures Exec(s, [WorkerStep(w, Proceed, now)] + [WorkerStep(w, Proceed, now)]) == Some(s')
    ensures s'.shutdown && |s'.workers| == |s.workers| && s'.workers[w].pc.Draining?
    ensures |s'.workers[w].queue| == |s.workers[w].queue| - 1
    ensures With(s', w, Drained(s'.workers[w])) == With(s, w, Drained(s.workers[w]))
  {
    s' := OneRefusal(s, w, now);
    DrainedOnce(s, w, s.workers[w], s'.workers[w]);
  }

  ghost predicate AllAre(steps: seq<Step>, step: Step) {
    forall i :: 0 <= i < |steps| ==> steps[i] == step
  }

  /**
   A draining worker that is left to itself refuses its whole queue, in order, drops nothing and
   stops, in two steps per task and three more.
   */
  lemma {:induction false} DrainsByItself(s: Pool, w: nat, now: nat) returns (steps: seq<Step>)
    requires s.shutdown && w < |s.workers| && s.workers[w].pc.Draining?
    ensures AllAre(steps, WorkerStep(w, Proceed, now)) && |steps| == 2 * |s.workers[w].queue| + 3
    ensures Exec(s, steps) == Some(With(s, w, Drained(s.workers[w])))
    decreases |s.workers[w].queue|
  {
    var step := WorkerStep(w, Proceed, now);
    if s.workers[w].queue == [] {
      LastSteps(s, w, now);
      steps := [step] + [step] + [step];
    } else {
      var s' := OneRound(s, w, now);
      var rest := DrainsByItself(s', w, now);
      ExecAppend(s, [step] + [step], rest);
      steps := [step] + [step] + rest;
    }
  }

  // ---- one query by itself ----

  /** Receiving the next task and counting it in. */
  lemma Takes(s: Pool, w: nat, now: nat) returns (s': Pool)
    requires w < |s.workers| && s.workers[w].pc.Waiting? && s.workers[w].queue != [] && s.workers[w].inFlight == 0
    ensures var step := WorkerStep(w, Proceed, now); Exec(s, [step] + [step]) == Some(s')
    ensures var wk := s.workers[w];
            s' == With(s, w, wk.(pc := Executing(wk.queue[0]), queue := wk.queue[1..], inFlight := 1,
                                 lateStarts := wk.lateStarts + if s.shutdown then 1 else 0))
  {
    var wk, step := s.workers[w], WorkerStep(w, Proceed, now);
    var holding := wk.(pc := Holding(wk.queue[0]), queue := wk.queue[1..]);
    LocalAlone(s, w, Proceed, now);
    OneStep(s, step);
    ExecSnoc(s, [step], step);
    LocalAlone(With(s, w, holding), w, Proceed, now);
    s' := Next(With(s, w, holding), step).value;
  }

  /** Counting out, storing a successful answer, and replying. */
  lemma Finishes(s: Pool, w: nat, now: nat) returns (s': Pool)
    requires w < |s.workers| && s.workers[w].pc.Executed? && s.workers[w].inFlight == 1
    ensures var step := WorkerStep(w, Proceed, now); Exec(s, [step] + [step] + [step]) == Some(s')
    ensures var (wk, t, o) := (s.workers[w], s.workers[w].pc.task, s.workers[w].pc.outcome);
            s' == With(s, w, wk.(pc := Top, inFlight := 0, answered := wk.answered + [(t, o)])).(
              cache := if o.Success? then QC.PutStep(s.config, s.cache, KeyOf(s, t), o.answer, now) else s.cache)
  {
    var wk, step := s.workers[w], WorkerStep(w, Proceed, now);
    var (t, o) := (wk.pc.task, wk.pc.outcome);
    var storing := With(s, w, wk.(pc := Storing(t, o), inFlight := 0));
    LocalAlone(s, w, Proceed, now);
    OneStep(s, step);
    ExecSnoc(s, [step], step);
    var replying := Stores(storing, w, now);
    ExecSnoc(s, [step] + [step], step);
    LocalAlone(replying, w, Proceed, now);
    s' := Next(replying, step).value;
  }

  lemma Stores(s: Pool, w: nat, now: nat) returns (s': Pool)
    requires w < |s.workers| && s.workers[w].pc.Storing?
    ensures Next(s, WorkerStep(w, Proceed, now)) == Some(s')
    ensures var (wk, t, o) := (s.workers[w], s.workers[w].pc.task, s.workers[w].pc.outcome);
            s' == With(s, w, wk.(pc := Replying(t, o))).(
              cache := if o.Success? then QC.PutStep(s.config, s.cache, KeyOf(s, t), o.answer, now) else s.cache)
  {
    s' := WorkerNext(s, w, Proceed, now).value;
  }

  /** What the engine's choice means for the caller. */
  function Answered(t: QueryTask, choice: Choice): Outcome
    requires choice.EngineAnswers? || choice.EngineFails?
  {
    if choice.EngineAnswers? then Success(QC.Answer(choice.batches, "placeholder." + t.correlation + ".jws")) else EngineFailed
  }

  lemma AsksAndRuns(s: Pool, w: nat, choice: Choice, now: nat) returns (s': Pool)
    requires w < |s.workers| && s.workers[w].pc.Executing? && (choice.EngineAnswers? || choice.EngineFails?)
    requires QC.GetStep(s.config, s.cache, KeyOf(s, s.workers[w].pc.task), now).1 == None
    ensures Exec(s, [WorkerStep(w, Proceed, now)] + [WorkerStep(w, choice, now)]) == Some(s')
    ensures var (wk, t) := (s.workers[w], s.workers[w].pc.task);
            s' == With(s, w, wk.(pc := Executed(t, Answered(t, choice)))).(
              cache := QC.GetStep(s.config, s.cache, KeyOf(s, t), now).0, produced := s'.produced)
  {
    OneStep(s, WorkerStep(w, Proceed, now));
    ExecSnoc(s, [WorkerStep(w, Proceed, now)], WorkerStep(w, choice, now));
    s' := Next(Next(s, WorkerStep(w, Proceed, now)).value, WorkerStep(w, choice, now)).value;
  }

  lemma AsksAndHits(s: Pool, w: nat, now: nat) returns (s': Pool)
    requires w < |s.workers| && s.workers[w].pc.Executing?
    requires QC.GetStep(s.config, s.cache, KeyOf(s, s.workers[w].pc.task), now).1.Some?
    ensures Exec(s, [WorkerStep(w, Proceed, now)]) == Some(s')
    ensures var (wk, t) := (s.workers[w], s.workers[w].pc.task);
            var (cache, hit) := QC.GetStep(s.config, s.cache, KeyOf(s, t), now);
            s' == With(s, w, wk.(pc := Executed(t, Success(hit.value)))).(cache := cache)
  {
    OneStep(s, WorkerStep(w, Proceed, now));
    s' := Next(s, WorkerStep(w, Proceed, now)).value;
  }

  /** Asking the cache and, on a miss, running the engine. */
  lemma Executes(s: Pool, w: nat, choice: Choice, now: nat) returns (steps: seq<Step>, s': Pool)
    requires w < |s.workers| && s.workers[w].pc.Executing? && (choice.EngineAnswers? || choice.EngineFails?)
    ensures Exec(s, steps) == Some(s') && StepsOf(w, steps)
    ensures var (wk, t) := (s.workers[w], s.workers[w].pc.task);
            var (cache, hit) := QC.GetStep(s.config, s.cache, KeyOf(s, t), now);
            && s' == With(s, w, wk.(pc := Executed(t, if hit.Some? then Success(hit.value) else Answered(t, choice)))).(
                 cache := cache, produced := s'.produced)
            && (hit.Some? ==> s'.produced == s.produced)
  {
    var step := WorkerStep(w, Proceed, now);
    if QC.GetStep(s.config, s.cache, KeyOf(s, s.workers[w].pc.task), now).1.Some? {
      s' := AsksAndHits(s, w, now);
      steps := [step];
    } else {
      s' := AsksAndRuns(s, w, choice, now);
      steps := [step] + [WorkerStep(w, choice, now)];
    }
  }

  ghost predicate StepsOf(w: nat, steps: seq<Step>) {
    forall i :: 0 <= i < |steps| ==> steps[i].WorkerStep? && steps[i].w == w
  }

  lemma ThreeRuns(s: Pool, a: seq<Step>, one: Pool, b: seq<Step>, two: Pool, c: seq<Step>, end: Pool)
    requires Exec(s, a) == Some(one) && Exec(one, b) == Some(two) && Exec(two, c) == Some(end)
    ensures Exec(s, a + b + c) == Some(end)
  {
    ExecAppend(s, a, b);
    ExecAppend(s, a + b, c);
  }

  /**
   One whole query of a worker that is left to itself. A cached answer is the reply; otherwise the
   engine runs, and its answer under the caller's own correlation, or its failure, is the reply. A
   successful answer is in the cache afterwards, and a failure changes nothing there.
   */
  lemma OneQuery(s: Pool, w: nat, choice: Choice, now: nat) returns (steps: seq<Step>, end: Pool)
    requires w < |s.workers| && s.workers[w].pc.Waiting? && s.workers[w].queue != [] && s.workers[w].inFlight == 0
    requires choice.EngineAnswers? || choice.EngineFails?
    ensures Exec(s, steps) == Some(end) && |end.workers| == |s.workers|
    ensures StepsOf(w, steps)
    ensures var (wk, t) := (s.workers[w], s.workers[w].queue[0]);
            var key := QC.Key(t.tenant, s.sha256(t.sql));
            var (cache, hit) := QC.GetStep(s.config, s.cache, key, now);
            var o := if hit.Some? then Success(hit.value) else Answered(t, choice);
            && end.workers[w].pc == Top && end.workers[w].queue == wk.queue[1..]
            && end.workers[w].answered == wk.answered + [(t, o)]
            && (hit.Some? ==> end.produced == s.produced)
            && end.cache == if o.Success? then QC.PutStep(s.config, cache, key, o.answer, now) else cache
  {
    var step := WorkerStep(w, Proceed, now);
    var taken := Takes(s, w, now);
    var asks, executed := Executes(taken, w, choice, now);
    end := Finishes(executed, w, now);
    steps := ([step] + [step]) + asks + ([step] + [step] + [step]);
    ThreeRuns(s, [step] + [step], taken, asks, executed, [step] + [step] + [step], end);
  }

  // ---- an engine that fails to start, and the timeout ----

  /** A worker whose engine does not come up answers nothing and drops what it was sent. */
  lemma FailsToStart(s: Pool, w: nat, now: nat)
    requires w < |s.workers| && s.workers[w].pc.Starting?
    ensures var wk := s.workers[w];
            Exec(s, [WorkerStep(w, InitFails, now)] + [WorkerStep(w, Proceed, now)]) ==
            Some(With(s, w, wk.(pc := Stopped, alive := false, failedInit := true, dropped := wk.queue, queue := [])))
  {
    var wk := s.workers[w];
    var leaving := wk.(pc := Leaving, alive := false, failedInit := true);
    var stopped := leaving.(pc := Stopped, dropped := wk.queue, queue := []);
    FirstLocal(s, w, InitFails, now, With(s, w, leaving));
    WithTwice(s, w, leaving, stopped);
    ThenLocal(s, [WorkerStep(w, InitFails, now)], With(s, w, leaving), w, Proceed, now, With(s, w, stopped));
  }

  /**
   A shutdown gives up only behind a whole pass over the counters that found some query in flight,
   and only if the deadline has passed; it returns cleanly only if the pass found none.
   */
  lemma ShutdownReturnsWhen(s: Pool, expired: bool)
    requires s.drain.Summing?
    ensures Next(s, DrainStep(expired)).Some?
    ensures var next := Next(s, DrainStep(expired)).value;
            && next == s.(drain := next.drain)
            && (next.drain == Returned(true) <==> s.drain.k >= |s.workers| && s.drain.total > 0 && expired)
            && (next.drain == Returned(false) <==> s.drain.k >= |s.workers| && s.drain.total == 0)
            && (s.drain.k >= |s.workers| && s.drain.total > 0 && !expired ==> next.drain == Summing(0, 0))
  {
  }
}
