/**
 What a contract refresh does to the answers served after it, src/long_running_pool_manager.rs:
 over every run, and exactly when an answer whose computation began before the refresh can still be
 served. An engine run begins where the worker misses the cache and ends with the engine's answer.
 */
module RefreshRuns {
  import opened Prelude
  import opened WorkerPool
  import opened PoolProperties
  import opened ShutdownRuns
  import QC = QueryCache

  type Pair = (QC.Key, QC.Answer)

  /** What the engine answers in this step. */
  function MadeBy(s: Pool, step: Step): set<Pair> {
    if step.WorkerStep? && step.w < |s.workers| && step.choice.EngineAnswers? && s.workers[step.w].pc.Querying? then
      var t := s.workers[step.w].pc.task;
      {(KeyOf(s, t), QC.Answer(step.choice.batches, Jws(t)))}
    else {}
  }

  /** The worker whose engine run begins in this step: it misses the cache. */
  function BegunBy(s: Pool, step: Step): set<nat> {
    if step.WorkerStep? && step.w < |s.workers| && s.workers[step.w].pc.Executing?
       && QC.GetStep(s.config, s.cache, KeyOf(s, s.workers[step.w].pc.task), step.now).1.None?
    then {step.w} else {}
  }

  /** The workers that begin an engine run in the steps. */
  function BegunIn(s: Pool, steps: seq<Step>): set<nat>
    requires Exec(s, steps).Some?
  {
    if steps == [] then {}
    else
      var rest := steps[..|steps| - 1];
      BegunIn(s, rest) + BegunBy(Exec(s, rest).value, steps[|steps| - 1])
  }

  /** What the engine answers in this step, if the run that answers is one of these. */
  function MadeNew(s: Pool, step: Step, begun: set<nat>): set<Pair> {
    if step.WorkerStep? && step.w in begun then MadeBy(s, step) else {}
  }

  /** What is computed by engine runs that begin and end in the steps. */
  function MadeIn(s: Pool, steps: seq<Step>): set<Pair>
    requires Exec(s, steps).Some?
  {
    if steps == [] then {}
    else
      var rest := steps[..|steps| - 1];
      MadeIn(s, rest) + MadeNew(Exec(s, rest).value, steps[|steps| - 1], BegunIn(s, rest))
  }

  predicate HasAnswer(pc: Pc) {
    (pc.Executed? || pc.Storing? || pc.Replying?) && pc.outcome.Success?
  }

  /** The worker has an answer of the tenant in hand, or its engine is running for the tenant. */
  predicate BusyFor(pc: Pc, tenant: string) {
    (HasAnswer(pc) || pc.Querying?) && pc.task.tenant == tenant
  }

  // ---- what stays true after the refresh ----

  ghost predicate FromMade(s: Pool, tenant: string, made: set<Pair>, t: QueryTask, o: Outcome) {
    t.tenant == tenant && o.Success? ==> (KeyOf(s, t), o.answer) in made
  }

  /** Everything of the tenant in the cache was computed since. */
  ghost predicate FreshSlots(slots: seq<QC.Slot>, tenant: string, made: set<Pair>) {
    forall x :: x in slots && x.key.tenant == tenant ==> (x.key, x.entry.answer) in made
  }

  /** So is the answer that the worker has in hand, and every answer it gave from number `n` on. */
  ghost predicate FreshWorkerFrom(s: Pool, tenant: string, made: set<Pair>, wk: Worker, n: nat) {
    && (wk.pc.Executed? || wk.pc.Storing? || wk.pc.Replying? ==> FromMade(s, tenant, made, wk.pc.task, wk.pc.outcome))
    && (forall i :: n <= i < |wk.answered| ==> FromMade(s, tenant, made, wk.answered[i].0, wk.answered[i].1))
  }

  /** Every engine that runs for the tenant began since. */
  ghost predicate RunsAreNew(s: Pool, tenant: string, begun: set<nat>) {
    forall w :: 0 <= w < |s.workers| && s.workers[w].pc.Querying? && s.workers[w].pc.task.tenant == tenant ==> w in begun
  }

  ghost predicate Fresh(s: Pool, tenant: string, made: set<Pair>, begun: set<nat>, base: seq<nat>) {
    && FreshSlots(s.cache.slots, tenant, made) && |base| == |s.workers| && RunsAreNew(s, tenant, begun)
    && forall w :: 0 <= w < |s.workers| ==> FreshWorkerFrom(s, tenant, made, s.workers[w], base[w])
  }

  lemma GivenFresh(s: Pool, tenant: string, made: set<Pair>, wk: Worker, n: nat, t: QueryTask, o: Outcome, pc: Pc)
    requires FreshWorkerFrom(s, tenant, made, wk, n) && FromMade(s, tenant, made, t, o) && (pc.Top? || pc.Draining?)
    ensures FreshWorkerFrom(s, tenant, made, wk.(pc := pc, answered := wk.answered + [(t, o)]), n)
  {
  }

  lemma LocalFresh(s: Pool, tenant: string, made: set<Pair>, wk: Worker, n: nat, choice: Choice)
    requires FreshWorkerFrom(s, tenant, made, wk, n) && LocalNext(wk, s.shutdown, s.handlesDropped, choice).Some?
    ensures FreshWorkerFrom(s, tenant, made, LocalNext(wk, s.shutdown, s.handlesDropped, choice).value, n)
  {
    match wk.pc
    case Replying(t, o) => GivenFresh(s, tenant, made, wk, n, t, o, Top);
    case Refusing(t) => GivenFresh(s, tenant, made, wk, n, t, RefusedByShutdown, Draining);
    case _ =>
  }

  lemma MoreFresh(s: Pool, s': Pool, tenant: string, made: set<Pair>, made': set<Pair>, wk: Worker, n: nat)
    requires FreshWorkerFrom(s, tenant, made, wk, n) && made <= made' && s.sha256 == s'.sha256
    ensures FreshWorkerFrom(s', tenant, made', wk, n)
  {
  }

  lemma GetFresh(s: Pool, tenant: string, made: set<Pair>, t: QueryTask, now: nat)
    requires FreshSlots(s.cache.slots, tenant, made)
    ensures var (cache, hit) := QC.GetStep(s.config, s.cache, KeyOf(s, t), now);
            && FreshSlots(cache.slots, tenant, made)
            && (hit.Some? ==> FromMade(s, tenant, made, t, Success(hit.value)))
  {
    GetKeepsSlots(s.config, s.cache, KeyOf(s, t), now);
  }

  lemma PutFresh(s: Pool, tenant: string, made: set<Pair>, t: QueryTask, answer: QC.Answer, now: nat)
    requires FreshSlots(s.cache.slots, tenant, made) && FromMade(s, tenant, made, t, Success(answer))
    ensures FreshSlots(QC.PutStep(s.config, s.cache, KeyOf(s, t), answer, now).slots, tenant, made)
  {
    PutKeepsSlots(s.config, s.cache, KeyOf(s, t), answer, now);
  }

  /** The three shared steps, each by itself. */
  lemma HitFresh(s: Pool, w: nat, choice: Choice, now: nat, tenant: string, made: set<Pair>)
    requires w < |s.workers| && s.workers[w].pc.Executing? && FreshSlots(s.cache.slots, tenant, made)
    ensures var next := WorkerNext(s, w, choice, now);
            && next.Some? && FreshSlots(next.value.cache.slots, tenant, made)
            && var pc := next.value.workers[w].pc;
               if pc.Executed? then FromMade(next.value, tenant, made, pc.task, pc.outcome)
               else pc.Querying? && w in BegunBy(s, WorkerStep(w, choice, now))
  {
    GetFresh(s, tenant, made, s.workers[w].pc.task, now);
  }

  lemma AnswerFresh(s: Pool, w: nat, choice: Choice, now: nat, tenant: string, made: set<Pair>, begun: set<nat>)
    requires w < |s.workers| && s.workers[w].pc.Querying? && WorkerNext(s, w, choice, now).Some?
    requires FreshSlots(s.cache.slots, tenant, made) && (s.workers[w].pc.task.tenant == tenant ==> w in begun)
    ensures var s', made' := WorkerNext(s, w, choice, now).value, made + MadeNew(s, WorkerStep(w, choice, now), begun);
            && FreshSlots(s'.cache.slots, tenant, made')
            && var pc := s'.workers[w].pc; pc.Executed? && FromMade(s', tenant, made', pc.task, pc.outcome)
  {
  }

  lemma StoringMoves(s: Pool, w: nat, choice: Choice, now: nat) returns (s': Pool)
    requires w < |s.workers| && s.workers[w].pc.Storing?
    ensures WorkerNext(s, w, choice, now) == Some(s') && |s'.workers| == |s.workers| && s'.sha256 == s.sha256
    ensures var t, o := s.workers[w].pc.task, s.workers[w].pc.outcome;
            && s'.workers[w].pc == Replying(t, o)
            && s'.cache == if o.Success? then QC.PutStep(s.config, s.cache, KeyOf(s, t), o.answer, now) else s.cache
  {
    s' := WorkerNext(s, w, choice, now).value;
  }

  lemma StoreFresh(s: Pool, w: nat, choice: Choice, now: nat, tenant: string, made: set<Pair>)
    requires w < |s.workers| && s.workers[w].pc.Storing? && FreshSlots(s.cache.slots, tenant, made)
    requires FromMade(s, tenant, made, s.workers[w].pc.task, s.workers[w].pc.outcome)
    ensures var next := WorkerNext(s, w, choice, now);
            && next.Some? && FreshSlots(next.value.cache.slots, tenant, made)
            && var pc := next.value.workers[w].pc; pc.Replying? && FromMade(next.value, tenant, made, pc.task, pc.outcome)
  {
    var t, o := s.workers[w].pc.task, s.workers[w].pc.outcome;
    var next := StoringMoves(s, w, choice, now);
    if o.Success? {
      PutFresh(s, tenant, made, t, o.answer, now);
    }
  }

  lemma SharedFresh(s: Pool, w: nat, choice: Choice, now: nat, tenant: string, made: set<Pair>, begun: set<nat>)
    requires w < |s.workers| && WorkerNext(s, w, choice, now).Some? && Shared(s.workers[w].pc)
    requires FreshSlots(s.cache.slots, tenant, made) && RunsAreNew(s, tenant, begun)
    requires s.workers[w].pc.Storing? ==> FromMade(s, tenant, made, s.workers[w].pc.task, s.workers[w].pc.outcome)
    ensures var s', made' := WorkerNext(s, w, choice, now).value, made + MadeNew(s, WorkerStep(w, choice, now), begun);
            && FreshSlots(s'.cache.slots, tenant, made') && |s'.workers| == |s.workers|
            && var pc := s'.workers[w].pc;
               && (pc.Executed? || pc.Replying? ==> FromMade(s', tenant, made', pc.task, pc.outcome))
               && (pc.Querying? ==> w in BegunBy(s, WorkerStep(w, choice, now)))
  {
    var pc := SharedStep(s, w, choice, now);
    if s.workers[w].pc.Executing? {
      HitFresh(s, w, choice, now, tenant, made);
    } else if s.workers[w].pc.Querying? {
      AnswerFresh(s, w, choice, now, tenant, made, begun);
    } else {
      StoreFresh(s, w, choice, now, tenant, made);
    }
  }

  lemma SharedWorkerFresh(
      s: Pool, w: nat, choice: Choice, now: nat, tenant: string, made: set<Pair>, begun: set<nat>, n: nat)
    requires w < |s.workers| && WorkerNext(s, w, choice, now).Some? && Shared(s.workers[w].pc)
    requires FreshSlots(s.cache.slots, tenant, made) && FreshWorkerFrom(s, tenant, made, s.workers[w], n)
    requires RunsAreNew(s, tenant, begun)
    ensures var s', step := WorkerNext(s, w, choice, now).value, WorkerStep(w, choice, now);
            var made' := made + MadeNew(s, step, begun);
            && |s'.workers| == |s.workers| && s'.sha256 == s.sha256
            && FreshSlots(s'.cache.slots, tenant, made') && FreshWorkerFrom(s', tenant, made', s'.workers[w], n)
            && (s'.workers[w].pc.Querying? ==> w in BegunBy(s, step))
  {
    var s', made' := WorkerNext(s, w, choice, now).value, made + MadeNew(s, WorkerStep(w, choice, now), begun);
    var pc := SharedStep(s, w, choice, now);
    SharedFresh(s, w, choice, now, tenant, made, begun);
    MoreFresh(s, s', tenant, made, made', s.workers[w], n);
  }

  lemma LocalWorkerFresh(
      s: Pool, w: nat, choice: Choice, now: nat, tenant: string, made: set<Pair>, begun: set<nat>, n: nat)
    requires w < |s.workers| && WorkerNext(s, w, choice, now).Some? && !Shared(s.workers[w].pc)
    requires FreshSlots(s.cache.slots, tenant, made) && FreshWorkerFrom(s, tenant, made, s.workers[w], n)
    requires RunsAreNew(s, tenant, begun)
    ensures var s', step := WorkerNext(s, w, choice, now).value, WorkerStep(w, choice, now);
            var made' := made + MadeNew(s, step, begun);
            && |s'.workers| == |s.workers| && s'.sha256 == s.sha256
            && FreshSlots(s'.cache.slots, tenant, made') && FreshWorkerFrom(s', tenant, made', s'.workers[w], n)
            && (s'.workers[w].pc.Querying? ==> w in BegunBy(s, step))
  {
    var s', made' := WorkerNext(s, w, choice, now).value, made + MadeNew(s, WorkerStep(w, choice, now), begun);
    LocalStep(s, w, choice, now);
    LocalFresh(s, tenant, made, s.workers[w], n, choice);
    MoreFresh(s, s', tenant, made, made', s'.workers[w], n);
  }

  /** One step of a worker: its own part. */
  lemma WorkerFresh(
      s: Pool, w: nat, choice: Choice, now: nat, tenant: string, made: set<Pair>, begun: set<nat>, n: nat)
    requires w < |s.workers| && WorkerNext(s, w, choice, now).Some?
    requires FreshSlots(s.cache.slots, tenant, made) && FreshWorkerFrom(s, tenant, made, s.workers[w], n)
    requires RunsAreNew(s, tenant, begun)
    ensures var s', step := WorkerNext(s, w, choice, now).value, WorkerStep(w, choice, now);
            var made' := made + MadeNew(s, step, begun);
            && |s'.workers| == |s.workers| && s'.sha256 == s.sha256
            && FreshSlots(s'.cache.slots, tenant, made') && FreshWorkerFrom(s', tenant, made', s'.workers[w], n)
            && (s'.workers[w].pc.Querying? ==> w in BegunBy(s, step))
  {
    if Shared(s.workers[w].pc) {
      SharedWorkerFresh(s, w, choice, now, tenant, made, begun, n);
    } else {
      LocalWorkerFresh(s, w, choice, now, tenant, made, begun, n);
    }
  }

  lemma WorkerStepFresh(
      s: Pool, w: nat, choice: Choice, now: nat, tenant: string, made: set<Pair>, begun: set<nat>, base: seq<nat>)
    requires w < |s.workers| && WorkerNext(s, w, choice, now).Some? && Fresh(s, tenant, made, begun, base)
    ensures var step := WorkerStep(w, choice, now);
            Fresh(WorkerNext(s, w, choice, now).value, tenant, made + MadeNew(s, step, begun), begun + BegunBy(s, step), base)
  {
    var s', made' := WorkerNext(s, w, choice, now).value, made + MadeNew(s, WorkerStep(w, choice, now), begun);
    WorkerFresh(s, w, choice, now, tenant, made, begun, base[w]);
    WorkerNextExtends(s, w, choice, now);
    forall v | 0 <= v < |s.workers| && v != w ensures FreshWorkerFrom(s', tenant, made', s'.workers[v], base[v]) {
      MoreFresh(s, s', tenant, made, made', s.workers[v], base[v]);
    }
  }

  /** A step that touches no answer, no program counter and no cached entry but to remove it. */
  lemma QuietFresh(s: Pool, s': Pool, tenant: string, made: set<Pair>, begun: set<nat>, base: seq<nat>)
    requires Fresh(s, tenant, made, begun, base) && |s'.workers| == |s.workers| && s'.sha256 == s.sha256
    requires forall v :: 0 <= v < |s.workers| ==>
               s'.workers[v].pc == s.workers[v].pc && s'.workers[v].answered == s.workers[v].answered
    requires forall x :: x in s'.cache.slots ==> x in s.cache.slots
    ensures Fresh(s', tenant, made, begun, base)
  {
    forall v | 0 <= v < |s.workers| ensures FreshWorkerFrom(s', tenant, made, s'.workers[v], base[v]) {
      assert FreshWorkerFrom(s, tenant, made, s.workers[v], base[v]);
    }
  }

  lemma CallKeepsAnswers(s: Pool, id: nat)
    requires Inv(s) && id in s.calls && CallNext(s, s.calls[id]).Some?
    ensures var s' := CallNext(s, s.calls[id]).value;
            && |s'.workers| == |s.workers|
            && forall v :: 0 <= v < |s.workers| ==>
                 s'.workers[v].pc == s.workers[v].pc && s'.workers[v].answered == s.workers[v].answered
  {
    if !Delivers(s, s.calls[id]) {
      CallMovesQuietly(s, id);
    }
  }

  lemma OtherStepFresh(s: Pool, step: Step, tenant: string, made: set<Pair>, begun: set<nat>, base: seq<nat>)
    requires Inv(s) && Next(s, step).Some? && Fresh(s, tenant, made, begun, base) && !step.WorkerStep?
    ensures Fresh(Next(s, step).value, tenant, made, begun, base)
  {
    var s' := Next(s, step).value;
    if step.CallStep? {
      CallKeepsCache(s, step.id);
      CallKeepsAnswers(s, step.id);
    } else if step.Refresh? {
      QC.PartitionFacts(s.cache.slots, step.tenant);
    }
    QuietFresh(s, s', tenant, made, begun, base);
  }

  lemma StepFresh(s: Pool, step: Step, tenant: string, made: set<Pair>, begun: set<nat>, base: seq<nat>)
    requires Inv(s) && Next(s, step).Some? && Fresh(s, tenant, made, begun, base)
    ensures Fresh(Next(s, step).value, tenant, made + MadeNew(s, step, begun), begun + BegunBy(s, step), base)
  {
    if step.WorkerStep? {
      WorkerStepFresh(s, step.w, step.choice, step.now, tenant, made, begun, base);
    } else {
      OtherStepFresh(s, step, tenant, made, begun, base);
      assert made + MadeNew(s, step, begun) == made && begun + BegunBy(s, step) == begun;
    }
  }

  lemma {:induction false} RunFresh(s: Pool, steps: seq<Step>, tenant: string, base: seq<nat>)
    requires Inv(s) && Exec(s, steps).Some? && Fresh(s, tenant, {}, {}, base)
    ensures Fresh(Exec(s, steps).value, tenant, MadeIn(s, steps), BegunIn(s, steps), base)
  {
    if steps != [] {
      var rest, step := steps[..|steps| - 1], steps[|steps| - 1];
      RunFresh(s, rest, tenant, base);
      ExecKeepsInv(s, rest);
      StepFresh(Exec(s, rest).value, step, tenant, MadeIn(s, rest), BegunIn(s, rest), base);
    }
  }

  // ---- main results ----

  /** How many answers each worker has given. */
  function AnswerCounts(s: Pool): seq<nat> {
    seq(|s.workers|, w requires 0 <= w < |s.workers| => |s.workers[w].answered|)
  }

  /** Every successful answer to the tenant that the run gives comes from an engine run that began in it. */
  ghost predicate ServesOnlyNew(s: Pool, steps: seq<Step>, tenant: string)
    requires Exec(s, steps).Some?
  {
    var s' := Exec(s, steps).value;
    forall w, i :: 0 <= w < |s.workers| && w < |s'.workers| && |s.workers[w].answered| <= i < |s'.workers[w].answered| ==>
      FromMade(s, tenant, MadeIn(s, steps), s'.workers[w].answered[i].0, s'.workers[w].answered[i].1)
  }

  function Refreshed(s: Pool, tenant: string): Pool {
    s.(cache := QC.InvalidateTenantStep(s.cache, tenant))
  }

  lemma RefreshedIsFresh(s: Pool, tenant: string)
    requires forall w :: 0 <= w < |s.workers| ==> !BusyFor(s.workers[w].pc, tenant)
    ensures Fresh(Refreshed(s, tenant), tenant, {}, {}, AnswerCounts(s))
  {
    QC.PartitionFacts(s.cache.slots, tenant);
  }

  /**
   If no worker is busy for the tenant at the refresh, every answer that the tenant gets in any run
   after it comes from an engine run that began after it.
   */
  lemma ServedAfterRefreshIsNew(s: Pool, tenant: string, steps: seq<Step>)
    requires Reachable(s) && Exec(Refreshed(s, tenant), steps).Some?
    requires forall w :: 0 <= w < |s.workers| ==> !BusyFor(s.workers[w].pc, tenant)
    ensures ServesOnlyNew(Refreshed(s, tenant), steps, tenant)
  {
    ReachableInv(s);
    RefreshKeepsInv(s, tenant);
    var start, base := Refreshed(s, tenant), AnswerCounts(s);
    RefreshedIsFresh(s, tenant);
    RunFresh(start, steps, tenant, base);
    SameDigest(start, steps);
    var end, made := Exec(start, steps).value, MadeIn(start, steps);
    forall w, i | 0 <= w < |start.workers| && w < |end.workers| && |start.workers[w].answered| <= i < |end.workers[w].answered|
      ensures FromMade(start, tenant, made, end.workers[w].answered[i].0, end.workers[w].answered[i].1)
    {
      assert FreshWorkerFrom(end, tenant, made, end.workers[w], base[w]);
    }
  }

  lemma {:induction false} SameDigest(s: Pool, steps: seq<Step>)
    requires Inv(s) && Exec(s, steps).Some?
    ensures Exec(s, steps).value.sha256 == s.sha256
  {
    if steps != [] {
      var rest := steps[..|steps| - 1];
      SameDigest(s, rest);
      ExecKeepsInv(s, rest);
      StepIsCacheOp(Exec(s, rest).value, steps[|steps| - 1]);
    }
  }

  // ---- a busy worker hands its answer out ----

  function Stage(pc: Pc): nat {
    match pc
    case Querying(_) => 3
    case Executed(_, _) => 2
    case Storing(_, _) => 1
    case _ => 0
  }

  predicate Busy(pc: Pc) {
    HasAnswer(pc) || pc.Querying?
  }

  function BusyStep(w: nat): Step {
    WorkerStep(w, EngineAnswers([]), 0)
  }

  lemma QueryingMoves(s: Pool, w: nat) returns (next: Pool)
    requires w < |s.workers| && s.workers[w].pc.Querying?
    ensures Next(s, BusyStep(w)) == Some(next) && |next.workers| == |s.workers|
    ensures var pc, wk := s.workers[w].pc, next.workers[w];
            HasAnswer(wk.pc) && wk.pc.Executed? && wk.pc.task == pc.task && wk.answered == s.workers[w].answered
  {
    next := WorkerNext(s, w, EngineAnswers([]), 0).value;
  }

  lemma AnswerMoves(s: Pool, w: nat) returns (next: Pool)
    requires w < |s.workers| && HasAnswer(s.workers[w].pc)
    ensures Next(s, BusyStep(w)) == Some(next) && |next.workers| == |s.workers|
    ensures var pc, wk, before := s.workers[w].pc, next.workers[w], s.workers[w].answered;
            if pc.Replying? then wk.answered == before + [(pc.task, pc.outcome)]
            else HasAnswer(wk.pc) && wk.pc.task == pc.task && Stage(wk.pc) < Stage(pc) && wk.answered == before
  {
    next := WorkerNext(s, w, EngineAnswers([]), 0).value;
  }

  /** One step of a busy worker. */
  lemma BusyMoves(s: Pool, w: nat) returns (next: Pool)
    requires w < |s.workers| && Busy(s.workers[w].pc)
    ensures Next(s, BusyStep(w)) == Some(next) && |next.workers| == |s.workers| && BegunBy(s, BusyStep(w)) == {}
    ensures var pc, wk, before := s.workers[w].pc, next.workers[w], s.workers[w].answered;
            if pc.Replying? then
              |wk.answered| == |before| + 1 && wk.answered[|before|].0 == pc.task && wk.answered[|before|].1.Success?
            else Busy(wk.pc) && wk.pc.task == pc.task && Stage(wk.pc) < Stage(pc) && wk.answered == before
  {
    if s.workers[w].pc.Querying? {
      next := QueryingMoves(s, w);
    } else {
      next := AnswerMoves(s, w);
    }
  }

  lemma BegunOnce(s: Pool, step: Step)
    requires Next(s, step).Some?
    ensures Exec(s, [step]).Some? && BegunIn(s, [step]) == BegunBy(s, step)
  {
    OneStep(s, step);
    assert [step][..0] == [];
  }

  lemma BegunSnoc(s: Pool, steps: seq<Step>, step: Step)
    requires Exec(s, steps).Some? && Next(Exec(s, steps).value, step).Some?
    ensures Exec(s, steps + [step]).Some?
    ensures BegunIn(s, steps + [step]) == BegunIn(s, steps) + BegunBy(Exec(s, steps).value, step)
  {
    ExecSnoc(s, steps, step);
    assert (steps + [step])[..|steps|] == steps;
  }

  lemma UnionAssociates(a: set<nat>, b: set<nat>, c: set<nat>)
    ensures (a + b) + c == a + (b + c) && a + {} == a
  {
  }

  lemma BegunAppendLast(s: Pool, step: Step, next: Pool, rest: seq<Step>, last: Step)
    requires Next(s, step) == Some(next) && Exec(next, rest).Some? && Next(Exec(next, rest).value, last).Some?
    requires Exec(s, [step] + rest) == Exec(next, rest) && BegunIn(s, [step] + rest) == BegunBy(s, step) + BegunIn(next, rest)
    ensures Exec(s, ([step] + rest) + [last]).Some? && Exec(next, rest + [last]).Some?
    ensures BegunIn(s, ([step] + rest) + [last]) == BegunBy(s, step) + BegunIn(next, rest + [last])
  {
    BegunSnoc(next, rest, last);
    BegunSnoc(s, [step] + rest, last);
    UnionAssociates(BegunBy(s, step), BegunIn(next, rest), BegunBy(Exec(next, rest).value, last));
  }

  lemma OneStepMore(s: Pool, step: Step, next: Pool, steps: seq<Step>)
    requires Next(s, step) == Some(next)
    ensures Exec(s, [step] + steps) == Exec(next, steps)
  {
    OneStep(s, step);
    ExecAppend(s, [step], steps);
  }

  lemma {:induction false} BegunAppend(s: Pool, step: Step, next: Pool, steps: seq<Step>)
    requires Next(s, step) == Some(next) && Exec(next, steps).Some?
    ensures Exec(s, [step] + steps) == Exec(next, steps)
    ensures BegunIn(s, [step] + steps) == BegunBy(s, step) + BegunIn(next, steps)
    decreases |steps|
  {
    OneStepMore(s, step, next, steps);
    if steps == [] {
      BegunOnce(s, step);
      assert [step] + steps == [step];
    } else {
      var rest, last := steps[..|steps| - 1], steps[|steps| - 1];
      assert steps == rest + [last];
      BegunAppend(s, step, next, rest);
      BegunAppendLast(s, step, next, rest, last);
      Reassociate([step], rest, [last]);
    }
  }

  /** Where no engine run begins, none that began makes anything. */
  lemma {:induction false} NoneBegunNoneMade(s: Pool, steps: seq<Step>)
    requires Exec(s, steps).Some? && BegunIn(s, steps) == {}
    ensures MadeIn(s, steps) == {}
  {
    if steps != [] {
      var rest := steps[..|steps| - 1];
      assert BegunIn(s, rest) <= BegunIn(s, steps);
      NoneBegunNoneMade(s, rest);
    }
  }

  /** A busy worker gives its answer without beginning another engine run. */
  lemma {:induction false} HandedOut(s: Pool, w: nat) returns (steps: seq<Step>)
    requires w < |s.workers| && Busy(s.workers[w].pc)
    ensures Exec(s, steps).Some? && BegunIn(s, steps) == {}
    ensures var s', n := Exec(s, steps).value, |s.workers[w].answered|;
            && |s'.workers| == |s.workers| && |s'.workers[w].answered| == n + 1
            && s'.workers[w].answered[n].0 == s.workers[w].pc.task && s'.workers[w].answered[n].1.Success?
    decreases Stage(s.workers[w].pc)
  {
    var step := BusyStep(w);
    var next := BusyMoves(s, w);
    if s.workers[w].pc.Replying? {
      OneStep(s, step);
      BegunOnce(s, step);
      steps := [step];
    } else {
      var rest := HandedOut(next, w);
      BegunAppend(s, step, next, rest);
      steps := [step] + rest;
    }
  }

  /**
   The exact condition: whatever happens after a contract refresh, the tenant gets only answers of
   engine runs that began after it, if and only if no worker was busy for the tenant: none had an
   answer of it in hand, and none ran its engine for it.
   */
  lemma RefreshIsCleanIff(s: Pool, tenant: string)
    requires Reachable(s) && !s.handlesDropped
    ensures Next(s, Refresh(tenant)) == Some(Refreshed(s, tenant))
    ensures (forall steps :: Exec(Refreshed(s, tenant), steps).Some? ==> ServesOnlyNew(Refreshed(s, tenant), steps, tenant))
            <==> (forall w :: 0 <= w < |s.workers| ==> !BusyFor(s.workers[w].pc, tenant))
  {
    var start := Refreshed(s, tenant);
    if forall w :: 0 <= w < |s.workers| ==> !BusyFor(s.workers[w].pc, tenant) {
      forall steps | Exec(start, steps).Some? ensures ServesOnlyNew(start, steps, tenant) {
        ServedAfterRefreshIsNew(s, tenant, steps);
      }
    } else {
      var w :| 0 <= w < |s.workers| && BusyFor(s.workers[w].pc, tenant);
      var steps := ServesOld(start, w, tenant);
    }
  }

  lemma ServesOld(start: Pool, w: nat, tenant: string) returns (steps: seq<Step>)
    requires w < |start.workers| && BusyFor(start.workers[w].pc, tenant)
    ensures Exec(start, steps).Some? && !ServesOnlyNew(start, steps, tenant)
  {
    steps := HandedOut(start, w);
    NoneBegunNoneMade(start, steps);
    var i, end := |start.workers[w].answered|, Exec(start, steps).value;
    assert !FromMade(start, tenant, MadeIn(start, steps), end.workers[w].answered[i].0, end.workers[w].answered[i].1);
  }

  // ---- and it can be cached again ----

  /** An answer about to be stored at the refresh is stored after it, and the next lookup finds it. */
  lemma OldAnswerIsCachedAgain(s: Pool, w: nat, now: nat)
    requires w < |s.workers| && s.workers[w].pc.Storing? && HasAnswer(s.workers[w].pc)
    ensures var t, o := s.workers[w].pc.task, s.workers[w].pc.outcome;
            var stored := Next(Refreshed(s, t.tenant), WorkerStep(w, Proceed, now));
            && stored.Some? && BegunBy(Refreshed(s, t.tenant), WorkerStep(w, Proceed, now)) == {}
            && QC.GetStep(s.config, stored.value.cache, KeyOf(s, t), now).1 == Some(o.answer)
  {
    var t, o := s.workers[w].pc.task, s.workers[w].pc.outcome;
    var start := Refreshed(s, t.tenant);
    var next := StoringMoves(start, w, Proceed, now);
    QC.PutIsFront(s.config, start.cache, KeyOf(s, t), o.answer, now);
    FrontIsHit(s.config, next.cache, KeyOf(s, t), o.answer, QC.EstimateBytes(o.answer.batches), now);
  }

  lemma EngineMoves(s: Pool, w: nat, batches: seq<QC.RecordBatch>, now: nat) returns (s': Pool)
    requires w < |s.workers| && s.workers[w].pc.Querying?
    ensures Next(s, WorkerStep(w, EngineAnswers(batches), now)) == Some(s')
    ensures |s'.workers| == |s.workers| && s'.sha256 == s.sha256 && s'.config == s.config
    ensures var t := s.workers[w].pc.task; s'.workers[w].pc == Executed(t, Success(QC.Answer(batches, Jws(t))))
  {
    s' := WorkerNext(s, w, EngineAnswers(batches), now).value;
  }

  lemma FrontIsHit(config: QC.Config, c: QC.State, key: QC.Key, answer: QC.Answer, size: nat, now: nat)
    requires c.slots != [] && c.slots[0] == QC.Slot(key, QC.Entry(answer, size, now))
    ensures QC.GetStep(config, c, key, now).1 == Some(answer)
  {
  }

  /**
   The answer of an engine that runs at the refresh is stored after it in the same way, whatever the
   engine answers: three steps of its worker later the next lookup finds it.
   */
  lemma RunningAnswerIsCached(s: Pool, w: nat, batches: seq<QC.RecordBatch>, now: nat) returns (end: Pool)
    requires w < |s.workers| && s.workers[w].pc.Querying?
    ensures var t := s.workers[w].pc.task;
            var steps := [WorkerStep(w, EngineAnswers(batches), now)] + [WorkerStep(w, Proceed, now)] + [WorkerStep(w, Proceed, now)];
            && Exec(Refreshed(s, t.tenant), steps) == Some(end)
            && QC.GetStep(s.config, end.cache, KeyOf(s, t), now).1 == Some(QC.Answer(batches, Jws(t)))
  {
    var t, start := s.workers[w].pc.task, Refreshed(s, s.workers[w].pc.task.tenant);
    var first, step := WorkerStep(w, EngineAnswers(batches), now), WorkerStep(w, Proceed, now);
    var one := EngineMoves(start, w, batches, now);
    var two;
    two, end := StoreMoves(one, w, now, now);
    OneStep(start, first);
    ExecSnoc(start, [first], step);
    ExecSnoc(start, [first] + [step], step);
    FrontIsHit(s.config, end.cache, KeyOf(s, t), QC.Answer(batches, Jws(t)), QC.EstimateBytes(batches), now);
  }

  /** Both states are reached: a pool whose only worker has missed the cache and runs its engine. */
  lemma OneTaskQuerying(config: QC.Config, sha256: string -> seq<byte>) returns (s: Pool)
    ensures Reachable(s) && !s.handlesDropped && |s.workers| == 1 && s.workers[0].pc.Querying?
  {
    s := OneTaskHeld(config, sha256);
    s := Advance(s, WorkerStep(0, Proceed, 0));
    s := Advance(s, WorkerStep(0, Proceed, 0));
  }

  /** And one whose worker is about to store the answer its engine just gave. */
  lemma StoringIsReachable(config: QC.Config, sha256: string -> seq<byte>, batches: seq<QC.RecordBatch>) returns (s: Pool)
    ensures Reachable(s) && !s.handlesDropped && |s.workers| == 1 && s.workers[0].pc.Storing? && HasAnswer(s.workers[0].pc)
  {
    s := OneTaskQuerying(config, sha256);
    s := Advance(s, WorkerStep(0, EngineAnswers(batches), 0));
    s := Advance(s, WorkerStep(0, Proceed, 0));
  }
}
