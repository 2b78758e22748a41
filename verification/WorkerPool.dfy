/**
 The worker pool of src/long_running_pool_manager.rs as an interleaved step machine.

 One step is one access to shared memory: an atomic load or store, a channel operation, one
 critical section of the affinity lock or of the cache mutex. The section that reads the affinity
 map also reads the pinned worker's flag and free capacity, and is one step with them. Any number
 of `submit` calls, the workers and the latest `shutdown` call interleave freely.
 */
module WorkerPool {
  import opened Prelude
  import QC = QueryCache

  /** A submitted query. `id` stands for the identity of its reply channel. */
  datatype QueryTask = QueryTask(id: nat, tenant: string, sql: string, correlation: string)

  datatype Outcome = Success(answer: QC.Answer) | EngineFailed | RefusedByShutdown

  datatype Pc =
    | Starting                                   // before the engine is built
    | Top                                        // about to load the shutdown flag
    | Waiting                                    // in `recv` with a timeout
    | Holding(task: QueryTask)                   // received, not yet counted
    | Executing(task: QueryTask)                 // counted, about to ask the cache
    | Querying(task: QueryTask)                  // missed, the engine runs
    | Executed(task: QueryTask, outcome: Outcome)// still counted
    | Storing(task: QueryTask, outcome: Outcome) // no longer counted, about to store
    | Replying(task: QueryTask, outcome: Outcome)
    | Draining
    | Refusing(task: QueryTask)
    | Exiting                                    // left the loop, still flagged alive
    | Leaving                                    // flagged dead, receiver still open
    | Stopped                                    // receiver dropped

  /**
   `sent`, `answered`, `dropped`, `early` and `lateStarts` are history variables: the tasks
   accepted into this worker's channel, the replies sent, the tasks destroyed with the
   receiver, how many were accepted before the shutdown flag, and how many queries began after.
   */
  datatype Worker = Worker(
    pc: Pc, queue: seq<QueryTask>, inFlight: nat, alive: bool, failedInit: bool,
    sent: seq<QueryTask>, answered: seq<(QueryTask, Outcome)>, dropped: seq<QueryTask>,
    early: nat, lateStarts: nat)

  /** Where one `submit` call is. */
  datatype Call =
    | Checking(task: QueryTask)
    | Routing(task: QueryTask)
    | ScanAlive(task: QueryTask, k: nat, best: Option<(nat, nat)>)
    | ScanLoad(task: QueryTask, k: nat, best: Option<(nat, nat)>)
    | Pinning(task: QueryTask, target: nat)
    | Sending(task: QueryTask, target: nat)
    | Accepted(task: QueryTask, target: nat)
    | ErrShutdown(task: QueryTask)
    | ErrQueueFull(task: QueryTask)
    | Panicked(task: QueryTask)

  /** Where the latest `shutdown` call is: adding up the counters, or returned. */
  datatype Drain = Idle | Summing(k: nat, total: nat) | Returned(timedOut: bool)

  datatype Pool = Pool(
    workers: seq<Worker>, depth: nat, affinity: map<string, nat>, shutdown: bool,
    calls: map<nat, Call>, handlesDropped: bool, drain: Drain,
    config: QC.Config, sha256: string -> seq<byte>, cache: QC.State,
    produced: set<(QC.Key, QC.Answer)>)

  /** What the machine does not decide: failures, timeouts, what the engine returns, the clock. */
  datatype Choice =
    | Proceed
    | InitFails
    | TimesOut
    | EngineAnswers(batches: seq<QC.RecordBatch>)
    | EngineFails

  datatype Step =
    | Submit(task: QueryTask)
    | CallStep(id: nat)
    | WorkerStep(w: nat, choice: Choice, now: nat)
    | BeginShutdown
    | DrainStep(expired: bool)
    | Refresh(tenant: string)
    | DropHandles

  const U64: nat := 0x1_0000_0000_0000_0000

  function KeyOf(s: Pool, t: QueryTask): QC.Key {
    QC.KeyOf(s.sha256, t.tenant, t.sql)
  }

  function FreshWorker(): Worker {
    Worker(Starting, [], 0, true, false, [], [], [], 0, 0)
  }

  function Init(n: nat, depth: nat, config: QC.Config, sha256: string -> seq<byte>): Pool {
    Pool(seq(n, _ => FreshWorker()), depth, map[], false, map[], false, Idle, config, sha256, QC.EMPTY, {})
  }

  predicate Finished(c: Call) {
    c.Accepted? || c.ErrShutdown? || c.ErrQueueFull? || c.Panicked?
  }

  // ---- submit and select_worker ----

  /** `min_by_key` keeps the earlier of two equal elements. */
  function Better(best: Option<(nat, nat)>, k: nat, load: nat): Option<(nat, nat)> {
    if best.None? || load < best.value.1 then Some((k, load)) else best
  }

  /** `try_send`: fails on a full queue and on a dropped receiver alike. */
  function TrySend(s: Pool, wk: Worker, t: QueryTask): Option<Worker> {
    if wk.pc.Stopped? || |wk.queue| >= s.depth then None
    else
      var sent := wk.sent + [t];
      Some(wk.(queue := wk.queue + [t], sent := sent, early := if s.shutdown then wk.early else |sent|))
  }

  function CallNext(s: Pool, c: Call): Option<Pool>
    requires c.task.id in s.calls
  {
    var id, n := c.task.id, |s.workers|;
    match c
    case Checking(t) =>
      Some(s.(calls := s.calls[id := if s.shutdown then ErrShutdown(t) else Routing(t)]))
    case Routing(t) =>
      if t.tenant in s.affinity && s.affinity[t.tenant] >= n then
        Some(s.(calls := s.calls[id := Panicked(t)]))
      else if t.tenant in s.affinity
           && s.workers[s.affinity[t.tenant]].alive
           && HasRoom(s, s.workers[s.affinity[t.tenant]]) then
        Some(s.(calls := s.calls[id := Sending(t, s.affinity[t.tenant])]))
      else
        Some(s.(calls := s.calls[id := ScanAlive(t, 0, None)]))
    case ScanAlive(t, k, best) =>
      if k >= n then
        Some(s.(calls := s.calls[id := Pinning(t, if best.Some? then best.value.0 else 0)]))
      else if s.workers[k].alive then
        Some(s.(calls := s.calls[id := ScanLoad(t, k, best)]))
      else
        Some(s.(calls := s.calls[id := ScanAlive(t, k + 1, best)]))
    case ScanLoad(t, k, best) =>
      if k >= n then None
      else Some(s.(calls := s.calls[id := ScanAlive(t, k + 1, Better(best, k, s.workers[k].inFlight))]))
    case Pinning(t, target) =>
      Some(s.(affinity := s.affinity[t.tenant := target], calls := s.calls[id := Sending(t, target)]))
    case Sending(t, target) =>
      if target >= n then
        Some(s.(calls := s.calls[id := Panicked(t)]))
      else
        (match TrySend(s, s.workers[target], t)
         case None => Some(s.(calls := s.calls[id := ErrQueueFull(t)]))
         case Some(wk) => Some(s.(workers := s.workers[target := wk], calls := s.calls[id := Accepted(t, target)])))
    case _ => None
  }

  /** `tx.capacity() > 0`: free permits in the bounded channel. */
  predicate HasRoom(s: Pool, wk: Worker) {
    |wk.queue| < s.depth
  }

  // ---- worker_loop and execute_query_task ----

  function Jws(t: QueryTask): string {
    "placeholder." + t.correlation + ".jws"
  }

  /** The steps of a worker that touch nothing but the worker and the two shared flags. */
  function LocalNext(wk: Worker, shutdown: bool, handlesDropped: bool, choice: Choice): Option<Worker> {
    match wk.pc
    case Starting =>
      if choice.InitFails? then Some(wk.(pc := Leaving, alive := false, failedInit := true))
      else Some(wk.(pc := Top))
    case Top => Some(wk.(pc := if shutdown then Draining else Waiting))
    case Waiting =>
      if choice.TimesOut? then Some(wk.(pc := Top))
      else if wk.queue != [] then Some(wk.(pc := Holding(wk.queue[0]), queue := wk.queue[1..]))
      else if handlesDropped then Some(wk.(pc := Exiting))
      else None
    case Holding(t) =>
      Some(wk.(pc := Executing(t), inFlight := (wk.inFlight + 1) % U64,
               lateStarts := wk.lateStarts + (if shutdown then 1 else 0)))
    case Executed(t, o) => Some(wk.(pc := Storing(t, o), inFlight := (wk.inFlight + U64 - 1) % U64))
    case Replying(t, o) => Some(wk.(pc := Top, answered := wk.answered + [(t, o)]))
    case Draining =>
      if wk.queue != [] then Some(wk.(pc := Refusing(wk.queue[0]), queue := wk.queue[1..]))
      else Some(wk.(pc := Exiting))
    case Refusing(t) => Some(wk.(pc := Draining, answered := wk.answered + [(t, RefusedByShutdown)]))
    case Exiting => Some(wk.(pc := Leaving, alive := false))
    case Leaving => Some(wk.(pc := Stopped, dropped := wk.queue, queue := []))
    case _ => None
  }

  function WorkerNext(s: Pool, w: nat, choice: Choice, now: nat): Option<Pool>
    requires w < |s.workers|
  {
    var wk := s.workers[w];
    match wk.pc
    case Executing(t) =>
      var (cache, hit) := QC.GetStep(s.config, s.cache, KeyOf(s, t), now);
      Some(s.(cache := cache,
              workers := s.workers[w := wk.(pc := if hit.Some? then Executed(t, Success(hit.value)) else Querying(t))]))
    case Querying(t) =>
      if choice.EngineAnswers? then
        var answer := QC.Answer(choice.batches, Jws(t));
        Some(s.(produced := s.produced + {(KeyOf(s, t), answer)},
                workers := s.workers[w := wk.(pc := Executed(t, Success(answer)))]))
      else if choice.EngineFails? then
        Some(s.(workers := s.workers[w := wk.(pc := Executed(t, EngineFailed))]))
      else None
    case Storing(t, o) =>
      Some(s.(cache := if o.Success? then QC.PutStep(s.config, s.cache, KeyOf(s, t), o.answer, now) else s.cache,
              workers := s.workers[w := wk.(pc := Replying(t, o))]))
    case _ =>
      (match LocalNext(wk, s.shutdown, s.handlesDropped, choice)
       case None => None
       case Some(wk') => Some(s.(workers := s.workers[w := wk'])))
  }

  // ---- shutdown ----

  function DrainNext(s: Pool, expired: bool): Option<Pool> {
    if !s.drain.Summing? then None
    else if s.drain.k < |s.workers| then
      Some(s.(drain := Summing(s.drain.k + 1, s.drain.total + s.workers[s.drain.k].inFlight)))
    else if s.drain.total == 0 then Some(s.(drain := Returned(false)))
    else if expired then Some(s.(drain := Returned(true)))
    else Some(s.(drain := Summing(0, 0)))
  }

  // ---- the machine ----

  function Next(s: Pool, step: Step): Option<Pool> {
    match step
    case Submit(t) =>
      if s.handlesDropped || t.id in s.calls then None
      else Some(s.(calls := s.calls[t.id := Checking(t)]))
    case CallStep(id) =>
      if id in s.calls && s.calls[id].task.id == id then CallNext(s, s.calls[id]) else None
    case WorkerStep(w, choice, now) =>
      if w < |s.workers| then WorkerNext(s, w, choice, now) else None
    case BeginShutdown =>
      if s.handlesDropped then None else Some(s.(shutdown := true, drain := Summing(0, 0)))
    case DrainStep(expired) => DrainNext(s, expired)
    case Refresh(tenant) =>
      if s.handlesDropped then None else Some(s.(cache := QC.InvalidateTenantStep(s.cache, tenant)))
    case DropHandles =>
      if s.drain.Summing? || (exists id :: id in s.calls && !Finished(s.calls[id])) then None
      else Some(s.(handlesDropped := true))
  }

  /** The state after a whole run, if every step of it was possible. */
  function Exec(s: Pool, steps: seq<Step>): Option<Pool> {
    if steps == [] then Some(s)
    else
      match Exec(s, steps[..|steps| - 1])
      case None => None
      case Some(mid) => Next(mid, steps[|steps| - 1])
  }

  // ---- the invariant ----

  function Held(pc: Pc): seq<QueryTask> {
    match pc
    case Holding(t) => [t]
    case Executing(t) => [t]
    case Querying(t) => [t]
    case Executed(t, _) => [t]
    case Storing(t, _) => [t]
    case Replying(t, _) => [t]
    case Refusing(t) => [t]
    case _ => []
  }

  predicate IsExecuting(pc: Pc) {
    pc.Executing? || pc.Querying? || pc.Executed?
  }

  function Tasks(log: seq<(QueryTask, Outcome)>): (ts: seq<QueryTask>)
    ensures |ts| == |log|
  {
    seq(|log|, i requires 0 <= i < |log| => log[i].0)
  }

  /** Every task that entered a channel is, in order: answered, then held, then queued, then dropped. */
  ghost predicate Ledger(wk: Worker) {
    && wk.sent == Tasks(wk.answered) + Held(wk.pc) + wk.queue + wk.dropped
    && (wk.dropped != [] ==> wk.pc.Stopped?)
    && (wk.pc.Stopped? ==> wk.queue == [])
  }

  ghost predicate Flags(wk: Worker, shutdown: bool, handlesDropped: bool) {
    && wk.inFlight == (if IsExecuting(wk.pc) then 1 else 0)
    && (wk.alive <==> !(wk.pc.Leaving? || wk.pc.Stopped?))
    && (wk.failedInit ==> wk.pc.Leaving? || wk.pc.Stopped?)
    && (wk.failedInit || wk.pc.Starting? ==> wk.answered == [])
    && (wk.pc.Draining? || wk.pc.Refusing? ==> shutdown)
    && (!wk.failedInit && (wk.pc.Exiting? || wk.pc.Leaving? || wk.pc.Stopped?) ==> shutdown || handlesDropped)
  }

  ghost predicate Counters(wk: Worker, shutdown: bool) {
    && wk.early <= |wk.sent|
    && (!shutdown ==> wk.early == |wk.sent|)
    && (!wk.failedInit && (wk.pc.Exiting? || wk.pc.Leaving? || wk.pc.Stopped?) ==> wk.early <= |wk.answered|)
    && wk.lateStarts <= (if shutdown && !(wk.pc.Starting? || wk.pc.Waiting? || wk.pc.Holding?) then 1 else 0)
  }

  ghost predicate WorkerInv(wk: Worker, shutdown: bool, handlesDropped: bool, depth: nat) {
    && |wk.queue| <= depth
    && Ledger(wk) && Flags(wk, shutdown, handlesDropped) && Counters(wk, shutdown)
  }

  ghost predicate WorkersInv(s: Pool) {
    forall w :: 0 <= w < |s.workers| ==> WorkerInv(s.workers[w], s.shutdown, s.handlesDropped, s.depth)
  }

  ghost predicate CallsInv(s: Pool) {
    && (forall id :: id in s.calls ==> s.calls[id].task.id == id)
    && (s.handlesDropped ==> forall id :: id in s.calls ==> Finished(s.calls[id]))
  }

  /** Acceptance is recorded once, for the worker that got the task. */
  ghost predicate AcceptedOnce(s: Pool) {
    && (forall w, i :: 0 <= w < |s.workers| && 0 <= i < |s.workers[w].sent| ==>
          var t := s.workers[w].sent[i];
          t.id in s.calls && s.calls[t.id] == Accepted(t, w))
    && (forall w, i, j :: 0 <= w < |s.workers| && 0 <= i < j < |s.workers[w].sent| ==>
          s.workers[w].sent[i].id != s.workers[w].sent[j].id)
    && (forall id :: id in s.calls && s.calls[id].Accepted? ==>
          s.calls[id].target < |s.workers| && s.calls[id].task in s.workers[s.calls[id].target].sent)
  }

  ghost predicate TargetBelow(c: Call, n: nat) {
    match c
    case ScanAlive(_, _, best) => best.Some? ==> best.value.0 < n
    case ScanLoad(_, _, best) => best.Some? ==> best.value.0 < n
    case Pinning(_, target) => target < n
    case Sending(_, target) => target < n
    case _ => true
  }

  ghost predicate RoutesInv(s: Pool) {
    |s.workers| > 0 ==>
      && (forall t :: t in s.affinity ==> s.affinity[t] < |s.workers|)
      && (forall id :: id in s.calls ==> TargetBelow(s.calls[id], |s.workers|) && !s.calls[id].Panicked?)
  }

  /** Answers travel only between queries with the same tenant and SQL digest. */
  ghost predicate FromEngine(s: Pool, t: QueryTask, o: Outcome) {
    o.Success? ==> (KeyOf(s, t), o.answer) in s.produced
  }

  ghost predicate ProvenanceInv(s: Pool) {
    && (forall i :: 0 <= i < |s.cache.slots| ==> (s.cache.slots[i].key, s.cache.slots[i].entry.answer) in s.produced)
    && (forall w :: 0 <= w < |s.workers| ==> WorkerProvenance(s, s.workers[w]))
  }

  ghost predicate WorkerProvenance(s: Pool, wk: Worker) {
    && (wk.pc.Executed? || wk.pc.Storing? || wk.pc.Replying? ==> FromEngine(s, wk.pc.task, wk.pc.outcome))
    && (forall i :: 0 <= i < |wk.answered| ==> FromEngine(s, wk.answered[i].0, wk.answered[i].1))
  }

  ghost predicate Inv(s: Pool) {
    WorkersInv(s) && CallsInv(s) && AcceptedOnce(s) && RoutesInv(s) && ProvenanceInv(s)
  }

  // ---- one worker keeps its own invariant ----

  lemma TakeHead(wk: Worker, pc: Pc)
    requires Ledger(wk) && Held(wk.pc) == [] && wk.queue != [] && Held(pc) == [wk.queue[0]]
    ensures Ledger(wk.(pc := pc, queue := wk.queue[1..]))
  {
    assert wk.queue == [wk.queue[0]] + wk.queue[1..];
  }

  lemma AnswerHeld(wk: Worker, pc: Pc, t: QueryTask, o: Outcome)
    requires Ledger(wk) && Held(wk.pc) == [t] && Held(pc) == [] && !pc.Stopped?
    ensures Ledger(wk.(pc := pc, answered := wk.answered + [(t, o)]))
  {
    assert Tasks(wk.answered + [(t, o)]) == Tasks(wk.answered) + [t];
  }

  lemma SameLedger(wk: Worker, wk': Worker)
    requires Ledger(wk) && !wk.pc.Stopped? && !wk'.pc.Stopped? && Held(wk.pc) == Held(wk'.pc)
    requires wk'.sent == wk.sent && wk'.answered == wk.answered && wk'.queue == wk.queue && wk'.dropped == wk.dropped
    ensures Ledger(wk')
  {
  }

  lemma DropQueue(wk: Worker, wk': Worker)
    requires Ledger(wk) && wk.pc.Leaving? && wk' == wk.(pc := Stopped, dropped := wk.queue, queue := [])
    ensures Ledger(wk')
  {
    assert wk.queue + [] == wk.queue && [] + wk.queue == wk.queue;
  }

  /** The five ways a local step moves tasks: receive, answer, refuse, drop the rest, or not at all. */
  ghost predicate MovesTasks(wk: Worker, wk': Worker) {
    && wk'.sent == wk.sent && |wk'.queue| <= |wk.queue|
    && if wk'.pc.Holding? || wk'.pc.Refusing? then
         && Held(wk.pc) == [] && wk.queue != [] && Held(wk'.pc) == [wk.queue[0]]
         && wk' == wk.(pc := wk'.pc, queue := wk.queue[1..])
       else if wk.pc.Replying? then
         wk' == wk.(pc := Top, answered := wk.answered + [(wk.pc.task, wk.pc.outcome)])
       else if wk.pc.Refusing? then
         wk' == wk.(pc := Draining, answered := wk.answered + [(wk.pc.task, RefusedByShutdown)])
       else if wk.pc.Leaving? then
         wk' == wk.(pc := Stopped, dropped := wk.queue, queue := [])
       else
         && !wk.pc.Stopped? && !wk'.pc.Stopped? && Held(wk'.pc) == Held(wk.pc)
         && wk'.answered == wk.answered && wk'.queue == wk.queue && wk'.dropped == wk.dropped
  }

  predicate Receiving(pc: Pc) {
    pc.Starting? || pc.Top? || pc.Waiting? || pc.Holding? || pc.Executed?
  }

  lemma LocalMovesReceiving(wk: Worker, shutdown: bool, handlesDropped: bool, choice: Choice)
    requires LocalNext(wk, shutdown, handlesDropped, choice).Some? && Receiving(wk.pc)
    ensures MovesTasks(wk, LocalNext(wk, shutdown, handlesDropped, choice).value)
  {
  }

  lemma LocalMoves(wk: Worker, shutdown: bool, handlesDropped: bool, choice: Choice)
    requires LocalNext(wk, shutdown, handlesDropped, choice).Some?
    ensures MovesTasks(wk, LocalNext(wk, shutdown, handlesDropped, choice).value)
  {
    if Receiving(wk.pc) {
      LocalMovesReceiving(wk, shutdown, handlesDropped, choice);
    }
  }

  lemma MovesKeepLedger(wk: Worker, wk': Worker)
    requires Ledger(wk) && MovesTasks(wk, wk')
    ensures Ledger(wk')
  {
    if wk'.pc.Holding? || wk'.pc.Refusing? {
      TakeHead(wk, wk'.pc);
    } else if wk.pc.Replying? {
      AnswerHeld(wk, Top, wk.pc.task, wk.pc.outcome);
    } else if wk.pc.Refusing? {
      AnswerHeld(wk, Draining, wk.pc.task, RefusedByShutdown);
    } else if wk.pc.Leaving? {
      DropQueue(wk, wk');
    } else {
      SameLedger(wk, wk');
    }
  }

  /** Moving along: answered + held + queue + dropped stays the same sequence. */
  lemma LocalLedger(wk: Worker, shutdown: bool, handlesDropped: bool, choice: Choice)
    requires Ledger(wk) && LocalNext(wk, shutdown, handlesDropped, choice).Some?
    ensures var wk' := LocalNext(wk, shutdown, handlesDropped, choice).value;
            Ledger(wk') && wk'.sent == wk.sent && |wk'.queue| <= |wk.queue|
  {
    LocalMoves(wk, shutdown, handlesDropped, choice);
    MovesKeepLedger(wk, LocalNext(wk, shutdown, handlesDropped, choice).value);
  }

  lemma LocalCounters(wk: Worker, shutdown: bool, handlesDropped: bool, choice: Choice)
    requires Ledger(wk) && Flags(wk, shutdown, handlesDropped) && Counters(wk, shutdown)
    requires LocalNext(wk, shutdown, handlesDropped, choice).Some?
    ensures var wk' := LocalNext(wk, shutdown, handlesDropped, choice).value;
            Flags(wk', shutdown, handlesDropped) && Counters(wk', shutdown)
  {
    LocalLedger(wk, shutdown, handlesDropped, choice);
  }

  lemma LocalKeepsInv(wk: Worker, shutdown: bool, handlesDropped: bool, depth: nat, choice: Choice)
    requires WorkerInv(wk, shutdown, handlesDropped, depth)
    requires LocalNext(wk, shutdown, handlesDropped, choice).Some?
    ensures WorkerInv(LocalNext(wk, shutdown, handlesDropped, choice).value, shutdown, handlesDropped, depth)
  {
    LocalLedger(wk, shutdown, handlesDropped, choice);
    LocalCounters(wk, shutdown, handlesDropped, choice);
  }

  /** The steps with the cache and the engine only move the program counter. */
  lemma RelabelKeepsInv(wk: Worker, pc: Pc, shutdown: bool, handlesDropped: bool, depth: nat)
    requires WorkerInv(wk, shutdown, handlesDropped, depth)
    requires wk.pc.Executing? || wk.pc.Querying? || wk.pc.Storing?
    requires Held(pc) == Held(wk.pc) && IsExecuting(pc) == IsExecuting(wk.pc)
    requires pc.Querying? || pc.Executed? || pc.Replying?
    ensures WorkerInv(wk.(pc := pc), shutdown, handlesDropped, depth)
  {
  }

  lemma SendKeepsInv(s: Pool, wk: Worker, t: QueryTask)
    requires WorkerInv(wk, s.shutdown, s.handlesDropped, s.depth) && !s.handlesDropped
    requires TrySend(s, wk, t).Some?
    ensures WorkerInv(TrySend(s, wk, t).value, s.shutdown, s.handlesDropped, s.depth)
  {
    var wk' := TrySend(s, wk, t).value;
    assert wk.dropped == [];
    assert wk'.sent == Tasks(wk'.answered) + Held(wk'.pc) + wk'.queue + wk'.dropped;
  }

  // ---- every step of the machine keeps every part of the invariant ----

  /** The steps that use the cache or the engine. */
  predicate Shared(pc: Pc) {
    pc.Executing? || pc.Querying? || pc.Storing?
  }

  lemma LocalStep(s: Pool, w: nat, choice: Choice, now: nat)
    requires w < |s.workers| && WorkerNext(s, w, choice, now).Some? && !Shared(s.workers[w].pc)
    ensures LocalNext(s.workers[w], s.shutdown, s.handlesDropped, choice).Some?
    ensures WorkerNext(s, w, choice, now).value ==
            s.(workers := s.workers[w := LocalNext(s.workers[w], s.shutdown, s.handlesDropped, choice).value])
  {
  }

  lemma SharedStep(s: Pool, w: nat, choice: Choice, now: nat) returns (pc: Pc)
    requires w < |s.workers| && WorkerNext(s, w, choice, now).Some? && Shared(s.workers[w].pc)
    ensures pc.Querying? || pc.Executed? || pc.Replying?
    ensures Held(pc) == Held(s.workers[w].pc) && IsExecuting(pc) == IsExecuting(s.workers[w].pc)
    ensures var s' := WorkerNext(s, w, choice, now).value;
            s' == s.(workers := s.workers[w := s.workers[w].(pc := pc)], cache := s'.cache, produced := s'.produced)
  {
    pc := WorkerNext(s, w, choice, now).value.workers[w].pc;
  }

  lemma WorkerNextShape(s: Pool, w: nat, choice: Choice, now: nat)
    requires WorkersInv(s) && w < |s.workers| && WorkerNext(s, w, choice, now).Some?
    ensures var s' := WorkerNext(s, w, choice, now).value;
            && |s'.workers| == |s.workers|
            && (forall v :: 0 <= v < |s.workers| && v != w ==> s'.workers[v] == s.workers[v])
            && s'.workers[w].sent == s.workers[w].sent
            && WorkerInv(s'.workers[w], s.shutdown, s.handlesDropped, s.depth)
            && s' == s.(workers := s'.workers, cache := s'.cache, produced := s'.produced)
  {
    var wk := s.workers[w];
    assert WorkerInv(wk, s.shutdown, s.handlesDropped, s.depth);
    if Shared(wk.pc) {
      var pc := SharedStep(s, w, choice, now);
      RelabelKeepsInv(wk, pc, s.shutdown, s.handlesDropped, s.depth);
    } else {
      LocalStep(s, w, choice, now);
      LocalLedger(wk, s.shutdown, s.handlesDropped, choice);
      LocalKeepsInv(wk, s.shutdown, s.handlesDropped, s.depth, choice);
    }
  }

  lemma GetKeepsSlots(config: QC.Config, c: QC.State, key: QC.Key, now: nat)
    ensures var (c', hit) := QC.GetStep(config, c, key, now);
            && (forall x :: x in c'.slots ==> x in c.slots)
            && (hit.Some? ==> exists x :: x in c.slots && x.key == key && x.entry.answer == hit.value)
  {
    var i := QC.Find(c.slots, key);
    if i < |c.slots| {
      assert c.slots[i] in c.slots && c.slots[i].key == key;
      assert c.slots[i] == QC.Slot(key, c.slots[i].entry);
    }
  }

  lemma PutKeepsSlots(config: QC.Config, c: QC.State, key: QC.Key, answer: QC.Answer, now: nat)
    ensures forall x :: x in QC.PutStep(config, c, key, answer, now).slots ==>
              x in c.slots || (x.key == key && x.entry.answer == answer)
  {
    QC.EvictIsPrefix(c.slots, c.totalBytes, QC.EstimateBytes(answer.batches), config.maxBytes);
  }

  ghost predicate CacheProvenance(slots: seq<QC.Slot>, produced: set<(QC.Key, QC.Answer)>) {
    forall x :: x in slots ==> (x.key, x.entry.answer) in produced
  }

  lemma PutProvenance(s: Pool, t: QueryTask, answer: QC.Answer, now: nat)
    requires CacheProvenance(s.cache.slots, s.produced) && (KeyOf(s, t), answer) in s.produced
    ensures CacheProvenance(QC.PutStep(s.config, s.cache, KeyOf(s, t), answer, now).slots, s.produced)
  {
    PutKeepsSlots(s.config, s.cache, KeyOf(s, t), answer, now);
  }

  lemma GetProvenance(s: Pool, t: QueryTask, now: nat)
    requires CacheProvenance(s.cache.slots, s.produced)
    ensures var (cache, hit) := QC.GetStep(s.config, s.cache, KeyOf(s, t), now);
            CacheProvenance(cache.slots, s.produced) && (hit.Some? ==> (KeyOf(s, t), hit.value) in s.produced)
  {
    GetKeepsSlots(s.config, s.cache, KeyOf(s, t), now);
  }

  lemma HitProvenance(s: Pool, w: nat, choice: Choice, now: nat)
    requires w < |s.workers| && s.workers[w].pc.Executing? && CacheProvenance(s.cache.slots, s.produced)
    ensures var next := WorkerNext(s, w, choice, now);
            && next.Some? && CacheProvenance(next.value.cache.slots, s.produced) && next.value.produced == s.produced
            && var pc := next.value.workers[w].pc;
               pc.Querying? || (pc.Executed? && FromEngine(next.value, pc.task, pc.outcome))
  {
    GetProvenance(s, s.workers[w].pc.task, now);
  }

  lemma EngineProvenance(s: Pool, w: nat, choice: Choice, now: nat)
    requires w < |s.workers| && s.workers[w].pc.Querying? && WorkerNext(s, w, choice, now).Some?
    requires CacheProvenance(s.cache.slots, s.produced)
    ensures var s' := WorkerNext(s, w, choice, now).value;
            && CacheProvenance(s'.cache.slots, s'.produced) && s.produced <= s'.produced
            && s'.workers[w].pc.Executed? && FromEngine(s', s'.workers[w].pc.task, s'.workers[w].pc.outcome)
  {
  }

  lemma StoreProvenance(s: Pool, w: nat, choice: Choice, now: nat)
    requires w < |s.workers| && s.workers[w].pc.Storing? && CacheProvenance(s.cache.slots, s.produced)
    requires FromEngine(s, s.workers[w].pc.task, s.workers[w].pc.outcome)
    ensures var next := WorkerNext(s, w, choice, now);
            && next.Some? && CacheProvenance(next.value.cache.slots, s.produced) && next.value.produced == s.produced
            && var pc := next.value.workers[w].pc; pc.Replying? && FromEngine(next.value, pc.task, pc.outcome)
  {
    if s.workers[w].pc.outcome.Success? {
      PutProvenance(s, s.workers[w].pc.task, s.workers[w].pc.outcome.answer, now);
    }
  }

  /** The three shared steps, each by itself. */
  lemma SharedProvenance(s: Pool, w: nat, choice: Choice, now: nat)
    requires w < |s.workers| && WorkerNext(s, w, choice, now).Some? && Shared(s.workers[w].pc)
    requires WorkerProvenance(s, s.workers[w]) && CacheProvenance(s.cache.slots, s.produced)
    ensures var s' := WorkerNext(s, w, choice, now).value;
            && |s'.workers| == |s.workers| && CacheProvenance(s'.cache.slots, s'.produced) && s.produced <= s'.produced
            && (var pc := s'.workers[w].pc; pc.Executed? || pc.Replying? ==> FromEngine(s', pc.task, pc.outcome))
  {
    var pc := SharedStep(s, w, choice, now);
    if s.workers[w].pc.Executing? {
      HitProvenance(s, w, choice, now);
    } else if s.workers[w].pc.Querying? {
      EngineProvenance(s, w, choice, now);
    } else {
      StoreProvenance(s, w, choice, now);
    }
  }

  lemma WorkerNextCache(s: Pool, w: nat, choice: Choice, now: nat)
    requires ProvenanceInv(s) && w < |s.workers| && WorkerNext(s, w, choice, now).Some?
    ensures var s' := WorkerNext(s, w, choice, now).value;
            && CacheProvenance(s'.cache.slots, s'.produced) && s.produced <= s'.produced && s'.sha256 == s.sha256
            && WorkerProvenance(s', s'.workers[w])
  {
    var wk, s' := s.workers[w], WorkerNext(s, w, choice, now).value;
    assert WorkerProvenance(s, wk) && CacheProvenance(s.cache.slots, s.produced);
    if Shared(wk.pc) {
      var pc := SharedStep(s, w, choice, now);
      SharedProvenance(s, w, choice, now);
      MoreProvenance(s, s', wk);
    } else {
      LocalStep(s, w, choice, now);
      LocalProvenance(s, wk, choice);
      MoreProvenance(s, s', s'.workers[w]);
    }
  }

  lemma LocalProvenance(s: Pool, wk: Worker, choice: Choice)
    requires WorkerProvenance(s, wk) && LocalNext(wk, s.shutdown, s.handlesDropped, choice).Some?
    ensures WorkerProvenance(s, LocalNext(wk, s.shutdown, s.handlesDropped, choice).value)
  {
  }

  lemma MoreProvenance(s: Pool, s': Pool, wk: Worker)
    requires WorkerProvenance(s, wk) && s.produced <= s'.produced && s.sha256 == s'.sha256
    ensures WorkerProvenance(s', wk)
  {
  }

  lemma WorkerNextProvenance(s: Pool, w: nat, choice: Choice, now: nat)
    requires Inv(s) && w < |s.workers| && WorkerNext(s, w, choice, now).Some?
    ensures ProvenanceInv(WorkerNext(s, w, choice, now).value)
  {
    var s' := WorkerNext(s, w, choice, now).value;
    WorkerNextCache(s, w, choice, now);
    WorkerNextShape(s, w, choice, now);
    forall v | 0 <= v < |s'.workers| && v != w ensures WorkerProvenance(s', s'.workers[v]) {
      MoreProvenance(s, s', s.workers[v]);
    }
  }

  lemma WorkerStepKeepsInv(s: Pool, w: nat, choice: Choice, now: nat)
    requires Inv(s) && w < |s.workers| && WorkerNext(s, w, choice, now).Some?
    ensures Inv(WorkerNext(s, w, choice, now).value)
  {
    WorkerNextShape(s, w, choice, now);
    WorkerNextProvenance(s, w, choice, now);
    var s' := WorkerNext(s, w, choice, now).value;
    assert forall v :: 0 <= v < |s.workers| ==> s'.workers[v].sent == s.workers[v].sent;
  }

  /** Steps that leave the workers, the cache and the answers alone. */
  lemma SameWorkers(s: Pool, s': Pool)
    requires Inv(s)
    requires s' == s.(calls := s'.calls, affinity := s'.affinity)
    ensures WorkersInv(s') && ProvenanceInv(s')
  {
    forall v | 0 <= v < |s'.workers| ensures WorkerProvenance(s', s'.workers[v]) {
      assert WorkerProvenance(s, s.workers[v]);
    }
  }

  /** An unfinished call that moves on without being accepted leaves acceptance as it was. */
  lemma SameAccepted(s: Pool, s': Pool, id: nat, c: Call)
    requires Inv(s) && id in s.calls && !Finished(s.calls[id]) && !c.Accepted? && c.task == s.calls[id].task
    requires s'.workers == s.workers && s'.calls == s.calls[id := c] && s'.handlesDropped == s.handlesDropped
    ensures AcceptedOnce(s') && CallsInv(s')
  {
    forall w, i | 0 <= w < |s.workers| && 0 <= i < |s.workers[w].sent| ensures s.workers[w].sent[i].id != id {
      assert s.calls[s.workers[w].sent[i].id] == Accepted(s.workers[w].sent[i], w);
    }
  }

  ghost predicate QuietMove(s: Pool, id: nat, s': Pool) {
    && id in s.calls && id in s'.calls
    && s' == s.(calls := s.calls[id := s'.calls[id]], affinity := s'.affinity)
    && !Finished(s.calls[id]) && !s'.calls[id].Accepted? && s'.calls[id].task == s.calls[id].task
  }

  ghost predicate Delivers(s: Pool, c: Call) {
    c.Sending? && c.target < |s.workers| && TrySend(s, s.workers[c.target], c.task).Some?
  }

  /** Choosing a worker. */
  predicate Choosing(c: Call) {
    c.Checking? || c.Routing? || c.ScanAlive? || c.ScanLoad?
  }

  lemma ChoosingMovesQuietly(s: Pool, id: nat)
    requires id in s.calls && s.calls[id].task.id == id && Choosing(s.calls[id]) && CallNext(s, s.calls[id]).Some?
    ensures QuietMove(s, id, CallNext(s, s.calls[id]).value)
  {
    var s' := CallNext(s, s.calls[id]).value;
    assert s'.calls == s.calls[id := s'.calls[id]];
  }

  lemma CallMovesQuietly(s: Pool, id: nat)
    requires Inv(s) && id in s.calls && CallNext(s, s.calls[id]).Some? && !Delivers(s, s.calls[id])
    ensures QuietMove(s, id, CallNext(s, s.calls[id]).value)
  {
    if Choosing(s.calls[id]) {
      ChoosingMovesQuietly(s, id);
    } else {
      ChosenMovesQuietly(s, id);
    }
  }

  lemma ChosenMovesQuietly(s: Pool, id: nat)
    requires id in s.calls && s.calls[id].task.id == id && !Choosing(s.calls[id])
    requires CallNext(s, s.calls[id]).Some? && !Delivers(s, s.calls[id])
    ensures QuietMove(s, id, CallNext(s, s.calls[id]).value)
  {
    var s' := CallNext(s, s.calls[id]).value;
    assert s'.calls == s.calls[id := s'.calls[id]];
  }

  lemma CallKeepsTarget(s: Pool, id: nat)
    requires RoutesInv(s) && |s.workers| > 0 && id in s.calls && s.calls[id].task.id == id
    requires CallNext(s, s.calls[id]).Some?
    ensures var s' := CallNext(s, s.calls[id]).value;
            && id in s'.calls && TargetBelow(s'.calls[id], |s.workers|) && !s'.calls[id].Panicked?
            && forall t :: t in s'.affinity ==> s'.affinity[t] < |s.workers|
  {
    assert TargetBelow(s.calls[id], |s.workers|);
  }

  lemma CallKeepsRoutes(s: Pool, id: nat)
    requires Inv(s) && id in s.calls && CallNext(s, s.calls[id]).Some? && !Delivers(s, s.calls[id])
    ensures RoutesInv(CallNext(s, s.calls[id]).value)
  {
    CallMovesQuietly(s, id);
    if |s.workers| > 0 {
      CallKeepsTarget(s, id);
      OneCallMoves(s, CallNext(s, s.calls[id]).value, id);
    }
  }

  lemma OneCallMoves(s: Pool, s': Pool, id: nat)
    requires RoutesInv(s) && QuietMove(s, id, s') && |s.workers| > 0
    requires TargetBelow(s'.calls[id], |s.workers|) && !s'.calls[id].Panicked?
    requires forall t :: t in s'.affinity ==> s'.affinity[t] < |s.workers|
    ensures RoutesInv(s')
  {
  }

  /** A call that does not deliver changes only its own entry, and perhaps the affinity map. */
  lemma QuietCallKeepsInv(s: Pool, id: nat)
    requires Inv(s) && id in s.calls && CallNext(s, s.calls[id]).Some? && !Delivers(s, s.calls[id])
    ensures Inv(CallNext(s, s.calls[id]).value)
  {
    var s' := CallNext(s, s.calls[id]).value;
    CallMovesQuietly(s, id);
    CallKeepsRoutes(s, id);
    SameWorkers(s, s');
    SameAccepted(s, s', id, s'.calls[id]);
  }

  /** Delivering appends the task to one worker's channel and marks the call accepted. */
  ghost predicate Delivered(s: Pool, s': Pool, t: QueryTask, target: nat) {
    && target < |s.workers| && |s'.workers| == |s.workers|
    && (forall w :: 0 <= w < |s.workers| && w != target ==> s'.workers[w].sent == s.workers[w].sent)
    && s'.workers[target].sent == s.workers[target].sent + [t]
    && s'.calls == s.calls[t.id := Accepted(t, target)]
  }

  lemma SendDelivers(s: Pool, id: nat)
    requires id in s.calls && s.calls[id].task.id == id && Delivers(s, s.calls[id])
    ensures CallNext(s, s.calls[id]).Some?
    ensures Delivered(s, CallNext(s, s.calls[id]).value, s.calls[id].task, s.calls[id].target)
  {
  }

  lemma NeverSent(s: Pool, id: nat, w: nat, i: nat)
    requires AcceptedOnce(s) && id in s.calls && !s.calls[id].Accepted? && w < |s.workers| && i < |s.workers[w].sent|
    ensures s.workers[w].sent[i].id != id
  {
    assert s.calls[s.workers[w].sent[i].id] == Accepted(s.workers[w].sent[i], w);
  }

  lemma DeliveryKeepsAcceptedOnce(s: Pool, s': Pool, t: QueryTask, target: nat)
    requires AcceptedOnce(s) && t.id in s.calls && !s.calls[t.id].Accepted? && Delivered(s, s', t, target)
    ensures AcceptedOnce(s')
  {
    forall w, i | 0 <= w < |s.workers| && 0 <= i < |s.workers[w].sent| ensures s.workers[w].sent[i].id != t.id {
      NeverSent(s, t.id, w, i);
    }
    var n := |s.workers[target].sent|;
    assert s'.workers[target].sent[n] == t;
    forall id | id in s'.calls && s'.calls[id].Accepted?
      ensures s'.calls[id].target < |s'.workers| && s'.calls[id].task in s'.workers[s'.calls[id].target].sent
    {
      if id != t.id {
        assert s.calls[id].task in s.workers[s.calls[id].target].sent;
      }
    }
  }

  lemma SendKeepsAcceptedOnce(s: Pool, id: nat)
    requires AcceptedOnce(s) && id in s.calls && s.calls[id].task.id == id && Delivers(s, s.calls[id])
    ensures CallNext(s, s.calls[id]).Some? && AcceptedOnce(CallNext(s, s.calls[id]).value)
  {
    SendDelivers(s, id);
    DeliveryKeepsAcceptedOnce(s, CallNext(s, s.calls[id]).value, s.calls[id].task, s.calls[id].target);
  }

  lemma SendKeepsWorkers(s: Pool, id: nat)
    requires WorkersInv(s) && !s.handlesDropped && id in s.calls && s.calls[id].task.id == id && Delivers(s, s.calls[id])
    ensures CallNext(s, s.calls[id]).Some? && WorkersInv(CallNext(s, s.calls[id]).value)
  {
    SendKeepsInv(s, s.workers[s.calls[id].target], s.calls[id].task);
  }

  lemma SendKeepsProvenance(s: Pool, id: nat)
    requires ProvenanceInv(s) && id in s.calls && s.calls[id].task.id == id && Delivers(s, s.calls[id])
    ensures CallNext(s, s.calls[id]).Some? && ProvenanceInv(CallNext(s, s.calls[id]).value)
  {
    var s' := CallNext(s, s.calls[id]).value;
    forall v | 0 <= v < |s'.workers| ensures WorkerProvenance(s', s'.workers[v]) {
      assert WorkerProvenance(s, s.workers[v]);
    }
  }

  lemma SendKeepsRoutes(s: Pool, id: nat)
    requires RoutesInv(s) && CallsInv(s) && !s.handlesDropped && id in s.calls && Delivers(s, s.calls[id])
    ensures CallNext(s, s.calls[id]).Some?
    ensures RoutesInv(CallNext(s, s.calls[id]).value) && CallsInv(CallNext(s, s.calls[id]).value)
  {
  }

  lemma SendKeepsAll(s: Pool, id: nat)
    requires Inv(s) && id in s.calls && Delivers(s, s.calls[id])
    ensures CallNext(s, s.calls[id]).Some? && Inv(CallNext(s, s.calls[id]).value)
  {
    assert !s.handlesDropped;
    SendKeepsRoutes(s, id);
    SendKeepsAcceptedOnce(s, id);
    SendKeepsWorkers(s, id);
    SendKeepsProvenance(s, id);
  }

  lemma CallStepKeepsInv(s: Pool, id: nat)
    requires Inv(s) && id in s.calls && CallNext(s, s.calls[id]).Some?
    ensures Inv(CallNext(s, s.calls[id]).value)
  {
    if Delivers(s, s.calls[id]) {
      SendKeepsAll(s, id);
    } else {
      QuietCallKeepsInv(s, id);
    }
  }

  /** Steps that leave workers, calls and answers alone except for raising a shared flag. */
  lemma FlagStepKeepsInv(s: Pool, s': Pool)
    requires Inv(s)
    requires s' == s.(shutdown := s'.shutdown, handlesDropped := s'.handlesDropped, drain := s'.drain)
    requires s.shutdown ==> s'.shutdown
    requires s.handlesDropped ==> s'.handlesDropped
    requires s'.handlesDropped ==> forall id :: id in s.calls ==> Finished(s.calls[id])
    ensures Inv(s')
  {
    forall v | 0 <= v < |s'.workers|
      ensures WorkerProvenance(s', s'.workers[v]) && WorkerInv(s'.workers[v], s'.shutdown, s'.handlesDropped, s'.depth)
    {
      assert WorkerProvenance(s, s.workers[v]) && WorkerInv(s.workers[v], s.shutdown, s.handlesDropped, s.depth);
    }
  }

  lemma NewCallAccepted(s: Pool, s': Pool, id: nat, c: Call)
    requires AcceptedOnce(s) && id !in s.calls && !c.Accepted?
    requires s'.workers == s.workers && s'.calls == s.calls[id := c]
    ensures AcceptedOnce(s')
  {
    forall w, i | 0 <= w < |s.workers| && 0 <= i < |s.workers[w].sent|
      ensures s.workers[w].sent[i].id in s.calls
    {
    }
  }

  lemma SubmitKeepsInv(s: Pool, t: QueryTask)
    requires Inv(s) && !s.handlesDropped && t.id !in s.calls
    ensures Inv(s.(calls := s.calls[t.id := Checking(t)]))
  {
    var s' := s.(calls := s.calls[t.id := Checking(t)]);
    SameWorkers(s, s');
    NewCallAccepted(s, s', t.id, Checking(t));
    assert CallsInv(s') && RoutesInv(s');
  }

  lemma RefreshKeepsInv(s: Pool, tenant: string)
    requires Inv(s)
    ensures Inv(s.(cache := QC.InvalidateTenantStep(s.cache, tenant)))
  {
    var s' := s.(cache := QC.InvalidateTenantStep(s.cache, tenant));
    QC.PartitionFacts(s.cache.slots, tenant);
    assert CacheProvenance(s.cache.slots, s.produced);
    assert CacheProvenance(s'.cache.slots, s'.produced);
    forall v | 0 <= v < |s'.workers| ensures WorkerProvenance(s', s'.workers[v]) {
      assert WorkerProvenance(s, s.workers[v]);
    }
  }

  lemma RaisesFlag(s: Pool, step: Step)
    requires Next(s, step).Some? && (step.BeginShutdown? || step.DrainStep? || step.DropHandles?)
    ensures var s' := Next(s, step).value;
            && s' == s.(shutdown := s'.shutdown, handlesDropped := s'.handlesDropped, drain := s'.drain)
            && (s.shutdown ==> s'.shutdown)
            && (s.handlesDropped ==> s'.handlesDropped)
            && (s'.handlesDropped && !s.handlesDropped ==> forall id :: id in s.calls ==> Finished(s.calls[id]))
  {
  }

  lemma NextKeepsInv(s: Pool, step: Step)
    requires Inv(s) && Next(s, step).Some?
    ensures Inv(Next(s, step).value)
  {
    match step
    case Submit(t) => SubmitKeepsInv(s, t);
    case CallStep(id) => CallStepKeepsInv(s, id);
    case WorkerStep(w, choice, now) => WorkerStepKeepsInv(s, w, choice, now);
    case Refresh(tenant) => RefreshKeepsInv(s, tenant);
    case _ =>
      RaisesFlag(s, step);
      FlagStepKeepsInv(s, Next(s, step).value);
  }

  /** The start of every run: some pool size, some queue depth, some cache configuration. */
  ghost predicate Reachable(s: Pool) {
    exists n: nat, depth: nat, config, sha256, steps :: Exec(Init(n, depth, config, sha256), steps) == Some(s)
  }

  lemma FreshWorkerInv(depth: nat)
    ensures WorkerInv(FreshWorker(), false, false, depth)
  {
    assert Tasks([]) == [];
  }

  lemma InitInv(n: nat, depth: nat, config: QC.Config, sha256: string -> seq<byte>)
    ensures Inv(Init(n, depth, config, sha256))
  {
    var s := Init(n, depth, config, sha256);
    FreshWorkerInv(depth);
    forall w | 0 <= w < |s.workers|
      ensures s.workers[w] == FreshWorker() && WorkerProvenance(s, s.workers[w])
    {
    }
    assert WorkersInv(s) && CallsInv(s) && AcceptedOnce(s) && RoutesInv(s);
  }

  lemma {:induction false} ExecKeepsInv(s: Pool, steps: seq<Step>)
    requires Inv(s) && Exec(s, steps).Some?
    ensures Inv(Exec(s, steps).value)
  {
    if steps != [] {
      var rest := steps[..|steps| - 1];
      ExecKeepsInv(s, rest);
      NextKeepsInv(Exec(s, rest).value, steps[|steps| - 1]);
    }
  }

  lemma ReachableInv(s: Pool)
    requires Reachable(s)
    ensures Inv(s)
  {
    var n: nat, depth: nat, config, sha256, steps :| Exec(Init(n, depth, config, sha256), steps) == Some(s);
    InitInv(n, depth, config, sha256);
    ExecKeepsInv(Init(n, depth, config, sha256), steps);
  }
}
