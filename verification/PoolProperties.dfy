/** What holds of every run of the worker pool. */
module PoolProperties {
  import opened Prelude
  import QC = QueryCache
  import opened WorkerPool

  // ---- runs ----

  lemma ExecSnoc(s: Pool, steps: seq<Step>, step: Step)
    requires Exec(s, steps).Some?
    ensures Exec(s, steps + [step]) == Next(Exec(s, steps).value, step)
  {
    assert (steps + [step])[..|steps|] == steps;
  }

  lemma {:induction false} ExecAppend(s: Pool, a: seq<Step>, b: seq<Step>)
    requires Exec(s, a).Some?
    ensures Exec(s, a + b) == Exec(Exec(s, a).value, b)
    decreases |b|
  {
    if b == [] {
      assert a + b == a;
    } else {
      var rest := b[..|b| - 1];
      ExecAppend(s, a, rest);
      assert (a + b)[..|a + b| - 1] == a + rest;
    }
  }

  lemma ReachableExec(s: Pool, steps: seq<Step>)
    requires Reachable(s) && Exec(s, steps).Some?
    ensures Reachable(Exec(s, steps).value)
  {
    var n: nat, depth: nat, config, sha256, before :| Exec(Init(n, depth, config, sha256), before) == Some(s);
    ExecAppend(Init(n, depth, config, sha256), before, steps);
    assert Exec(Init(n, depth, config, sha256), before + steps) == Exec(s, steps);
  }

  // ---- one place ----

  /** Every place a task can be at one worker, with multiplicity. */
  ghost function Places(wk: Worker): multiset<QueryTask> {
    multiset(Tasks(wk.answered)) + multiset(Held(wk.pc)) + multiset(wk.queue) + multiset(wk.dropped)
  }

  lemma PlacesAreSent(wk: Worker)
    requires Ledger(wk)
    ensures Places(wk) == multiset(wk.sent)
  {
  }

  /** A stopped worker has answered a prefix of what it was sent and dropped the rest. */
  lemma StoppedHasAnswered(wk: Worker, i: nat)
    requires Ledger(wk) && wk.pc.Stopped? && i < |wk.sent| && multiset(wk.sent)[wk.sent[i]] == 1
    ensures i < |wk.answered| ==>
              && wk.answered[i].0 == wk.sent[i]
              && multiset(Tasks(wk.answered))[wk.sent[i]] == 1 && wk.sent[i] !in wk.dropped
    ensures wk.answered == [] ==> multiset(wk.dropped)[wk.sent[i]] == 1
  {
    var done := Tasks(wk.answered);
    assert wk.sent == done + wk.dropped;
    assert multiset(wk.sent) == multiset(done) + multiset(wk.dropped);
    if i < |wk.answered| {
      assert done[i] == wk.sent[i];
      assert wk.sent[i] in multiset(done);
    }
  }

  lemma {:induction false} OnceInDistinct(ts: seq<QueryTask>, t: QueryTask)
    requires forall i, j :: 0 <= i < j < |ts| ==> ts[i].id != ts[j].id
    requires t in ts
    ensures multiset(ts)[t] == 1
  {
    assert ts == ts[..|ts| - 1] + [ts[|ts| - 1]];
    if ts[|ts| - 1] != t {
      OnceInDistinct(ts[..|ts| - 1], t);
    } else {
      assert t !in ts[..|ts| - 1];
    }
  }

  /**
   In every interleaving an accepted task is in exactly one place: queued at, held by,
   answered by or dropped with the one worker it was sent to.
   */
  lemma ExactlyOnePlace(s: Pool, id: nat, v: nat)
    requires Reachable(s) && id in s.calls && s.calls[id].Accepted? && v < |s.workers|
    ensures Places(s.workers[v])[s.calls[id].task] == if v == s.calls[id].target then 1 else 0
  {
    ReachableInv(s);
    var t := s.calls[id].task;
    PlacesAreSent(s.workers[v]);
    if v == s.calls[id].target {
      OnceInDistinct(s.workers[v].sent, t);
    } else {
      var sent := s.workers[v].sent;
      forall i | 0 <= i < |sent| ensures sent[i] != t {
        assert s.calls[sent[i].id] == Accepted(sent[i], v);
      }
    }
  }

  // ---- what later steps cannot undo ----

  ghost predicate Extends(a: Worker, b: Worker) {
    a.sent <= b.sent && a.answered <= b.answered && a.early <= b.early && a.lateStarts <= b.lateStarts
  }

  lemma LocalExtends(wk: Worker, shutdown: bool, handlesDropped: bool, choice: Choice)
    requires LocalNext(wk, shutdown, handlesDropped, choice).Some?
    ensures Extends(wk, LocalNext(wk, shutdown, handlesDropped, choice).value)
    ensures LocalNext(wk, shutdown, handlesDropped, choice).value.lateStarts ==
            wk.lateStarts + (if wk.pc.Holding? && shutdown then 1 else 0)
  {
  }

  lemma WorkerNextExtends(s: Pool, w: nat, choice: Choice, now: nat)
    requires w < |s.workers| && WorkerNext(s, w, choice, now).Some?
    ensures var s' := WorkerNext(s, w, choice, now).value;
            && |s'.workers| == |s.workers| && s'.shutdown == s.shutdown
            && (forall v :: 0 <= v < |s.workers| && v != w ==> s'.workers[v] == s.workers[v])
            && Extends(s.workers[w], s'.workers[w])
            && s'.workers[w].lateStarts == s.workers[w].lateStarts + (if s.workers[w].pc.Holding? && s.shutdown then 1 else 0)
  {
    var pc := s.workers[w].pc;
    if !(pc.Executing? || pc.Querying? || pc.Storing?) {
      LocalExtends(s.workers[w], s.shutdown, s.handlesDropped, choice);
    }
  }

  lemma SendExtends(s: Pool, wk: Worker, t: QueryTask)
    requires Counters(wk, s.shutdown) && TrySend(s, wk, t).Some?
    ensures Extends(wk, TrySend(s, wk, t).value) && TrySend(s, wk, t).value.lateStarts == wk.lateStarts
  {
  }

  lemma DeliveryExtends(s: Pool, id: nat, w: nat)
    requires WorkersInv(s) && id in s.calls && s.calls[id].task.id == id && w < |s.workers|
    requires Delivers(s, s.calls[id]) && CallNext(s, s.calls[id]).Some?
    ensures var s' := CallNext(s, s.calls[id]).value;
            && |s'.workers| == |s.workers| && s'.shutdown == s.shutdown
            && Extends(s.workers[w], s'.workers[w]) && s'.workers[w].lateStarts == s.workers[w].lateStarts
  {
    var target := s.calls[id].target;
    assert WorkerInv(s.workers[target], s.shutdown, s.handlesDropped, s.depth);
    SendExtends(s, s.workers[target], s.calls[id].task);
  }

  /** Steps of calls and of the manager never shorten a worker's history. */
  lemma CallNextExtends(s: Pool, id: nat, w: nat)
    requires Inv(s) && id in s.calls && CallNext(s, s.calls[id]).Some? && w < |s.workers|
    ensures var s' := CallNext(s, s.calls[id]).value;
            && |s'.workers| == |s.workers| && s'.shutdown == s.shutdown
            && Extends(s.workers[w], s'.workers[w]) && s'.workers[w].lateStarts == s.workers[w].lateStarts
  {
    if Delivers(s, s.calls[id]) {
      DeliveryExtends(s, id, w);
    } else {
      CallMovesQuietly(s, id);
    }
  }

  /** All other steps leave the workers as they are. */
  lemma WorkersRest(s: Pool, step: Step)
    requires Next(s, step).Some? && !step.WorkerStep? && !step.CallStep?
    ensures Next(s, step).value.workers == s.workers && (s.shutdown ==> Next(s, step).value.shutdown)
  {
  }

  lemma NextExtends(s: Pool, step: Step, w: nat)
    requires Inv(s) && Next(s, step).Some? && w < |s.workers|
    ensures |Next(s, step).value.workers| == |s.workers|
    ensures Extends(s.workers[w], Next(s, step).value.workers[w])
    ensures s.shutdown ==> Next(s, step).value.shutdown
    ensures s.shutdown ==>
      Next(s, step).value.workers[w].lateStarts == s.workers[w].lateStarts + (if StartsQuery(s, step, w) then 1 else 0)
  {
    match step
    case WorkerStep(v, choice, now) => WorkerNextExtends(s, v, choice, now);
    case CallStep(id) => CallNextExtends(s, id, w);
    case _ => WorkersRest(s, step);
  }

  lemma {:induction false} ExecExtends(s: Pool, steps: seq<Step>, w: nat)
    requires Inv(s) && Exec(s, steps).Some? && w < |s.workers|
    ensures |Exec(s, steps).value.workers| == |s.workers|
    ensures Extends(s.workers[w], Exec(s, steps).value.workers[w])
    ensures s.shutdown ==> Exec(s, steps).value.shutdown
  {
    if steps != [] {
      var rest := steps[..|steps| - 1];
      ExecExtends(s, rest, w);
      ExecKeepsInv(s, rest);
      NextExtends(Exec(s, rest).value, steps[|steps| - 1], w);
    }
  }

  /**
   A task in a worker's channel before the shutdown flag goes up is answered, exactly once and
   in the order of arrival, by the time that worker has stopped, if and only if the worker's
   engine came up; otherwise it is dropped with the channel.
   */
  lemma AcceptedBeforeShutdownIsAnswered(s: Pool, steps: seq<Step>, w: nat, i: nat)
    requires Reachable(s) && !s.shutdown && Exec(s, steps).Some?
    requires w < |s.workers| && i < |s.workers[w].sent|
    ensures |Exec(s, steps).value.workers| == |s.workers|
    ensures var wk := Exec(s, steps).value.workers[w];
            var t := s.workers[w].sent[i];
            wk.pc.Stopped? ==>
              if wk.failedInit then wk.answered == [] && multiset(wk.dropped)[t] == 1
              else && i < |wk.answered| && wk.answered[i].0 == t
                   && multiset(Tasks(wk.answered))[t] == 1 && t !in wk.dropped
  {
    ReachableInv(s);
    ExecExtends(s, steps, w);
    ExecKeepsInv(s, steps);
    var s' := Exec(s, steps).value;
    var wk, t := s'.workers[w], s.workers[w].sent[i];
    assert WorkerInv(s.workers[w], s.shutdown, s.handlesDropped, s.depth);
    assert WorkerInv(wk, s'.shutdown, s'.handlesDropped, s'.depth);
    OnceInDistinct(wk.sent, t);
    if wk.pc.Stopped? {
      StoppedHasAnswered(wk, i);
    }
  }

  /** In every run each worker answers in the order in which its tasks were accepted. */
  lemma AnswersAreFirstInFirstOut(s: Pool, w: nat)
    requires Reachable(s) && w < |s.workers|
    ensures Tasks(s.workers[w].answered) <= s.workers[w].sent
    ensures |s.workers[w].queue| <= s.depth
  {
    ReachableInv(s);
  }

  // ---- after the shutdown flag ----

  predicate StartsQuery(s: Pool, step: Step, w: nat) {
    step.WorkerStep? && step.w == w && w < |s.workers| && s.workers[w].pc.Holding?
  }

  /** How many queries worker `w` starts in a run. */
  function Starts(s: Pool, steps: seq<Step>, w: nat): nat {
    if steps == [] then 0
    else
      var rest := steps[..|steps| - 1];
      Starts(s, rest, w) +
      (match Exec(s, rest)
       case None => 0
       case Some(mid) => if StartsQuery(mid, steps[|steps| - 1], w) then 1 else 0)
  }

  lemma {:induction false} ExecCountsStarts(s: Pool, steps: seq<Step>, w: nat)
    requires Inv(s) && s.shutdown && Exec(s, steps).Some? && w < |s.workers|
    ensures |Exec(s, steps).value.workers| == |s.workers|
    ensures Exec(s, steps).value.workers[w].lateStarts == s.workers[w].lateStarts + Starts(s, steps, w)
  {
    if steps != [] {
      var rest := steps[..|steps| - 1];
      ExecCountsStarts(s, rest, w);
      ExecKeepsInv(s, rest);
      ExecExtends(s, rest, w);
      NextExtends(Exec(s, rest).value, steps[|steps| - 1], w);
    }
  }

  /** However the run goes on once the flag is up, each worker starts at most one more query. */
  lemma AtMostOneLateStart(s: Pool, steps: seq<Step>, w: nat)
    requires Reachable(s) && s.shutdown && Exec(s, steps).Some? && w < |s.workers|
    ensures Starts(s, steps, w) <= 1
  {
    ReachableInv(s);
    ExecCountsStarts(s, steps, w);
    ExecKeepsInv(s, steps);
    ExecExtends(s, steps, w);
    assert WorkerInv(Exec(s, steps).value.workers[w], true, Exec(s, steps).value.handlesDropped, Exec(s, steps).value.depth);
  }

  /** In every run the counter is 1 exactly while the worker is executing, and 0 otherwise. */
  lemma InFlightIsExact(s: Pool, w: nat)
    requires Reachable(s) && w < |s.workers|
    ensures s.workers[w].inFlight == if IsExecuting(s.workers[w].pc) then 1 else 0
  {
    ReachableInv(s);
  }

  // ---- what a returned shutdown means ----

  function Repeat(step: Step, n: nat): seq<Step> {
    seq(n, _ => step)
  }

  function InFlightSum(workers: seq<Worker>, k: nat): nat
    requires k <= |workers|
  {
    if k == 0 then 0 else InFlightSum(workers, k - 1) + workers[k - 1].inFlight
  }

  lemma {:induction false} SumOnePass(s: Pool, k: nat)
    requires s.drain == Summing(0, 0) && k <= |s.workers|
    ensures Exec(s, Repeat(DrainStep(false), k)) == Some(s.(drain := Summing(k, InFlightSum(s.workers, k))))
  {
    if k > 0 {
      SumOnePass(s, k - 1);
      RepeatSnoc(DrainStep(false), k - 1);
      ExecSnoc(s, Repeat(DrainStep(false), k - 1), DrainStep(false));
      CounterIsRead(s.(drain := Summing(k - 1, InFlightSum(s.workers, k - 1))));
    }
  }

  lemma CounterIsRead(s: Pool)
    requires s.drain.Summing? && s.drain.k < |s.workers|
    ensures Next(s, DrainStep(false)) ==
            Some(s.(drain := Summing(s.drain.k + 1, s.drain.total + s.workers[s.drain.k].inFlight)))
  {
  }

  lemma {:induction false} SumIsZero(workers: seq<Worker>, k: nat)
    requires k <= |workers|
    ensures InFlightSum(workers, k) == 0 <==> forall w :: 0 <= w < k ==> workers[w].inFlight == 0
  {
    if k > 0 {
      SumIsZero(workers, k - 1);
    }
  }

  function Begun(s: Pool): Pool {
    s.(shutdown := true, drain := Summing(0, 0))
  }

  lemma FullPass(s: Pool)
    requires s.drain == Summing(0, 0)
    ensures Exec(s, Repeat(DrainStep(false), |s.workers| + 1)) ==
            Some(s.(drain := if InFlightSum(s.workers, |s.workers|) == 0 then Returned(false) else Summing(0, 0)))
  {
    var n := |s.workers|;
    SumOnePass(s, n);
    RepeatSnoc(DrainStep(false), n);
    ExecSnoc(s, Repeat(DrainStep(false), n), DrainStep(false));
    SumIsRead(s.(drain := Summing(n, InFlightSum(s.workers, n))));
  }

  lemma RepeatSnoc(step: Step, n: nat)
    ensures Repeat(step, n + 1) == Repeat(step, n) + [step]
  {
  }

  lemma SumIsRead(s: Pool)
    requires s.drain.Summing? && s.drain.k == |s.workers|
    ensures Next(s, DrainStep(false)) == Some(s.(drain := if s.drain.total == 0 then Returned(false) else Summing(0, 0)))
  {
  }

  lemma BeginsShutdown(s: Pool)
    requires !s.handlesDropped
    ensures Exec(s, [BeginShutdown]) == Some(Begun(s)) && Begun(s).workers == s.workers
  {
    OneStep(s, BeginShutdown);
  }

  lemma OnePass(s: Pool)
    requires !s.handlesDropped
    ensures Exec(s, [BeginShutdown] + Repeat(DrainStep(false), |s.workers| + 1)) ==
            Some(s.(shutdown := true,
                    drain := if InFlightSum(s.workers, |s.workers|) == 0 then Returned(false) else Summing(0, 0)))
  {
    BeginsShutdown(s);
    ExecAppend(s, [BeginShutdown], Repeat(DrainStep(false), |s.workers| + 1));
    FullPass(Begun(s));
  }

  lemma NoneInFlight(s: Pool)
    requires WorkersInv(s)
    ensures InFlightSum(s.workers, |s.workers|) == 0 <==> forall w :: 0 <= w < |s.workers| ==> !IsExecuting(s.workers[w].pc)
  {
    SumIsZero(s.workers, |s.workers|);
    forall w | 0 <= w < |s.workers| ensures s.workers[w].inFlight == 0 <==> !IsExecuting(s.workers[w].pc) {
      assert WorkerInv(s.workers[w], s.shutdown, s.handlesDropped, s.depth);
    }
  }

  /**
   One undisturbed pass of `shutdown` returns without a timeout exactly when no worker is
   between counting a query in and counting it out. Queued tasks, received tasks and unsent
   replies do not hold it back: they are left exactly where they were.
   */
  lemma ShutdownReturnsIffNoneExecuting(s: Pool)
    requires Reachable(s) && !s.handlesDropped
    ensures var s' := Exec(s, [BeginShutdown] + Repeat(DrainStep(false), |s.workers| + 1));
            && s'.Some?
            && s'.value == s.(shutdown := true, drain := s'.value.drain)
            && (s'.value.drain == Returned(false) <==> forall w :: 0 <= w < |s.workers| ==> !IsExecuting(s.workers[w].pc))
  {
    ReachableInv(s);
    OnePass(s);
    NoneInFlight(s);
  }

  // ---- routing ----

  ghost predicate AffinityValid(s: Pool) {
    forall t :: t in s.affinity ==> s.affinity[t] < |s.workers|
  }

  /** The winner of `filter(alive).min_by_key(in_flight)` over the workers from `k` on. */
  function Scan(workers: seq<Worker>, k: nat, best: Option<(nat, nat)>): Option<(nat, nat)>
    decreases |workers| - k
  {
    if k >= |workers| then best
    else Scan(workers, k + 1, Consider(workers, k, best))
  }

  ghost predicate IsLeastLoaded(workers: seq<Worker>, upTo: nat, best: Option<(nat, nat)>)
    requires upTo <= |workers|
  {
    match best
    case None => forall v :: 0 <= v < upTo ==> !workers[v].alive
    case Some((b, load)) =>
      && b < upTo && workers[b].alive && workers[b].inFlight == load
      && (forall v :: 0 <= v < upTo && workers[v].alive ==> load <= workers[v].inFlight)
      && (forall v :: 0 <= v < b && workers[v].alive ==> load < workers[v].inFlight)
  }

  lemma {:induction false} ScanFindsLeastLoaded(workers: seq<Worker>, k: nat, best: Option<(nat, nat)>)
    requires k <= |workers| && IsLeastLoaded(workers, k, best)
    ensures IsLeastLoaded(workers, |workers|, Scan(workers, k, best))
    decreases |workers| - k
  {
    if k < |workers| {
      ScanFindsLeastLoaded(workers, k + 1, Consider(workers, k, best));
    }
  }

  ghost predicate OnlyCalls(steps: seq<Step>, id: nat) {
    forall i :: 0 <= i < |steps| ==> steps[i] == CallStep(id)
  }

  /** The state with call `id` moved to `c`. */
  function At(s: Pool, id: nat, c: Call): Pool {
    s.(calls := s.calls[id := c])
  }

  lemma AtTwice(s: Pool, id: nat, c: Call, d: Call)
    ensures At(At(s, id, c), id, d) == At(s, id, d)
  {
    assert s.calls[id := c][id := d] == s.calls[id := d];
  }

  lemma OneStep(s: Pool, step: Step)
    ensures Exec(s, [step]) == Next(s, step)
  {
    assert [step][..0] == [];
  }

  function Consider(workers: seq<Worker>, k: nat, best: Option<(nat, nat)>): Option<(nat, nat)>
    requires k < |workers|
  {
    if workers[k].alive then Better(best, k, workers[k].inFlight) else best
  }

  lemma ScanOne(s: Pool, id: nat, t: QueryTask, k: nat, best: Option<(nat, nat)>) returns (steps: seq<Step>)
    requires t.id == id && k < |s.workers|
    ensures OnlyCalls(steps, id)
    ensures Exec(At(s, id, ScanAlive(t, k, best)), steps) == Some(At(s, id, ScanAlive(t, k + 1, Consider(s.workers, k, best))))
  {
    var here, step := At(s, id, ScanAlive(t, k, best)), CallStep(id);
    OneStep(here, step);
    steps := [step];
    if s.workers[k].alive {
      AtTwice(s, id, ScanAlive(t, k, best), ScanLoad(t, k, best));
      AtTwice(s, id, ScanLoad(t, k, best), ScanAlive(t, k + 1, Consider(s.workers, k, best)));
      ExecSnoc(here, [step], step);
      steps := [step] + [step];
    } else {
      AtTwice(s, id, ScanAlive(t, k, best), ScanAlive(t, k + 1, best));
    }
  }

  lemma ScanEnds(s: Pool, id: nat, t: QueryTask, best: Option<(nat, nat)>)
    requires t.id == id
    ensures Exec(At(s, id, ScanAlive(t, |s.workers|, best)), [CallStep(id)]) ==
            Some(At(s, id, Pinning(t, if best.Some? then best.value.0 else 0)))
  {
    var last := ScanAlive(t, |s.workers|, best);
    OneStep(At(s, id, last), CallStep(id));
    AtTwice(s, id, last, Pinning(t, if best.Some? then best.value.0 else 0));
  }

  /** Where the scan from `k` ends. */
  function Scanned(s: Pool, id: nat, t: QueryTask, k: nat, best: Option<(nat, nat)>): Pool
    requires k <= |s.workers|
  {
    var found := Scan(s.workers, k, best);
    At(s, id, Pinning(t, if found.Some? then found.value.0 else 0))
  }

  lemma ScannedStep(s: Pool, id: nat, t: QueryTask, k: nat, best: Option<(nat, nat)>)
    requires k < |s.workers|
    ensures Scanned(s, id, t, k, best) == Scanned(s, id, t, k + 1, Consider(s.workers, k, best))
  {
  }

  lemma {:induction false} ScanRuns(
      s: Pool, id: nat, t: QueryTask, k: nat, best: Option<(nat, nat)>)
    returns (steps: seq<Step>)
    requires t.id == id && k <= |s.workers|
    ensures OnlyCalls(steps, id) && Exec(At(s, id, ScanAlive(t, k, best)), steps) == Some(Scanned(s, id, t, k, best))
    decreases |s.workers| - k
  {
    if k == |s.workers| {
      ScanEnds(s, id, t, best);
      steps := [CallStep(id)];
    } else {
      var first := ScanOne(s, id, t, k, best);
      var rest := ScanRuns(s, id, t, k + 1, Consider(s.workers, k, best));
      Joined(At(s, id, ScanAlive(t, k, best)), first, At(s, id, ScanAlive(t, k + 1, Consider(s.workers, k, best))), rest, id);
      steps := first + rest;
      ScannedStep(s, id, t, k, best);
    }
  }

  lemma Joined(s: Pool, a: seq<Step>, mid: Pool, b: seq<Step>, id: nat)
    requires Exec(s, a) == Some(mid) && OnlyCalls(a, id) && OnlyCalls(b, id)
    ensures Exec(s, a + b) == Exec(mid, b) && OnlyCalls(a + b, id)
  {
    ExecAppend(s, a, b);
  }

  /** From the start of the scan to the pinned target, with nobody interrupting. */
  lemma ScanAndPin(s: Pool, id: nat, t: QueryTask) returns (steps: seq<Step>)
    requires t.id == id
    ensures OnlyCalls(steps, id)
    ensures var found := Scan(s.workers, 0, None);
            var target := if found.Some? then found.value.0 else 0;
            Exec(At(s, id, ScanAlive(t, 0, None)), steps) ==
            Some(At(s, id, Sending(t, target)).(affinity := s.affinity[t.tenant := target]))
  {
    var found := Scan(s.workers, 0, None);
    var target := if found.Some? then found.value.0 else 0;
    var scan := ScanRuns(s, id, t, 0, None);
    ExecSnoc(At(s, id, ScanAlive(t, 0, None)), scan, CallStep(id));
    AtTwice(s, id, Pinning(t, target), Sending(t, target));
    steps := scan + [CallStep(id)];
  }

  ghost predicate PinnedUsable(s: Pool, tenant: string) {
    && tenant in s.affinity && s.affinity[tenant] < |s.workers|
    && s.workers[s.affinity[tenant]].alive && |s.workers[s.affinity[tenant]].queue| < s.depth
  }

  /**
   A `submit` call whose routing nobody interrupts goes to the tenant's pinned worker if that
   one is alive and has room, else to the first of the least loaded live workers, else to
   worker 0; in the latter two cases the tenant is pinned there.
   */
  lemma UninterruptedRouting(s: Pool, id: nat) returns (steps: seq<Step>, target: nat)
    requires Inv(s) && |s.workers| > 0 && id in s.calls && s.calls[id].Routing?
    ensures OnlyCalls(steps, id) && target < |s.workers|
    ensures var t := s.calls[id].task;
            Exec(s, steps) == Some(At(s, id, Sending(t, target)).(
              affinity := if PinnedUsable(s, t.tenant) then s.affinity else s.affinity[t.tenant := target]))
    ensures var t := s.calls[id].task;
            if PinnedUsable(s, t.tenant) then target == s.affinity[t.tenant]
            else if exists v :: 0 <= v < |s.workers| && s.workers[v].alive
            then IsLeastLoaded(s.workers, |s.workers|, Some((target, s.workers[target].inFlight)))
            else target == 0
  {
    var t := s.calls[id].task;
    OneStep(s, CallStep(id));
    if PinnedUsable(s, t.tenant) {
      steps, target := [CallStep(id)], s.affinity[t.tenant];
    } else {
      var rest := ScanAndPin(s, id, t);
      ExecAppend(s, [CallStep(id)], rest);
      steps := [CallStep(id)] + rest;
      ScanFindsLeastLoaded(s.workers, 0, None);
      var found := Scan(s.workers, 0, None);
      target := if found.Some? then found.value.0 else 0;
    }
  }

  lemma EmptyPoolPins(s: Pool, t: QueryTask) returns (steps: seq<Step>)
    requires s.workers == [] && t.id !in s.calls && !s.shutdown && !s.handlesDropped && t.tenant !in s.affinity
    ensures Exec(s, steps).Some?
    ensures t.tenant in Exec(s, steps).value.affinity && Exec(s, steps).value.workers == []
  {
    var step := CallStep(t.id);
    OneStep(s, Submit(t));
    ExecSnoc(s, [Submit(t)], step);
    AtTwice(s, t.id, Checking(t), Routing(t));
    ExecSnoc(s, [Submit(t)] + [step], step);
    AtTwice(s, t.id, Routing(t), ScanAlive(t, 0, None));
    var rest := ScanAndPin(s, t.id, t);
    ExecAppend(s, [Submit(t)] + [step] + [step], rest);
    steps := [Submit(t)] + [step] + [step] + rest;
  }

  /** Every affinity value is a worker index in every run exactly when the pool has a worker. */
  lemma AffinityValidIffSomeWorker(n: nat, depth: nat, config: QC.Config, sha256: string -> seq<byte>)
    ensures (forall steps :: Exec(Init(n, depth, config, sha256), steps).Some? ==>
               AffinityValid(Exec(Init(n, depth, config, sha256), steps).value))
            <==> n > 0
  {
    var s := Init(n, depth, config, sha256);
    if n > 0 {
      forall steps | Exec(s, steps).Some? ensures AffinityValid(Exec(s, steps).value) {
        InitInv(n, depth, config, sha256);
        ExecKeepsInv(s, steps);
        ExecExtends(s, steps, 0);
      }
    } else {
      var steps := EmptyPoolPins(s, QueryTask(0, "acme", "SELECT 1", "c"));
      assert !AffinityValid(Exec(s, steps).value);
    }
  }

  lemma FirstTaskRouted(
      config: QC.Config, sha256: string -> seq<byte>, t: QueryTask)
    returns (run: seq<Step>, s: Pool)
    requires t.id == 0
    ensures Exec(Init(1, 1, config, sha256), run) == Some(s)
    ensures s.workers == [FreshWorker()] && s.depth == 1 && !s.handlesDropped && 0 in s.calls && s.calls[0] == Sending(t, 0)
    ensures !s.shutdown && s.cache == QC.EMPTY && s.config == config && s.sha256 == sha256
  {
    var s0 := Init(1, 1, config, sha256);
    OneStep(s0, Submit(t));
    ExecSnoc(s0, [Submit(t)], CallStep(0));
    AtTwice(s0, 0, Checking(t), Routing(t));
    InitInv(1, 1, config, sha256);
    ExecKeepsInv(s0, [Submit(t)] + [CallStep(0)]);
    var steps, target := UninterruptedRouting(At(s0, 0, Routing(t)), 0);
    ExecAppend(s0, [Submit(t)] + [CallStep(0)], steps);
    run := [Submit(t)] + [CallStep(0)] + steps;
    s := Exec(s0, run).value;
  }

  /** One task submitted to a one-worker pool, and nothing else yet. */
  lemma OneTaskAccepted(config: QC.Config, sha256: string -> seq<byte>) returns (s: Pool)
    ensures Reachable(s) && !s.handlesDropped
    ensures |s.workers| == 1 && s.workers[0].pc.Starting? && |s.workers[0].sent| == 1 && s.workers[0].answered == []
    ensures !s.shutdown && s.workers[0].queue == s.workers[0].sent
    ensures s.cache == QC.EMPTY && s.config == config && s.sha256 == sha256
  {
    var run, mid := FirstTaskRouted(config, sha256, QueryTask(0, "acme", "SELECT 1", "c"));
    ExecSnoc(Init(1, 1, config, sha256), run, CallStep(0));
    s := Next(mid, CallStep(0)).value;
    assert Exec(Init(1, 1, config, sha256), run + [CallStep(0)]) == Some(s);
  }

  /**
   The documented promise that shutdown waits for the work to complete does not hold: here it
   has returned, without a timeout, while an accepted task is still waiting in its queue.
   */
  lemma ShutdownCanReturnWithTaskUnanswered(config: QC.Config, sha256: string -> seq<byte>) returns (s: Pool)
    ensures Reachable(s) && s.drain == Returned(false)
    ensures |s.workers| == 1 && |s.workers[0].sent| == 1 && s.workers[0].answered == []
  {
    var before := OneTaskAccepted(config, sha256);
    ShutdownReturnsIffNoneExecuting(before);
    var close := [BeginShutdown] + Repeat(DrainStep(false), |before.workers| + 1);
    ReachableExec(before, close);
    s := Exec(before, close).value;
  }

  // ---- answers ----

  /** A reply never carries an answer computed for another tenant or another query text digest. */
  lemma RepliesComeFromSameTenantAndQuery(s: Pool, w: nat, i: nat)
    requires Reachable(s) && w < |s.workers| && i < |s.workers[w].answered|
    ensures var (t, o) := s.workers[w].answered[i];
            o.Success? ==> (QC.Key(t.tenant, s.sha256(t.sql)), o.answer) in s.produced
  {
    ReachableInv(s);
    assert WorkerProvenance(s, s.workers[w]);
  }

  ghost predicate CachesTenant(s: Pool, tenant: string) {
    exists x :: x in s.cache.slots && x.key.tenant == tenant
  }

  /** Whether this worker's next step stores an answer of the tenant. */
  predicate StoresFor(s: Pool, step: Step, tenant: string) {
    && step.WorkerStep? && step.w < |s.workers| && s.workers[step.w].pc.Storing?
    && s.workers[step.w].pc.outcome.Success? && s.workers[step.w].pc.task.tenant == tenant
  }

  lemma WorkerRefills(s: Pool, step: Step, tenant: string)
    requires step.WorkerStep? && !CachesTenant(s, tenant) && Next(s, step).Some?
    ensures CachesTenant(Next(s, step).value, tenant) <==> StoresFor(s, step, tenant)
  {
    var s', pc := Next(s, step).value, s.workers[step.w].pc;
    if pc.Executing? {
      GetKeepsSlots(s.config, s.cache, KeyOf(s, pc.task), step.now);
    } else if pc.Storing? && pc.outcome.Success? {
      PutKeepsSlots(s.config, s.cache, KeyOf(s, pc.task), pc.outcome.answer, step.now);
      assert s'.cache.slots[0] in s'.cache.slots && s'.cache.slots[0].key == KeyOf(s, pc.task);
    } else {
      assert s'.cache == s.cache;
    }
  }

  /** While nothing of a tenant is cached, the only step that changes this is a worker's store of an answer to it. */
  lemma OnlyStoresRefill(s: Pool, step: Step, tenant: string)
    requires Inv(s) && !CachesTenant(s, tenant) && Next(s, step).Some?
    ensures CachesTenant(Next(s, step).value, tenant) <==> StoresFor(s, step, tenant)
  {
    match step
    case WorkerStep(_, _, _) => WorkerRefills(s, step, tenant);
    case CallStep(id) =>
      CallKeepsCache(s, id);
    case Refresh(other) => QC.PartitionFacts(s.cache.slots, other);
    case _ =>
  }

  lemma RefreshEmpties(s: Pool, tenant: string)
    requires !s.handlesDropped
    ensures Next(s, Refresh(tenant)).Some? && !CachesTenant(Next(s, Refresh(tenant)).value, tenant)
  {
    QC.PartitionFacts(s.cache.slots, tenant);
  }

  // ---- the pool's cache is a cache run ----

  /** The cache operation that a step performs, if it performs one. */
  function CacheOp(s: Pool, step: Step): Option<QC.Op> {
    match step
    case Refresh(tenant) => Some(QC.InvalidateTenant(tenant))
    case WorkerStep(w, _, now) =>
      if w >= |s.workers| then None
      else
        (match s.workers[w].pc
         case Executing(t) => Some(QC.Get(KeyOf(s, t), now))
         case Storing(t, o) => if o.Success? then Some(QC.Put(KeyOf(s, t), o.answer, now)) else None
         case _ => None)
    case _ => None
  }

  lemma StepIsCacheOp(s: Pool, step: Step)
    requires Inv(s) && Next(s, step).Some?
    ensures var s' := Next(s, step).value;
            && s'.config == s.config && s'.sha256 == s.sha256
            && s'.cache == if CacheOp(s, step).Some? then QC.Step(s.config, s.cache, CacheOp(s, step).value) else s.cache
  {
    match step
    case CallStep(id) => CallKeepsCache(s, id);
    case WorkerStep(w, choice, now) => WorkerCacheOp(s, w, choice, now);
    case _ =>
  }

  lemma CallKeepsCache(s: Pool, id: nat)
    requires Inv(s) && id in s.calls && CallNext(s, s.calls[id]).Some?
    ensures var s' := CallNext(s, s.calls[id]).value; s'.cache == s.cache && s'.config == s.config && s'.sha256 == s.sha256
  {
    if !Delivers(s, s.calls[id]) {
      CallMovesQuietly(s, id);
    }
  }

  lemma WorkerCacheOp(s: Pool, w: nat, choice: Choice, now: nat)
    requires w < |s.workers| && WorkerNext(s, w, choice, now).Some?
    ensures var s', op := WorkerNext(s, w, choice, now).value, CacheOp(s, WorkerStep(w, choice, now));
            && s'.config == s.config && s'.sha256 == s.sha256
            && s'.cache == if op.Some? then QC.Step(s.config, s.cache, op.value) else s.cache
  {
    if !Shared(s.workers[w].pc) {
      LocalStep(s, w, choice, now);
    }
  }

  /** The cache operations of a whole run, in order. */
  function CacheOps(s: Pool, steps: seq<Step>): seq<QC.Op>
    requires Exec(s, steps).Some?
  {
    if steps == [] then []
    else
      var rest := steps[..|steps| - 1];
      var op := CacheOp(Exec(s, rest).value, steps[|steps| - 1]);
      CacheOps(s, rest) + (if op.Some? then [op.value] else [])
  }

  lemma {:induction false} PoolRunsTheCache(s: Pool, steps: seq<Step>)
    requires Inv(s) && s.cache == QC.EMPTY && Exec(s, steps).Some?
    ensures var s' := Exec(s, steps).value;
            && s'.config == s.config && s'.sha256 == s.sha256
            && s'.cache == QC.Run(s.config, CacheOps(s, steps))
  {
    if steps != [] {
      var rest, step := steps[..|steps| - 1], steps[|steps| - 1];
      var mid := Exec(s, rest).value;
      PoolRunsTheCache(s, rest);
      ExecKeepsInv(s, rest);
      StepIsCacheOp(mid, step);
      var ops, op := CacheOps(s, rest), CacheOp(mid, step);
      if op.Some? {
        assert (ops + [op.value])[..|ops|] == ops;
      } else {
        assert ops + [] == ops;
      }
    }
  }

  /**
   In every run of the pool, an answer that a worker takes from the cache is the one stored last
   for that tenant and query digest, with no refresh of the tenant since, and not older than the TTL.
   */
  lemma CachedAnswerIsLatestStored(
      n: nat, depth: nat, config: QC.Config, sha256: string -> seq<byte>, steps: seq<Step>,
      w: nat, choice: Choice, now: nat)
    requires Exec(Init(n, depth, config, sha256), steps).Some?
    requires var s := Exec(Init(n, depth, config, sha256), steps).value;
             w < |s.workers| && s.workers[w].pc.Executing?
    ensures var start := Init(n, depth, config, sha256);
            var s := Exec(start, steps).value;
            var t := s.workers[w].pc.task;
            && WorkerNext(s, w, choice, now).Some?
            && var pc := WorkerNext(s, w, choice, now).value.workers[w].pc;
               var key := QC.Key(t.tenant, sha256(t.sql));
               var latest := QC.Latest(CacheOps(start, steps), key);
               && (pc == Querying(t) || (latest.Some? && pc == Executed(t, Success(latest.value.answer))))
               && (pc.Executed? <==>
                     QC.Listed(s.cache.slots, key) && latest.Some? && now <= latest.value.insertedAt + config.ttl)
  {
    var start := Init(n, depth, config, sha256);
    InitInv(n, depth, config, sha256);
    PoolRunsTheCache(start, steps);
    var s := Exec(start, steps).value;
    QC.HitIsLatestPut(config, CacheOps(start, steps), KeyOf(s, s.workers[w].pc.task), now);
    QC.HitIff(config, CacheOps(start, steps), KeyOf(s, s.workers[w].pc.task), now);
  }

  lemma HitMoves(s: Pool, w: nat, now: nat) returns (s': Pool)
    requires w < |s.workers| && s.workers[w].pc.Executing?
    requires QC.GetStep(s.config, s.cache, KeyOf(s, s.workers[w].pc.task), now).1.Some?
    ensures Next(s, WorkerStep(w, Proceed, now)) == Some(s')
    ensures |s'.workers| == |s.workers| && s'.sha256 == s.sha256 && s'.produced == s.produced
    ensures var t := s.workers[w].pc.task;
            s'.workers[w].pc == Executed(t, Success(QC.GetStep(s.config, s.cache, KeyOf(s, t), now).1.value))
  {
    s' := WorkerNext(s, w, Proceed, now).value;
  }

  lemma StoreMoves(s: Pool, w: nat, now: nat, later: nat) returns (s': Pool, s'': Pool)
    requires w < |s.workers| && s.workers[w].pc.Executed? && s.workers[w].pc.outcome.Success?
    ensures Next(s, WorkerStep(w, Proceed, now)) == Some(s') && Next(s', WorkerStep(w, Proceed, later)) == Some(s'')
    ensures s''.produced == s.produced && s''.cache.slots != []
    ensures var t, answer := s.workers[w].pc.task, s.workers[w].pc.outcome.answer;
            s''.cache.slots[0] == QC.Slot(KeyOf(s, t), QC.Entry(answer, QC.EstimateBytes(answer.batches), later))
  {
    s' := WorkerNext(s, w, Proceed, now).value;
    s'' := WorkerNext(s', w, Proceed, later).value;
  }

  /**
   In the pool a hit renews itself: wherever a worker hits the cache, three more of its own steps
   put the same answer back as the most recent entry, with the time of the store as its age.
   */
  lemma HitRenewsAge(s: Pool, w: nat, now: nat, later: nat) returns (end: Pool)
    requires w < |s.workers| && s.workers[w].pc.Executing?
    requires QC.GetStep(s.config, s.cache, KeyOf(s, s.workers[w].pc.task), now).1.Some?
    ensures Exec(s, [WorkerStep(w, Proceed, now)] + [WorkerStep(w, Proceed, now)] + [WorkerStep(w, Proceed, later)]) == Some(end)
    ensures var key := KeyOf(s, s.workers[w].pc.task);
            var answer := QC.GetStep(s.config, s.cache, key, now).1.value;
            && end.cache.slots != [] && end.produced == s.produced
            && end.cache.slots[0] == QC.Slot(key, QC.Entry(answer, QC.EstimateBytes(answer.batches), later))
  {
    var step := WorkerStep(w, Proceed, now);
    var one := HitMoves(s, w, now);
    var two;
    two, end := StoreMoves(one, w, now, later);
    OneStep(s, step);
    ExecSnoc(s, [step], step);
    ExecSnoc(s, [step] + [step], WorkerStep(w, Proceed, later));
  }
}
