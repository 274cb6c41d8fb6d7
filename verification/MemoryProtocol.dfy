/** The rolling-memory protocol of one session under arbitrary interleaving.

    Each step is one critical section (or one model call). The record lock is free between any
    two steps; the summary lock is held by at most one refresh, from its begin to its end. The
    automatic scheduler's worker threads are kept in a map, so that "at most one worker" is
    something to be proved and not built in. A process stop may happen between any two steps. */
module MemoryProtocol {
  import opened Common
  import opened Text
  import opened MemoryRecords
  import opened MemoryDisk

  datatype Owner = Manual | Automatic(thread: nat)

  /** Where a worker thread of the scheduler is; `target` is the target it popped. */
  datatype Worker =
    | Starting
    | Popped(target: nat)
    | Marked(target: nat)
    | InRefresh(target: nat)
    | Raised(target: nat)
    | FailureMarked(target: nat)
    | Returned(target: nat)

  datatype Lock = Free | Held(owner: Owner, job: Job)

  // ----- the scheduler's own critical sections, seen from one session -----

  datatype Queue = Queue(pending: Option<nat>, running: bool)

  /** The second half of schedule(): keep the larger target; start a worker if none is running. */
  function Store(q: Queue, target: nat): (r: (Queue, bool)) {
    (Queue(Some(Max(target, if q.pending.Some? then q.pending.value else 0)), true), !q.running)
  }

  function TakeTarget(q: Queue): (r: (Queue, nat)) {
    (q.(pending := None), if q.pending.Some? then q.pending.value else 0)
  }

  /** After a failure only a target beyond the failed one keeps the worker going; a smaller one is
      dropped. The second component says whether the worker goes on. */
  function EndAfterFailure(q: Queue, target: nat): (r: (Queue, bool)) {
    if (if q.pending.Some? then q.pending.value else 0) > target then (q, true)
    else (Queue(None, false), false)
  }

  function EndAfterReturn(q: Queue): (r: (Queue, bool)) {
    if q.pending.Some? then (q, true) else (q.(running := false), false)
  }

  // ----- the whole system -----

  datatype Sys = Sys(
    disk: Disk,
    lock: Lock,                   // the summary lock and the refresh that holds it
    forced: bool,                 // history: the latest refresh that found work was forced
    pending: Option<nat>,         // the scheduler's stored target
    running: bool,                // the scheduler's running mark
    workers: map<nat, Worker>,    // live worker threads
    inFlight: set<nat>,           // reserved by schedule(), not yet stored
    log: seq<Call>,               // history: all model calls
    attempts: seq<nat>,           // history: popped targets
    succeeded: set<nat>,          // history: attempts that returned normally
    failed: set<nat>)             // history: attempts recorded as failed

  const INITIAL := Sys(EMPTY_DISK, Free, false, None, false, map[], {}, [], [], {}, {})

  datatype Step =
    | RememberRun(question: string, answer: string, runId: string, createdAt: string, stop: bool)
    | ReserveTarget
    | StoreTarget(target: nat, thread: nat)
    | Pop(thread: nat)
    | Mark(thread: nat)
    | Begin(thread: nat)
    | BeginManual(force: bool, goal: Option<nat>)
    | Summarize(output: string)
    | CommitBatch(stop: bool)
    | RefreshRaises
    | WorkerRaises(thread: nat)
    | MarkFailed(thread: nat)
    | EndFailed(thread: nat)
    | EndReturned(thread: nat)
    | ProcessStop

  predicate Enabled(s: Sys, step: Step) {
    match step
    case RememberRun(_, _, _, _, _) => true
    case ReserveTarget => true
    case StoreTarget(target, thread) => target in s.inFlight && thread !in s.workers
    case Pop(w) => w in s.workers && s.workers[w].Starting?
    case Mark(w) => w in s.workers && s.workers[w].Popped?
    case Begin(w) => s.lock.Free? && w in s.workers && s.workers[w].Marked?
    case BeginManual(_, _) => s.lock.Free?
    case Summarize(_) =>
      s.lock.Held? && s.lock.job.generated.None? && s.lock.job.covered <= s.lock.job.target <= |s.lock.job.snapshot|
    case CommitBatch(_) => s.lock.Held? && s.lock.job.generated.Some?
    case RefreshRaises => s.lock.Held?
    case WorkerRaises(w) => w in s.workers && (s.workers[w].Popped? || s.workers[w].Marked?)
    case MarkFailed(w) => w in s.workers && s.workers[w].Raised?
    case EndFailed(w) => w in s.workers && s.workers[w].FailureMarked?
    case EndReturned(w) => w in s.workers && s.workers[w].Returned?
    case ProcessStop => true
  }

  /** The refresh ends and gives the summary lock back. */
  function Release(s: Sys, normally: bool): Sys
    requires s.lock.Held?
  {
    var free := s.(lock := Free);
    match s.lock.owner
    case Manual => free
    case Automatic(w) =>
      if w in s.workers && s.workers[w].InRefresh? then
        var target := s.workers[w].target;
        if normally then free.(workers := s.workers[w := Returned(target)], succeeded := s.succeeded + {target})
        else free.(workers := s.workers[w := Raised(target)])
      else free
  }

  function ApplyBegin(s: Sys, w: nat, target: nat): Sys {
    match BeginRefresh(s.disk, false, Some(target))
    case Started(job) =>
      s.(lock := Held(Automatic(w), job), forced := false, workers := s.workers[w := InRefresh(target)])
    case _ => s.(workers := s.workers[w := Returned(target)], succeeded := s.succeeded + {target})
  }

  function ApplySummarize(s: Sys, output: string): Sys
    requires Enabled(s, Summarize(output))
  {
    var job := s.lock.job;
    var logged := s.(log := s.log + [Call(job.summary, Batch(job), output)]);
    var text := Normalize(output);
    if text == "" then Release(logged, false)
    else logged.(lock := Held(s.lock.owner, job.(generated := Some(text))))
  }

  function ApplyCommit(s: Sys, stop: bool): Sys
    requires Enabled(s, CommitBatch(stop))
  {
    match Commit(s.disk, s.lock.job, stop)
    case None => Release(s, false)
    case Some(d) =>
      var written := s.(disk := d);
      var next := Advance(s.lock.job);
      if stop then Release(written, false)
      else if next.covered >= next.target then Release(written, true)
      else written.(lock := Held(s.lock.owner, next))
  }

  function Apply(s: Sys, step: Step): Sys
    requires Enabled(s, step)
  {
    match step
    case RememberRun(question, answer, runId, createdAt, stop) =>
      s.(disk := Remember(s.disk, question, answer, runId, createdAt, stop))
    case ReserveTarget =>
      var (d, target) := Reserve(s.disk);
      if target.Some? then s.(disk := d, inFlight := s.inFlight + {target.value}) else s
    case StoreTarget(target, thread) =>
      var (q, starts) := Store(Queue(s.pending, s.running), target);
      s.(inFlight := s.inFlight - {target}, pending := q.pending, running := q.running,
         workers := if starts then s.workers[thread := Starting] else s.workers)
    case Pop(w) =>
      var (q, target) := TakeTarget(Queue(s.pending, s.running));
      s.(pending := q.pending, workers := s.workers[w := Popped(target)], attempts := s.attempts + [target])
    case Mark(w) =>
      var target := s.workers[w].target;
      s.(disk := MarkRefreshing(s.disk, target), workers := s.workers[w := Marked(target)])
    case Begin(w) => ApplyBegin(s, w, s.workers[w].target)
    case BeginManual(force, goal) =>
      var begun := BeginRefresh(s.disk, force, goal);
      if begun.Started? then s.(lock := Held(Manual, begun.job), forced := force) else s
    case Summarize(output) => ApplySummarize(s, output)
    case CommitBatch(stop) => ApplyCommit(s, stop)
    case RefreshRaises => Release(s, false)
    case WorkerRaises(w) => s.(workers := s.workers[w := Raised(s.workers[w].target)])
    case MarkFailed(w) =>
      var target := s.workers[w].target;
      s.(disk := MarkRefreshFailed(s.disk, target), failed := s.failed + {target},
         workers := s.workers[w := FailureMarked(target)])
    case EndFailed(w) =>
      var (q, goesOn) := EndAfterFailure(Queue(s.pending, s.running), s.workers[w].target);
      s.(pending := q.pending, running := q.running,
         workers := if goesOn then s.workers[w := Starting] else s.workers - {w})
    case EndReturned(w) =>
      var (q, goesOn) := EndAfterReturn(Queue(s.pending, s.running));
      s.(pending := q.pending, running := q.running,
         workers := if goesOn then s.workers[w := Starting] else s.workers - {w})
    case ProcessStop =>
      s.(lock := Free, pending := None, running := false, workers := map[], inFlight := {})
  }

  // ----- runs -----

  ghost predicate IsRun(s: Sys, steps: seq<Step>)
    decreases |steps|
  {
    steps == [] || (Enabled(s, steps[0]) && IsRun(Apply(s, steps[0]), steps[1..]))
  }

  ghost function Final(s: Sys, steps: seq<Step>): Sys
    requires IsRun(s, steps)
    decreases |steps|
  {
    if steps == [] then s else Final(Apply(s, steps[0]), steps[1..])
  }

  /** No forced refresh, and no stop between the summary write and the state write. */
  ghost predicate IsCalm(step: Step) {
    && !(step.BeginManual? && step.force)
    && !(step.CommitBatch? && step.stop)
  }

  ghost predicate AllCalm(steps: seq<Step>) {
    forall i :: 0 <= i < |steps| ==> IsCalm(steps[i])
  }

  ghost predicate NoProcessStop(steps: seq<Step>) {
    forall i :: 0 <= i < |steps| ==> !steps[i].ProcessStop?
  }

  // ----- invariants that hold in every run -----

  ghost predicate MemoryOk(s: Sys) {
    && DiskOk(s.disk, s.log)
    && (s.lock.Held? ==> JobOk(s.lock.job, s.disk, s.log))
  }

  ghost predicate OneWorker(s: Sys) {
    && (s.running <==> s.workers != map[])
    && (forall w, w' :: w in s.workers && w' in s.workers ==> w == w')
    && (s.pending.Some? ==> s.running)
    && (forall w :: w in s.workers && s.workers[w].Starting? ==> s.pending.Some?)
    && (s.lock.Held? && s.lock.owner.Automatic? ==>
          && s.lock.owner.thread in s.workers
          && s.workers[s.lock.owner.thread] == InRefresh(s.lock.job.target))
    && (forall w :: w in s.workers && s.workers[w].InRefresh? ==> s.lock.Held? && s.lock.owner == Automatic(w))
  }

  ghost predicate InRange(s: Sys, target: nat) {
    1 <= target <= ReadState(s.disk).lastAttempted
  }

  /** Every reserved sequence number is in exactly one place and is attempted at most once. */
  ghost predicate TargetsOk(s: Sys) {
    && (forall t :: t in s.inFlight ==> InRange(s, t) && t !in s.attempts)
    && (s.pending.Some? ==> InRange(s, s.pending.value) && s.pending.value !in s.attempts
                            && s.pending.value !in s.inFlight)
    && (forall i :: 0 <= i < |s.attempts| ==> InRange(s, s.attempts[i]))
    && (forall i, j :: 0 <= i < j < |s.attempts| ==> s.attempts[i] != s.attempts[j])
    && (forall w :: w in s.workers && !s.workers[w].Starting? ==> s.workers[w].target in s.attempts)
  }

  ghost predicate Safe(s: Sys) {
    MemoryOk(s) && OneWorker(s) && TargetsOk(s)
  }

  lemma MemoryStep(s: Sys, step: Step)
    requires MemoryOk(s) && Enabled(s, step)
    ensures MemoryOk(Apply(s, step))
    ensures ReadState(s.disk).lastAttempted <= ReadState(Apply(s, step).disk).lastAttempted
    ensures step.ReserveTarget? || ReadState(s.disk).lastAttempted == ReadState(Apply(s, step).disk).lastAttempted
    ensures s.disk.records <= Apply(s, step).disk.records
  {
    hide Remember, Normalize, ReadBack, BuiltFrom, Commit, BeginRefresh, IsValid;
    match step
    case RememberRun(question, answer, runId, createdAt, stop) =>
      RememberKeeps(s.disk, s.log, question, answer, runId, createdAt, stop);
      if s.lock.Held? {
        JobOutlivesAppends(s.lock.job, s.disk, Apply(s, step).disk, s.log);
      }
    case ReserveTarget =>
      StateWriteKeeps(s.disk, s.log, ReadState(s.disk).(lastAttempted := |s.disk.records|, status := Scheduled));
    case Mark(w) =>
      StateWriteKeeps(s.disk, s.log, ReadState(s.disk).(status := Refreshing));
    case MarkFailed(w) =>
      var failedAt := Some(Min(s.workers[w].target, |s.disk.records|));
      StateWriteKeeps(s.disk, s.log, ReadState(s.disk).(status := Failed, failedAt := failedAt));
    case Begin(w) => RefreshStep(s, step);
    case BeginManual(force, goal) => RefreshStep(s, step);
    case Summarize(output) => RefreshStep(s, step);
    case CommitBatch(stop) => RefreshStep(s, step);
    case _ =>
  }

  lemma RefreshStep(s: Sys, step: Step)
    requires MemoryOk(s) && Enabled(s, step)
    requires step.Begin? || step.BeginManual? || step.Summarize? || step.CommitBatch?
    ensures MemoryOk(Apply(s, step))
    ensures ReadState(s.disk).lastAttempted == ReadState(Apply(s, step).disk).lastAttempted
    ensures s.disk.records == Apply(s, step).disk.records
  {
    hide Normalize, ReadBack, BuiltFrom, Commit, BeginRefresh, IsValid;
    match step
    case Begin(w) =>
      BeginKeeps(s.disk, s.log, false, Some(s.workers[w].target));
    case BeginManual(force, goal) =>
      BeginKeeps(s.disk, s.log, force, goal);
    case Summarize(output) =>
      DiskOkMonotone(s.disk, s.log, [Call(s.lock.job.summary, Batch(s.lock.job), output)]);
      if Normalize(output) != "" {
        SummarizeKeeps(s.lock.job, s.disk, s.log, output);
      }
    case CommitBatch(stop) =>
      CommitKeeps(s.disk, s.log, s.lock.job, stop);
  }

  /** The steps of a refresh that is under way. */
  predicate IsRefreshStep(step: Step) {
    step.Summarize? || step.CommitBatch? || step.RefreshRaises?
  }

  lemma OneWorkerStep(s: Sys, step: Step)
    requires Safe(s) && Enabled(s, step)
    ensures OneWorker(Apply(s, step))
  {
    hide Remember, Reserve, Normalize, IsValid, MarkRefreshing, MarkRefreshFailed, MemoryOk, TargetsOk;
    if IsRefreshStep(step) {
      RefreshStepThreads(s, step);
    } else if step.Begin? {
      OneWorkerBegin(s, step.thread);
    }
  }

  lemma OneWorkerBegin(s: Sys, w: nat)
    requires Safe(s) && Enabled(s, Begin(w))
    ensures OneWorker(Apply(s, Begin(w)))
  {
    hide BeginRefresh, BuiltFrom, StateFileOk, SummaryFileOk, JobOk;
    assert InRange(s, s.workers[w].target);
    BeginKeeps(s.disk, s.log, false, Some(s.workers[w].target));
  }

  lemma ReleaseThreads(s: Sys, normally: bool)
    requires OneWorker(s) && s.lock.Held?
    ensures OneWorker(Release(s, normally))
    ensures TargetsOk(s) ==> TargetsOk(Release(s, normally))
  {
    var s' := Release(s, normally);
    if TargetsOk(s) {
      hide TargetsOk;
      TargetsKept(s, s');
    }
  }

  /** While a refresh is under way nothing but its own thread can move, and that only at its end. */
  lemma RefreshStepThreads(s: Sys, step: Step)
    requires OneWorker(s) && MemoryOk(s) && Enabled(s, step) && IsRefreshStep(step)
    ensures OneWorker(Apply(s, step))
    ensures TargetsOk(s) ==> TargetsOk(Apply(s, step))
  {
    hide Normalize, Commit, TargetsOk, JobOk, DiskOk, ReadState;
    MemoryStep(s, step);
    match step
    case RefreshRaises => ReleaseThreads(s, false);
    case Summarize(output) =>
      var logged := s.(log := s.log + [Call(s.lock.job.summary, Batch(s.lock.job), output)]);
      LogsAndWrites(s, logged);
      LogsAndWrites(s, Apply(s, step));
      ReleaseThreads(logged, false);
    case CommitBatch(stop) =>
      CommitKeeps(s.disk, s.log, s.lock.job, stop);
      var written := s.(disk := Commit(s.disk, s.lock.job, stop).value);
      LogsAndWrites(s, written);
      LogsAndWrites(s, written.(lock := Held(s.lock.owner, Advance(s.lock.job))));
      ReleaseThreads(written, !stop);
      ReleaseThreads(written, false);
  }

  lemma LogsAndWrites(s: Sys, s': Sys)
    requires OneWorker(s) && s.lock.Held?
    ensures var same := s'.(disk := s.disk, log := s.log, lock := s.lock);
            same == s && s'.lock.Held? && s'.lock.owner == s.lock.owner && s'.lock.job.target == s.lock.job.target
            ==> OneWorker(s')
    ensures var same := s'.(disk := s.disk, log := s.log, lock := s.lock);
            same == s && TargetsOk(s) && ReadState(s'.disk).lastAttempted == ReadState(s.disk).lastAttempted
            ==> TargetsOk(s')
  {
    hide ReadState;
  }

  /** Threads may move on or end, but no target appears or changes. */
  lemma TargetsKept(s: Sys, s': Sys)
    requires TargetsOk(s)
    requires ReadState(s.disk).lastAttempted <= ReadState(s'.disk).lastAttempted
    requires s'.attempts == s.attempts && s'.inFlight <= s.inFlight
    requires s'.pending == s.pending || s'.pending == None
    requires forall w :: w in s'.workers && !s'.workers[w].Starting? ==>
               w in s.workers && !s.workers[w].Starting? && s'.workers[w].target == s.workers[w].target
    ensures TargetsOk(s')
  {
    hide ReadState;
  }

  lemma TargetsStep(s: Sys, step: Step)
    requires Safe(s) && Enabled(s, step)
    ensures TargetsOk(Apply(s, step))
  {
    match step
    case ReserveTarget => TargetsReserve(s);
    case StoreTarget(target, thread) => TargetsStore(s, target, thread);
    case Pop(w) => TargetsPop(s, w);
    case Summarize(_) => RefreshStepThreads(s, step);
    case CommitBatch(_) => RefreshStepThreads(s, step);
    case RefreshRaises => RefreshStepThreads(s, step);
    case ProcessStop => TargetsStop(s);
    case _ => TargetsOther(s, step);
  }

  lemma TargetsStop(s: Sys)
    requires TargetsOk(s)
    ensures TargetsOk(Apply(s, ProcessStop))
  {
    hide ReadState;
  }

  lemma TargetsOther(s: Sys, step: Step)
    requires MemoryOk(s) && TargetsOk(s) && Enabled(s, step)
    requires step.RememberRun? || step.BeginManual? || step.Begin? || step.Mark? || step.WorkerRaises?
             || step.MarkFailed? || step.EndFailed? || step.EndReturned?
    ensures TargetsOk(Apply(s, step))
  {
    hide Remember, MarkRefreshing, MarkRefreshFailed, BeginRefresh, MemoryOk, TargetsOk, ReadState;
    MemoryStep(s, step);
    TargetsKept(s, Apply(s, step));
  }

  lemma TargetsReserve(s: Sys)
    requires Safe(s)
    ensures TargetsOk(Apply(s, ReserveTarget))
  {
    hide IsValid, SummaryFileOk;
    StateWriteKeeps(s.disk, s.log, ReadState(s.disk).(lastAttempted := |s.disk.records|, status := Scheduled));
  }

  lemma TargetsStore(s: Sys, target: nat, thread: nat)
    requires Safe(s) && Enabled(s, StoreTarget(target, thread))
    ensures TargetsOk(Apply(s, StoreTarget(target, thread)))
  {
    hide ReadState, MemoryOk;
  }

  lemma TargetsPop(s: Sys, w: nat)
    requires Safe(s) && Enabled(s, Pop(w))
    ensures TargetsOk(Apply(s, Pop(w)))
  {
    hide ReadState, MemoryOk;
  }

  lemma SafeStep(s: Sys, step: Step)
    requires Safe(s) && Enabled(s, step)
    ensures Safe(Apply(s, step))
  {
    MemoryStep(s, step);
    OneWorkerStep(s, step);
    TargetsStep(s, step);
  }

  lemma {:induction false} RunKeepsSafe(s: Sys, steps: seq<Step>)
    requires Safe(s) && IsRun(s, steps)
    ensures Safe(Final(s, steps))
    ensures s.disk.records <= Final(s, steps).disk.records
    decreases |steps|
  {
    hide Safe, MemoryOk;
    if steps != [] {
      assert Safe(Apply(s, steps[0])) && s.disk.records <= Apply(s, steps[0]).disk.records by {
        SafeStep(s, steps[0]);
        assert MemoryOk(s) by {
          SafeHasMemory(s);
        }
        MemoryStep(s, steps[0]);
      }
      RunKeepsSafe(Apply(s, steps[0]), steps[1..]);
    }
  }

  lemma SafeHasMemory(s: Sys)
    requires Safe(s)
    ensures MemoryOk(s)
  {
  }

  lemma InitialSafe()
    ensures Safe(INITIAL)
  {
    EmptyDiskOk();
  }

  // ----- main results: summaries -----

  /** Provenance. In every run, however steps interleave and wherever it stops, a summary accepted
      as valid with coverage `n` is the read-back text of a chain of real model calls whose batches
      of one to ten records are, one after the other, exactly the first `n` records. */
  lemma ValidSummaryProvenance(steps: seq<Step>) returns (calls: seq<Call>)
    requires IsRun(INITIAL, steps) && IsValid(Final(INITIAL, steps).disk)
    ensures var s := Final(INITIAL, steps);
            var n := ValidCoverage(s.disk);
            && 1 <= n <= |s.disk.records|
            && Chain(calls, s.disk.records[..n]) && Batches(calls) == s.disk.records[..n]
            && AllMade(calls, s.log)
            && ReadSummary(s.disk) == ReadBack(ChainText(calls)) != ""
  {
    hide Normalize, ReadBack, Chain, AllMade;
    InitialSafe();
    RunKeepsSafe(INITIAL, steps);
    var s := Final(INITIAL, steps);
    var n := ValidCoverage(s.disk);
    var text := s.disk.summaryFile.value.text;
    assert BuiltFrom(s.log, s.disk.records[..n], text);
    calls :| Chain(calls, s.disk.records[..n]) && AllMade(calls, s.log) && text == ChainText(calls);
    ChainPartitions(calls, s.disk.records[..n]);
  }

  /** The error "memory records changed before summary commit" is unreachable in every run: at the
      commit the log still has the batch that was summarized in the same place. */
  lemma CommitNeverRefused(steps: seq<Step>, stop: bool)
    requires IsRun(INITIAL, steps) && Enabled(Final(INITIAL, steps), CommitBatch(stop))
    ensures var s := Final(INITIAL, steps);
            var job := s.lock.job;
            && job.covered < NextCovered(job) <= job.target <= |job.snapshot|
            && NextCovered(job) <= |s.disk.records|
            && s.disk.records[job.covered..NextCovered(job)] == Batch(job)
            && Commit(s.disk, job, stop).Some?
  {
    hide Commit, BuiltFrom;
    InitialSafe();
    RunKeepsSafe(INITIAL, steps);
    var s := Final(INITIAL, steps);
    CommitKeeps(s.disk, s.log, s.lock.job, stop);
  }

  /** Outside a commit no step changes what the summary is trusted for. */
  lemma QuietSteps(s: Sys, step: Step)
    requires MemoryOk(s) && Enabled(s, step) && !step.CommitBatch?
    ensures ValidCoverage(Apply(s, step).disk) == ValidCoverage(s.disk)
    ensures ReadState(Apply(s, step).disk).covered == ReadState(s.disk).covered
  {
    hide Remember, Normalize, BuiltFrom, IsValid, ValidCoverage, SummaryFileOk, JobOk, BeginRefresh;
    match step
    case RememberRun(question, answer, runId, createdAt, stop) =>
      RememberKeeps(s.disk, s.log, question, answer, runId, createdAt, stop);
    case ReserveTarget =>
      StateWriteKeeps(s.disk, s.log, ReadState(s.disk).(lastAttempted := |s.disk.records|, status := Scheduled));
    case Mark(w) =>
      StateWriteKeeps(s.disk, s.log, ReadState(s.disk).(status := Refreshing));
    case MarkFailed(w) =>
      var failedAt := Some(Min(s.workers[w].target, |s.disk.records|));
      StateWriteKeeps(s.disk, s.log, ReadState(s.disk).(status := Failed, failedAt := failedAt));
    case _ =>
  }

  /** A refresh under way continues from the valid coverage, or it is a forced one before its first
      commit. */
  ghost predicate Continues(s: Sys) {
    s.lock.Held? ==> s.lock.job.covered == ValidCoverage(s.disk) || Restarts(s)
  }

  predicate Restarts(s: Sys) {
    s.lock.Held? && s.forced && s.lock.job.covered == 0
  }

  lemma ContinuesStep(s: Sys, step: Step)
    requires MemoryOk(s) && Continues(s) && Enabled(s, step)
    ensures Continues(Apply(s, step))
  {
    hide MemoryOk, Continues, Apply, ValidCoverage;
    match step
    case CommitBatch(stop) => ContinuesCommit(s, stop);
    case Begin(w) => ContinuesBegin(s, false, Some(s.workers[w].target), step);
    case BeginManual(force, goal) => ContinuesBegin(s, force, goal, step);
    case _ =>
      QuietSteps(s, step);
      ContinuesQuiet(s, step);
  }

  lemma ContinuesBegin(s: Sys, force: bool, goal: Option<nat>, step: Step)
    requires MemoryOk(s) && Continues(s) && Enabled(s, step)
    requires step == BeginManual(force, goal)
             || (!force && step.Begin? && goal == Some(s.workers[step.thread].target))
    ensures Continues(Apply(s, step))
  {
    hide BuiltFrom, BeginRefresh, ValidCoverage, SummaryFileOk, StateFileOk, JobOk;
    BeginKeeps(s.disk, s.log, force, goal);
  }

  lemma ContinuesCommit(s: Sys, stop: bool)
    requires MemoryOk(s) && Continues(s) && Enabled(s, CommitBatch(stop))
    ensures Continues(Apply(s, CommitBatch(stop)))
  {
    hide BuiltFrom, Commit, ValidCoverage, IsValid, SummaryFileOk, StateFileOk, JobOk;
    CommitKeeps(s.disk, s.log, s.lock.job, stop);
  }

  lemma ContinuesQuiet(s: Sys, step: Step)
    requires Continues(s) && Enabled(s, step) && !step.CommitBatch? && !step.Begin? && !step.BeginManual?
    requires ValidCoverage(Apply(s, step).disk) == ValidCoverage(s.disk)
    ensures Continues(Apply(s, step))
  {
    hide ValidCoverage, Remember, Reserve, MarkRefreshing, MarkRefreshFailed, Normalize, Batch;
  }

  lemma {:induction false} RunContinues(s: Sys, steps: seq<Step>)
    requires MemoryOk(s) && Continues(s) && IsRun(s, steps)
    ensures MemoryOk(Final(s, steps)) && Continues(Final(s, steps))
    decreases |steps|
  {
    hide MemoryOk, Continues, Apply;
    if steps != [] {
      MemoryStep(s, steps[0]);
      ContinuesStep(s, steps[0]);
      RunContinues(Apply(s, steps[0]), steps[1..]);
    }
  }

  /** The commits that lower the valid coverage: the first one of a forced refresh that ends below
      it; and with a stop between the two writes every commit, unless it is the first of a forced
      refresh and ends exactly at the valid coverage. */
  ghost predicate Lowers(s: Sys, stop: bool)
    requires s.lock.Held?
  {
    var first := Min(SOURCE_LIMIT, s.lock.job.target);
    && ValidCoverage(s.disk) > 0
    && if stop then !(Restarts(s) && first == ValidCoverage(s.disk))
       else Restarts(s) && first < ValidCoverage(s.disk)
  }

  /** Exactly when a step of a run lowers the valid coverage. Steps other than a commit do not
      change it. */
  lemma CoverageChange(steps: seq<Step>, step: Step)
    requires IsRun(INITIAL, steps) && Enabled(Final(INITIAL, steps), step)
    ensures var s := Final(INITIAL, steps);
            && (step.CommitBatch? ==>
                  (ValidCoverage(Apply(s, step).disk) < ValidCoverage(s.disk) <==> Lowers(s, step.stop)))
            && (!step.CommitBatch? ==> ValidCoverage(Apply(s, step).disk) == ValidCoverage(s.disk))
  {
    hide Apply, ReadSummary, MemoryOk, ValidCoverage;
    InitialSafe();
    SafeHasMemory(INITIAL);
    RunContinues(INITIAL, steps);
    var s := Final(INITIAL, steps);
    if step.CommitBatch? {
      CoverageCommit(s, step.stop);
      LowersMeans(s, step.stop);
    } else {
      QuietSteps(s, step);
    }
  }

  lemma LowersMeans(s: Sys, stop: bool)
    requires MemoryOk(s) && Continues(s) && Enabled(s, CommitBatch(stop))
    ensures var next := NextCovered(s.lock.job);
            var after := if !stop || next == ReadState(s.disk).covered then next else 0;
            after < ValidCoverage(s.disk) <==> Lowers(s, stop)
  {
    hide BuiltFrom, ValidCoverage, DiskOk, ReadState;
    ValidIsRecorded(s.disk);
  }

  ghost predicate NoForce(steps: seq<Step>) {
    forall i :: 0 <= i < |steps| ==> !(steps[i].BeginManual? && steps[i].force)
  }

  lemma {:induction false} NeverForced(s: Sys, steps: seq<Step>)
    requires IsRun(s, steps) && NoForce(steps) && !s.forced
    ensures !Final(s, steps).forced
    decreases |steps|
  {
    if steps != [] {
      ForcedStep(s, steps[0]);
      NeverForced(Apply(s, steps[0]), steps[1..]);
    }
  }

  lemma ForcedStep(s: Sys, step: Step)
    requires Enabled(s, step) && !(step.BeginManual? && step.force) && !s.forced
    ensures !Apply(s, step).forced
  {
    hide Remember, Reserve, MarkRefreshing, MarkRefreshFailed, Normalize, Batch, Commit, BeginRefresh;
  }

  /** Unless a refresh was forced, no commit that completes lowers the valid coverage, not even in a
      run with torn writes before it. */
  lemma OnlyForceLowers(steps: seq<Step>)
    requires IsRun(INITIAL, steps) && NoForce(steps) && Enabled(Final(INITIAL, steps), CommitBatch(false))
    ensures var s := Final(INITIAL, steps);
            ValidCoverage(s.disk) <= ValidCoverage(Apply(s, CommitBatch(false)).disk)
  {
    hide Apply, ValidCoverage;
    CoverageChange(steps, CommitBatch(false));
    NeverForced(INITIAL, steps);
  }

  lemma CoverageCommit(s: Sys, stop: bool)
    requires MemoryOk(s) && Enabled(s, CommitBatch(stop))
    ensures var after := ValidCoverage(Apply(s, CommitBatch(stop)).disk);
            var next := NextCovered(s.lock.job);
            if stop then after == if next == ReadState(s.disk).covered then next else 0
            else after == next
  {
    hide Normalize, BuiltFrom, Commit, IsValid;
    CommitKeeps(s.disk, s.log, s.lock.job, stop);
  }

  /** What a caller can tell before a refresh: its first commit lowers the valid coverage if and only
      if the refresh is forced and ten records, or its goal, fall short of that coverage; and with a
      stop between the two writes if and only if there is a valid coverage and the refresh is not a
      forced one whose first batch ends exactly there. */
  lemma RefreshLowers(s: Sys, force: bool, goal: Option<nat>, output: string, stop: bool)
    requires MemoryOk(s) && s.lock.Free? && Normalize(output) != ""
    requires BeginRefresh(s.disk, force, goal).Started?
    ensures var steps := [BeginManual(force, goal), Summarize(output), CommitBatch(stop)];
            var first := Min(SOURCE_LIMIT, Goal(s.disk.records, goal));
            var v := ValidCoverage(s.disk);
            && IsRun(s, steps)
            && (ValidCoverage(Final(s, steps).disk) < v <==>
                  v > 0 && if stop then !(force && first == v) else force && first < v)
  {
    hide Normalize, BuiltFrom, Commit, ReadSummary, ReadBack, SummaryFileOk, StateFileOk, BeginRefresh;
    hide ValidCoverage, ReadState;
    var begin, call, commit := BeginManual(force, goal), Summarize(output), CommitBatch(stop);
    BeginKeeps(s.disk, s.log, force, goal);
    MemoryStep(s, begin);
    var s1 := Apply(s, begin);
    MemoryStep(s1, call);
    var s2 := Apply(s1, call);
    CoverageCommit(s2, stop);
    ValidIsRecorded(s.disk);
    ThreeSteps(s, begin, call, commit);
  }

  lemma ThreeSteps(s: Sys, a: Step, b: Step, c: Step)
    requires Enabled(s, a) && Enabled(Apply(s, a), b) && Enabled(Apply(Apply(s, a), b), c)
    ensures IsRun(s, [a, b, c]) && Final(s, [a, b, c]) == Apply(Apply(Apply(s, a), b), c)
  {
    hide Apply, Enabled;
    assert [a, b, c][1..] == [b, c] && [b, c][1..] == [c] && [c][1..] == [];
    var s2 := Apply(Apply(s, a), b);
    assert IsRun(s2, [c]) && Final(s2, [c]) == Apply(s2, c);
  }

  /** Between calm steps: a recorded coverage is always a valid one, a refresh under way continues
      from it, and every attempt that returned normally is covered by it. */
  ghost predicate Calm(s: Sys) {
    && ReadState(s.disk).covered == ValidCoverage(s.disk)
    && (s.lock.Held? ==> s.lock.job.covered == ValidCoverage(s.disk))
    && (forall t :: t in s.succeeded ==> t <= ValidCoverage(s.disk))
  }

  lemma CalmStep(s: Sys, step: Step)
    requires Safe(s) && Calm(s) && Enabled(s, step) && IsCalm(step)
    ensures Calm(Apply(s, step))
    ensures ValidCoverage(s.disk) <= ValidCoverage(Apply(s, step).disk)
  {
    hide Calm, Safe, Apply, ValidCoverage;
    match step
    case Begin(w) => CalmBegin(s, w);
    case BeginManual(force, goal) => CalmManual(s, goal);
    case CommitBatch(stop) => CalmCommit(s);
    case _ =>
      SafeHasMemory(s);
      CalmOther(s, step);
  }

  lemma CalmManual(s: Sys, goal: Option<nat>)
    requires Safe(s) && Calm(s) && Enabled(s, BeginManual(false, goal))
    ensures Calm(Apply(s, BeginManual(false, goal))) && Apply(s, BeginManual(false, goal)).disk == s.disk
  {
    hide BuiltFrom, BeginRefresh, ValidCoverage, SummaryFileOk, StateFileOk, TargetsOk, OneWorker, ReadState, JobOk;
    BeginKeeps(s.disk, s.log, false, goal);
  }

  lemma CalmOther(s: Sys, step: Step)
    requires MemoryOk(s) && Calm(s) && Enabled(s, step)
    requires !step.Begin? && !step.BeginManual? && !step.CommitBatch?
    ensures Calm(Apply(s, step)) && ValidCoverage(Apply(s, step).disk) == ValidCoverage(s.disk)
  {
    hide Remember, Normalize, ValidCoverage, ReadState, MemoryOk;
    QuietSteps(s, step);
  }

  lemma CalmBegin(s: Sys, w: nat)
    requires Safe(s) && Calm(s) && Enabled(s, Begin(w))
    ensures Calm(Apply(s, Begin(w))) && Apply(s, Begin(w)).disk == s.disk
  {
    hide BuiltFrom, BeginRefresh, ValidCoverage, SummaryFileOk, StateFileOk, JobOk, OneWorker;
    WorkerTarget(s, w);
    BeginKeeps(s.disk, s.log, false, Some(s.workers[w].target));
  }

  /** A worker's target is a reserved number, so it is the goal of its refresh. */
  lemma WorkerTarget(s: Sys, w: nat)
    requires Safe(s) && w in s.workers && !s.workers[w].Starting?
    ensures 1 <= s.workers[w].target <= |s.disk.records|
    ensures Goal(s.disk.records, Some(s.workers[w].target)) == s.workers[w].target
  {
    hide MemoryOk, OneWorker;
    assert InRange(s, s.workers[w].target);
  }

  lemma CalmCommit(s: Sys)
    requires Safe(s) && Calm(s) && Enabled(s, CommitBatch(false))
    ensures var s' := Apply(s, CommitBatch(false));
            Calm(s') && ValidCoverage(s.disk) <= ValidCoverage(s'.disk)
  {
    hide Normalize, BuiltFrom, Commit, BeginRefresh, IsValid, ValidCoverage, SummaryFileOk, StateFileOk, TargetsOk;
    CommitKeeps(s.disk, s.log, s.lock.job, false);
    ValidIsRecorded(Apply(s, CommitBatch(false)).disk);
  }

  lemma ValidIsRecorded(d: Disk)
    ensures ValidCoverage(d) <= |d.records|
    ensures ValidCoverage(d) != 0 ==> ReadState(d).covered == ValidCoverage(d)
  {
    hide ReadSummary;
  }

  lemma {:induction false} CalmRunKeeps(s: Sys, steps: seq<Step>)
    requires Safe(s) && Calm(s) && IsRun(s, steps) && AllCalm(steps)
    ensures Safe(Final(s, steps)) && Calm(Final(s, steps))
    ensures ValidCoverage(s.disk) <= ValidCoverage(Final(s, steps).disk)
    decreases |steps|
  {
    hide Safe, Calm, ValidCoverage, IsCalm, Apply;
    if steps != [] {
      SafeStep(s, steps[0]);
      CalmStep(s, steps[0]);
      CalmRunKeeps(Apply(s, steps[0]), steps[1..]);
    }
  }

  /** Without a forced refresh and without a stop between the two writes the valid coverage never
      decreases and never exceeds the number of records: a run split anywhere, in any way. */
  lemma CoverageOnlyAdvances(before: seq<Step>, after: seq<Step>)
    requires IsRun(INITIAL, before) && AllCalm(before)
    requires IsRun(Final(INITIAL, before), after) && AllCalm(after)
    ensures var s := Final(INITIAL, before);
            var s' := Final(s, after);
            && ValidCoverage(s.disk) <= ValidCoverage(s'.disk) <= |s'.disk.records|
            && ReadState(s'.disk).covered == ValidCoverage(s'.disk)
  {
    hide Safe, ValidCoverage, ReadState;
    InitialSafe();
    EmptyDiskOk();
    InitialCalm();
    CalmRunKeeps(INITIAL, before);
    CalmRunKeeps(Final(INITIAL, before), after);
    ValidIsRecorded(Final(Final(INITIAL, before), after).disk);
  }

  lemma InitialCalm()
    ensures Calm(INITIAL)
  {
  }

  // ----- main results: the scheduler -----

  lemma {:induction false} DistinctInRange(s: seq<nat>, n: nat)
    requires forall i :: 0 <= i < |s| ==> 1 <= s[i] <= n
    requires forall i, j :: 0 <= i < j < |s| ==> s[i] != s[j]
    ensures |s| <= n
    decreases n
  {
    if s == [] {
      return;
    }
    assert 1 <= s[0] <= n;
    if exists k :: 0 <= k < |s| && s[k] == n {
      var k :| 0 <= k < |s| && s[k] == n;
      DistinctInRange(s[..k] + s[k + 1..], n - 1);
    } else {
      DistinctInRange(s, n - 1);
    }
  }

  /** Scheduler safety, in every run: at most one worker, a stored target always has a live worker
      that will pop it, no worker ever works for the default target 0, and every reserved sequence
      number is attempted at most once, so there are never more attempts than records. */
  lemma SchedulerSafety(steps: seq<Step>)
    requires IsRun(INITIAL, steps)
    ensures var s := Final(INITIAL, steps);
            && |s.workers| <= 1
            && (s.pending.Some? ==> s.running && s.workers != map[])
            && (s.running <==> s.workers != map[])
            && (forall i :: 0 <= i < |s.attempts| ==> 1 <= s.attempts[i] <= |s.disk.records|)
            && (forall i, j :: 0 <= i < j < |s.attempts| ==> s.attempts[i] != s.attempts[j])
            && |s.attempts| <= |s.disk.records|
  {
    hide MemoryOk;
    InitialSafe();
    RunKeepsSafe(INITIAL, steps);
    var s := Final(INITIAL, steps);
    DistinctInRange(s.attempts, |s.disk.records|);
    if s.workers != map[] {
      var w :| w in s.workers;
      assert s.workers.Keys == {w};
      assert |s.workers| == |s.workers.Keys|;
    }
  }

  /** Of the targets beyond `base`: whoever is done with an attempt has a recorded outcome, and the
      greatest one reserved is still on its way or has been attempted. */
  ghost predicate NothingLost(s: Sys, base: nat) {
    var greatest := ReadState(s.disk).lastAttempted;
    && (greatest <= base || greatest in s.inFlight || s.pending == Some(greatest) || greatest in s.attempts)
    && (forall i :: 0 <= i < |s.attempts| && s.attempts[i] > base ==>
          || s.attempts[i] in s.succeeded || s.attempts[i] in s.failed
          || exists w :: w in s.workers && !s.workers[w].Starting? && s.workers[w].target == s.attempts[i])
    && (forall w :: w in s.workers && s.workers[w].Returned? ==> s.workers[w].target in s.succeeded)
    && (forall w :: w in s.workers && s.workers[w].FailureMarked? ==> s.workers[w].target in s.failed)
  }

  /** Attempts stay accounted for when threads move on without giving up a target unrecorded. */
  lemma LostKept(s: Sys, s': Sys, base: nat)
    requires NothingLost(s, base)
    requires ReadState(s.disk).lastAttempted == ReadState(s'.disk).lastAttempted
    requires s'.attempts == s.attempts && s'.inFlight == s.inFlight && s'.pending == s.pending
    requires s.succeeded <= s'.succeeded && s.failed <= s'.failed
    requires forall w :: w in s.workers && !s.workers[w].Starting? ==>
               || (w in s'.workers && !s'.workers[w].Starting? && s'.workers[w].target == s.workers[w].target)
               || s.workers[w].target in s'.succeeded || s.workers[w].target in s'.failed
    requires forall w :: w in s'.workers && s'.workers[w].Returned? ==> s'.workers[w].target in s'.succeeded
    requires forall w :: w in s'.workers && s'.workers[w].FailureMarked? ==> s'.workers[w].target in s'.failed
    ensures NothingLost(s', base)
  {
    hide ReadState;
    forall i | 0 <= i < |s'.attempts| && s'.attempts[i] > base
      ensures || s'.attempts[i] in s'.succeeded || s'.attempts[i] in s'.failed
              || exists w :: w in s'.workers && !s'.workers[w].Starting? && s'.workers[w].target == s'.attempts[i]
    {
      if s.attempts[i] !in s.succeeded && s.attempts[i] !in s.failed {
        var w :| w in s.workers && !s.workers[w].Starting? && s.workers[w].target == s.attempts[i];
      }
    }
  }

  lemma ReleaseLost(s: Sys, normally: bool, base: nat)
    requires NothingLost(s, base) && s.lock.Held?
    ensures NothingLost(Release(s, normally), base)
  {
    LostKept(s, Release(s, normally), base);
  }

  lemma LostStep(s: Sys, step: Step, base: nat)
    requires Safe(s) && NothingLost(s, base) && Enabled(s, step) && !step.ProcessStop?
    ensures NothingLost(Apply(s, step), base)
  {
    match step
    case ReserveTarget => LostReserve(s, base);
    case StoreTarget(target, thread) => LostStore(s, target, thread, base);
    case Pop(w) => LostPop(s, w, base);
    case EndFailed(w) => LostEndFailed(s, w, base);
    case Summarize(_) => LostRefresh(s, step, base);
    case CommitBatch(_) => LostRefresh(s, step, base);
    case RefreshRaises => LostRefresh(s, step, base);
    case ProcessStop =>
    case _ => LostOther(s, step, base);
  }

  lemma LostOther(s: Sys, step: Step, base: nat)
    requires Safe(s) && NothingLost(s, base) && Enabled(s, step)
    requires step.RememberRun? || step.BeginManual? || step.Begin? || step.Mark? || step.WorkerRaises?
             || step.MarkFailed? || step.EndReturned?
    ensures NothingLost(Apply(s, step), base)
  {
    hide Remember, IsValid, MarkRefreshing, MarkRefreshFailed, BeginRefresh, MemoryOk, TargetsOk, ReadState;
    MemoryStep(s, step);
    LostKept(s, Apply(s, step), base);
  }

  lemma LostRefresh(s: Sys, step: Step, base: nat)
    requires MemoryOk(s) && NothingLost(s, base) && Enabled(s, step) && IsRefreshStep(step)
    ensures NothingLost(Apply(s, step), base)
  {
    hide Normalize, Commit, JobOk, DiskOk, ReadState, NothingLost;
    MemoryStep(s, step);
    match step
    case RefreshRaises => ReleaseLost(s, false, base);
    case Summarize(output) =>
      var logged := s.(log := s.log + [Call(s.lock.job.summary, Batch(s.lock.job), output)]);
      LostFrame(s, logged, base);
      LostFrame(s, Apply(s, step), base);
      ReleaseLost(logged, false, base);
    case CommitBatch(stop) =>
      CommitKeeps(s.disk, s.log, s.lock.job, stop);
      var written := s.(disk := Commit(s.disk, s.lock.job, stop).value);
      LostFrame(s, written, base);
      LostFrame(s, Apply(s, step), base);
      ReleaseLost(written, !stop, base);
      ReleaseLost(written, false, base);
  }

  lemma LostFrame(s: Sys, s': Sys, base: nat)
    requires NothingLost(s, base)
    ensures s'.(disk := s.disk, log := s.log, lock := s.lock) == s
            && ReadState(s'.disk).lastAttempted == ReadState(s.disk).lastAttempted
            ==> NothingLost(s', base)
  {
    hide ReadState;
  }

  lemma LostReserve(s: Sys, base: nat)
    requires Safe(s) && NothingLost(s, base)
    ensures NothingLost(Apply(s, ReserveTarget), base)
  {
    hide IsValid, SummaryFileOk;
    StateWriteKeeps(s.disk, s.log, ReadState(s.disk).(lastAttempted := |s.disk.records|, status := Scheduled));
  }

  lemma LostStore(s: Sys, target: nat, thread: nat, base: nat)
    requires Safe(s) && NothingLost(s, base) && Enabled(s, StoreTarget(target, thread))
    ensures NothingLost(Apply(s, StoreTarget(target, thread)), base)
  {
    hide ReadState, MemoryOk;
  }

  lemma LostPop(s: Sys, w: nat, base: nat)
    requires Safe(s) && NothingLost(s, base) && Enabled(s, Pop(w))
    ensures NothingLost(Apply(s, Pop(w)), base)
  {
    hide ReadState, MemoryOk;
    var s' := Apply(s, Pop(w));
    forall i | 0 <= i < |s.attempts| && s.attempts[i] > base
      ensures s'.attempts[i] in s'.succeeded || s'.attempts[i] in s'.failed
    {
    }
  }

  /** A failing worker drops a stored target only if it is not the greatest reserved one. */
  lemma LostEndFailed(s: Sys, w: nat, base: nat)
    requires Safe(s) && NothingLost(s, base) && Enabled(s, EndFailed(w))
    ensures NothingLost(Apply(s, EndFailed(w)), base)
  {
    hide ReadState, MemoryOk;
    assert s.workers[w].target in s.attempts;
  }

  lemma {:induction false} LostRun(s: Sys, steps: seq<Step>, base: nat)
    requires Safe(s) && NothingLost(s, base) && IsRun(s, steps) && NoProcessStop(steps)
    ensures Safe(Final(s, steps)) && NothingLost(Final(s, steps), base)
    decreases |steps|
  {
    hide Safe, NothingLost, Apply;
    if steps != [] {
      SafeStep(s, steps[0]);
      LostStep(s, steps[0], base);
      LostRun(Apply(s, steps[0]), steps[1..], base);
    }
  }

  /** What it means that an attempt ended: when it returned normally the valid coverage had reached
      its target, and when it failed the failure was recorded at its target. */
  lemma OutcomeMeaning(s: Sys, step: Step, target: nat)
    requires Safe(s) && Enabled(s, step)
    ensures target in Apply(s, step).succeeded && target !in s.succeeded
            ==> ValidCoverage(Apply(s, step).disk) >= target
    ensures target in Apply(s, step).failed && target !in s.failed
            ==> ReadState(Apply(s, step).disk).failedAt == Some(target)
  {
    hide ValidCoverage, ReadState, Safe;
    match step
    case Begin(w) => OutcomeBegin(s, w, target);
    case CommitBatch(stop) => OutcomeCommit(s, stop, target);
    case MarkFailed(w) => OutcomeFailed(s, w);
    case _ =>
      hide Remember, Normalize;
  }

  lemma OutcomeBegin(s: Sys, w: nat, target: nat)
    requires Safe(s) && Enabled(s, Begin(w))
    ensures var s' := Apply(s, Begin(w));
            && s'.failed == s.failed
            && (target in s'.succeeded && target !in s.succeeded ==> ValidCoverage(s'.disk) >= target)
  {
    hide BuiltFrom, BeginRefresh, ValidCoverage, SummaryFileOk, StateFileOk, JobOk, OneWorker;
    WorkerTarget(s, w);
    BeginKeeps(s.disk, s.log, false, Some(s.workers[w].target));
  }

  /** An attempt for a target that is covered already ends at once, without a model call and without
      touching the disk. */
  lemma CoveredTargetIsFree(s: Sys, w: nat)
    requires Safe(s) && Enabled(s, Begin(w)) && s.workers[w].target <= ValidCoverage(s.disk)
    ensures var target := s.workers[w].target;
            Apply(s, Begin(w)) == s.(workers := s.workers[w := Returned(target)], succeeded := s.succeeded + {target})
  {
    hide BuiltFrom, BeginRefresh, ValidCoverage, SummaryFileOk, StateFileOk, OneWorker;
    WorkerTarget(s, w);
    BeginKeeps(s.disk, s.log, false, Some(s.workers[w].target));
  }

  lemma OutcomeCommit(s: Sys, stop: bool, target: nat)
    requires Safe(s) && Enabled(s, CommitBatch(stop))
    ensures var s' := Apply(s, CommitBatch(stop));
            && s'.failed == s.failed
            && (target in s'.succeeded && target !in s.succeeded ==> ValidCoverage(s'.disk) >= target)
  {
    hide BuiltFrom, Commit, ValidCoverage, IsValid, SummaryFileOk, StateFileOk, TargetsOk;
    CommitKeeps(s.disk, s.log, s.lock.job, stop);
  }

  lemma OutcomeFailed(s: Sys, w: nat)
    requires Safe(s) && Enabled(s, MarkFailed(w))
    ensures var s' := Apply(s, MarkFailed(w));
            var target := s.workers[w].target;
            && s'.succeeded == s.succeeded && s'.failed == s.failed + {target}
            && ReadState(s'.disk).failedAt == Some(target)
  {
    hide MemoryOk, OneWorker, TargetsOk;
    WorkerTarget(s, w);
  }

  /** No worker runs, and no schedule() call is between its two halves. */
  ghost predicate AtRest(s: Sys) {
    s.workers == map[] && s.inFlight == {}
  }

  /** No lost refresh. From any state at rest of a run (the initial one, or the one after a process stop,
      or any other) to any later one without a process stop in between: if a target was
      reserved meanwhile, the greatest one was itself attempted, and that attempt ended by returning
      or by a recorded failure; if moreover the run was calm and it returned, the summary now covers
      it. Late smaller targets do not matter. */
  lemma NoLostRefresh(before: seq<Step>, after: seq<Step>)
    requires IsRun(INITIAL, before) && AtRest(Final(INITIAL, before))
    requires IsRun(Final(INITIAL, before), after) && NoProcessStop(after)
    requires AtRest(Final(Final(INITIAL, before), after))
    ensures var s := Final(Final(INITIAL, before), after);
            var greatest := ReadState(s.disk).lastAttempted;
            && s.pending.None?
            && (greatest > ReadState(Final(INITIAL, before).disk).lastAttempted ==>
                  greatest in s.attempts && (greatest in s.succeeded || greatest in s.failed))
            && (AllCalm(before) && AllCalm(after) && greatest in s.succeeded ==> greatest <= ValidCoverage(s.disk))
  {
    hide MemoryOk, TargetsOk, ReadState, ValidCoverage;
    InitialSafe();
    RunKeepsSafe(INITIAL, before);
    var start := Final(INITIAL, before);
    var base := ReadState(start.disk).lastAttempted;
    RestLost(start);
    LostRun(start, after, base);
    if AllCalm(before) && AllCalm(after) {
      InitialCalm();
      CalmRunKeeps(INITIAL, before);
      CalmRunKeeps(start, after);
    }
  }

  lemma RestLost(s: Sys)
    requires Safe(s) && AtRest(s)
    ensures NothingLost(s, ReadState(s.disk).lastAttempted)
  {
    hide MemoryOk, ReadState;
    assert forall i :: 0 <= i < |s.attempts| ==> InRange(s, s.attempts[i]);
  }

  /** The initial state and every state after a process stop are at rest. */
  lemma RestStates(s: Sys)
    ensures AtRest(INITIAL) && AtRest(Apply(s, ProcessStop))
  {
  }

  /** A number that was reserved and is neither attempted nor on its way. */
  ghost predicate Lost(s: Sys, target: nat) {
    && InRange(s, target) && target !in s.inFlight && s.pending != Some(target) && target !in s.attempts
  }

  lemma StopLoses(s: Sys, target: nat)
    requires InRange(s, target) && target !in s.attempts
    ensures Lost(Apply(s, ProcessStop), target)
  {
    hide ReadState;
  }

  lemma LostStays(s: Sys, step: Step, target: nat)
    requires MemoryOk(s) && OneWorker(s) && Lost(s, target) && Enabled(s, step)
    ensures Lost(Apply(s, step), target)
  {
    hide MemoryOk, Remember, MarkRefreshing, MarkRefreshFailed, BeginRefresh, Commit, Normalize, Batch, ReadState;
    MemoryStep(s, step);
    if step.ReserveTarget? {
      ReserveNew(s.disk);
    }
  }

  lemma ReserveNew(d: Disk)
    ensures Reserve(d).1.Some? ==> Reserve(d).1.value > ReadState(d).lastAttempted
  {
  }

  /** A process stop loses every reserved target that was not popped yet, for good: no run that
      follows ever attempts it. Only a newer record gives rise to a new attempt. */
  lemma {:induction false} LostForGood(s: Sys, target: nat, steps: seq<Step>)
    requires Safe(s) && Lost(s, target) && IsRun(s, steps)
    ensures target !in Final(s, steps).attempts
    decreases |steps|
  {
    hide Safe, Lost, Apply;
    if steps == [] {
      assert target !in s.attempts by { LostMeans(s, target); }
    } else {
      SafeStep(s, steps[0]);
      assert MemoryOk(s) && OneWorker(s) by { SafeParts(s); }
      LostStays(s, steps[0], target);
      LostForGood(Apply(s, steps[0]), target, steps[1..]);
    }
  }

  lemma LostMeans(s: Sys, target: nat)
    requires Lost(s, target)
    ensures target !in s.attempts
  {
  }

  lemma SafeParts(s: Sys)
    requires Safe(s)
    ensures MemoryOk(s) && OneWorker(s)
  {
  }

  // ----- a worker that goes on after a success -----

  /** The code goes on for any stored target. That differs from going on for a larger one only, if
      and only if the stored target is smaller than the one just done; and in a calm run a smaller
      one is covered already. */
  lemma GoesOnExactly(steps: seq<Step>, w: nat)
    requires IsRun(INITIAL, steps) && Enabled(Final(INITIAL, steps), EndReturned(w))
    ensures var s := Final(INITIAL, steps);
            var goesOn := w in Apply(s, EndReturned(w)).workers;
            var larger := s.pending.Some? && s.pending.value > s.workers[w].target;
            var smaller := s.pending.Some? && s.pending.value < s.workers[w].target;
            && (goesOn <==> s.pending.Some?)
            && (goesOn != larger <==> smaller)
            && (AllCalm(steps) && smaller ==> s.pending.value <= ValidCoverage(s.disk))
  {
    hide MemoryOk, ReadState, ValidCoverage;
    InitialSafe();
    RunKeepsSafe(INITIAL, steps);
    ReturnedRun(INITIAL, steps);
    if AllCalm(steps) {
      InitialCalm();
      CalmRunKeeps(INITIAL, steps);
    }
  }

  /** In a calm run the attempt for such a smaller target ends at once, without a model call and
      without touching the disk, whatever happens in between. */
  lemma SmallerTargetIsFree(before: seq<Step>, w: nat, after: seq<Step>, w': nat)
    requires IsRun(INITIAL, before) && AllCalm(before) && Enabled(Final(INITIAL, before), EndReturned(w))
    requires var s := Final(INITIAL, before); s.pending.Some? && s.pending.value < s.workers[w].target
    requires IsRun(Final(INITIAL, before), after) && AllCalm(after)
    requires Enabled(Final(Final(INITIAL, before), after), Begin(w'))
    requires Final(Final(INITIAL, before), after).workers[w'].target == Final(INITIAL, before).pending.value
    ensures var s := Final(Final(INITIAL, before), after);
            var target := s.workers[w'].target;
            Apply(s, Begin(w')) == s.(workers := s.workers[w' := Returned(target)], succeeded := s.succeeded + {target})
  {
    hide Safe, ValidCoverage, Apply;
    InitialSafe();
    InitialCalm();
    GoesOnExactly(before, w);
    CalmRunKeeps(INITIAL, before);
    CalmRunKeeps(Final(INITIAL, before), after);
    CoveredTargetIsFree(Final(Final(INITIAL, before), after), w');
  }

  /** After a failure the worker goes on if and only if a target beyond the failed one is stored, and
      otherwise nothing stays stored: only a newer record unlocks another attempt. */
  lemma FailureEnds(steps: seq<Step>, w: nat)
    requires IsRun(INITIAL, steps) && Enabled(Final(INITIAL, steps), EndFailed(w))
    ensures var s, s' := Final(INITIAL, steps), Apply(Final(INITIAL, steps), EndFailed(w));
            && (w in s'.workers <==> s.pending.Some? && s.pending.value > s.workers[w].target)
            && s'.pending == (if w in s'.workers then s.pending else None)
            && (s'.running <==> w in s'.workers) && s'.workers.Keys == if w in s'.workers then {w} else {}
  {
    hide MemoryOk, TargetsOk;
    InitialSafe();
    RunKeepsSafe(INITIAL, steps);
  }

  /** A worker that returned is on record as having succeeded. */
  ghost predicate ReturnedOk(s: Sys) {
    forall w :: w in s.workers && s.workers[w].Returned? ==> s.workers[w].target in s.succeeded
  }

  lemma ReturnedStep(s: Sys, step: Step)
    requires ReturnedOk(s) && Enabled(s, step)
    ensures ReturnedOk(Apply(s, step))
  {
    hide Remember, Reserve, MarkRefreshing, MarkRefreshFailed, BeginRefresh, Commit, Normalize, Batch;
  }

  lemma {:induction false} ReturnedRun(s: Sys, steps: seq<Step>)
    requires ReturnedOk(s) && IsRun(s, steps)
    ensures ReturnedOk(Final(s, steps))
    decreases |steps|
  {
    hide ReturnedOk, Apply;
    if steps != [] {
      ReturnedStep(s, steps[0]);
      ReturnedRun(Apply(s, steps[0]), steps[1..]);
    }
  }

  /** Continuity. Once a run was remembered, whatever happens afterwards: its record stays where it
      was put, and every context loaded later shows the trusted summary covering it or, while fewer
      than four records are newer, its question and its answer. */
  lemma Continuity(before: seq<Step>, remember: Step, after: seq<Step>, text: string)
    requires IsRun(INITIAL, before)
    requires remember.RememberRun? && !Blank(remember.question)
    requires IsRun(Apply(Final(INITIAL, before), remember), after)
    requires IsContext(Final(Apply(Final(INITIAL, before), remember), after).disk, text)
    ensures var i := |Final(INITIAL, before).disk.records|;
            var d := Final(Apply(Final(INITIAL, before), remember), after).disk;
            && i < |d.records|
            && d.records[i] == Record(i + 1, remember.runId, remember.createdAt, remember.question, remember.answer)
            && (|| (i < ValidCoverage(d) && Contains(text, ReadSummary(d)))
                || i < |d.records| - 4
                || ShowsExchange(text, remember.question, remember.answer))
  {
    hide Safe, IsContext, ReadSummary, Entry, Contains, Blank, Remember, ShowsExchange, IsValid;
    InitialSafe();
    RunKeepsSafe(INITIAL, before);
    var s := Final(INITIAL, before);
    SafeHasMemory(s);
    RememberKeeps(s.disk, s.log, remember.question, remember.answer, remember.runId, remember.createdAt, remember.stop);
    SafeStep(s, remember);
    var s1 := Apply(s, remember);
    RunKeepsSafe(s1, after);
    var d := Final(s1, after).disk;
    assert d.records[|s.disk.records|] == s1.disk.records[|s.disk.records|];
    ContextShows(d, text, |s.disk.records|);
    ValidIsRecorded(d);
  }
}
