/** When a refresh is reserved, what a refresh covers, and what the refresh status says: over runs, and
    in terms of the records alone. */
module MemoryRules {
  import opened Common
  import opened Text
  import opened MemoryRecords
  import opened MemoryDisk
  import opened MemoryProtocol

  // ----- reservation -----

  /** A recorded failure is always that of a reserved target. */
  ghost predicate FailureAttempted(s: Sys) {
    var st := ReadState(s.disk);
    st.failedAt.Some? ==> st.failedAt.value <= st.lastAttempted
  }

  lemma FailureStep(s: Sys, step: Step)
    requires Safe(s) && FailureAttempted(s) && Enabled(s, step)
    ensures FailureAttempted(Apply(s, step))
  {
    hide OneWorker, TargetsOk, Remember;
    match step
    case RememberRun(question, answer, runId, createdAt, stop) =>
      hide ReadState;
      RememberKeeps(s.disk, s.log, question, answer, runId, createdAt, stop);
    case MarkFailed(w) => FailureMark(s, w);
    case CommitBatch(stop) => FailureCommit(s, stop);
    case ReserveTarget =>
    case Mark(w) =>
    case _ => FailureQuiet(s, step);
  }

  lemma FailureCommit(s: Sys, stop: bool)
    requires Safe(s) && FailureAttempted(s) && Enabled(s, CommitBatch(stop))
    ensures FailureAttempted(Apply(s, CommitBatch(stop)))
  {
    hide BuiltFrom, Commit, DiskOk, JobOk, OneWorker, TargetsOk, ReadState, IsValid;
    CommitKeeps(s.disk, s.log, s.lock.job, stop);
  }

  lemma FailureMark(s: Sys, w: nat)
    requires Safe(s) && FailureAttempted(s) && Enabled(s, MarkFailed(w))
    ensures FailureAttempted(Apply(s, MarkFailed(w)))
  {
    hide MemoryOk, OneWorker;
    WorkerTarget(s, w);
    assert InRange(s, s.workers[w].target);
  }

  lemma FailureQuiet(s: Sys, step: Step)
    requires FailureAttempted(s) && Enabled(s, step) && !step.RememberRun? && !step.ReserveTarget? && !step.Mark?
    requires !step.MarkFailed? && !step.CommitBatch?
    ensures FailureAttempted(Apply(s, step))
  {
    hide Normalize, BeginRefresh, ReadState;
  }

  lemma {:induction false} RunFailureAttempted(s: Sys, steps: seq<Step>)
    requires Safe(s) && FailureAttempted(s) && IsRun(s, steps)
    ensures Safe(Final(s, steps)) && FailureAttempted(Final(s, steps))
    decreases |steps|
  {
    hide Safe, FailureAttempted, Apply;
    if steps != [] {
      SafeStep(s, steps[0]);
      FailureStep(s, steps[0]);
      RunFailureAttempted(Apply(s, steps[0]), steps[1..]);
    }
  }

  /** Exactly when an automatic refresh is reserved: the newest record is neither covered nor was it
      reserved before; a recorded failure adds nothing to that. Exactly its number is put in flight,
      and otherwise nothing changes. */
  lemma ReserveExactly(steps: seq<Step>)
    requires IsRun(INITIAL, steps)
    ensures var s, s' := Final(INITIAL, steps), Apply(Final(INITIAL, steps), ReserveTarget);
            var st, count := ReadState(s.disk), |s.disk.records|;
            if st.covered < count && st.lastAttempted < count then
              && s'.inFlight == s.inFlight + {count} && count !in s.inFlight
              && ReadState(s'.disk) == st.(lastAttempted := count, status := Scheduled)
            else s' == s
  {
    InitialSafe();
    RunFailureAttempted(INITIAL, steps);
    hide MemoryOk, OneWorker;
  }

  /** Right after a run was remembered, whatever was covered, attempted or failed before, its record is
      the one that is reserved. */
  lemma NewRecordIsReserved(steps: seq<Step>, remember: Step)
    requires IsRun(INITIAL, steps) && remember.RememberRun? && !Blank(remember.question)
    ensures var s := Final(INITIAL, steps);
            var s' := Apply(Apply(s, remember), ReserveTarget);
            var count := |s.disk.records| + 1;
            && |s'.disk.records| == count && count !in s.inFlight && s'.inFlight == s.inFlight + {count}
            && ReadState(s'.disk).lastAttempted == count
  {
    hide Remember, Blank;
    InitialSafe();
    RunKeepsSafe(INITIAL, steps);
    var s := Final(INITIAL, steps);
    RememberKeeps(s.disk, s.log, remember.question, remember.answer, remember.runId, remember.createdAt, remember.stop);
    assert s.disk.stateFile.Some? && s.disk.stateFile.value.failedAt.Some? ==>
        s.disk.stateFile.value.failedAt.value <= |s.disk.records|;
    assert forall t :: t in s.inFlight ==> InRange(s, t);
  }

  /** Once a number was reserved, no further reservation changes anything until there is a new record. */
  lemma NoSecondReservation(before: seq<Step>, after: seq<Step>)
    requires IsRun(INITIAL, before) && IsRun(Apply(Final(INITIAL, before), ReserveTarget), after)
    requires Apply(Final(INITIAL, before), ReserveTarget) != Final(INITIAL, before)
    requires |Final(Apply(Final(INITIAL, before), ReserveTarget), after).disk.records|
             == |Final(INITIAL, before).disk.records|
    ensures var s := Final(Apply(Final(INITIAL, before), ReserveTarget), after);
            Apply(s, ReserveTarget) == s
  {
    hide Safe;
    InitialSafe();
    RunKeepsSafe(INITIAL, before);
    ReserveExactly(before);
    var s1 := Apply(Final(INITIAL, before), ReserveTarget);
    SafeStep(Final(INITIAL, before), ReserveTarget);
    AttemptedGrows(s1, after);
  }

  lemma {:induction false} AttemptedGrows(s: Sys, steps: seq<Step>)
    requires Safe(s) && IsRun(s, steps)
    ensures ReadState(s.disk).lastAttempted <= ReadState(Final(s, steps).disk).lastAttempted
    decreases |steps|
  {
    hide Safe, Apply, ReadState;
    if steps != [] {
      assert MemoryOk(s) by { SafeHasMemory(s); }
      MemoryStep(s, steps[0]);
      SafeStep(s, steps[0]);
      AttemptedGrows(Apply(s, steps[0]), steps[1..]);
    }
  }

  // ----- what a refresh covers -----

  /** The same refresh holds the summary lock all the time. */
  ghost predicate Holds(s: Sys, steps: seq<Step>)
    requires IsRun(s, steps)
    decreases |steps|
  {
    s.lock.Held? && (steps == [] || Holds(Apply(s, steps[0]), steps[1..]))
  }

  lemma TargetStays(s: Sys, step: Step)
    requires Enabled(s, step) && s.lock.Held? && Apply(s, step).lock.Held?
    ensures Apply(s, step).lock.job.target == s.lock.job.target
  {
    hide Remember, Reserve, MarkRefreshing, MarkRefreshFailed, Normalize, Commit, Batch;
  }

  lemma {:induction false} TargetHolds(s: Sys, steps: seq<Step>)
    requires IsRun(s, steps) && Holds(s, steps)
    ensures Final(s, steps).lock.Held? && Final(s, steps).lock.job.target == s.lock.job.target
    decreases |steps|
  {
    hide Apply;
    if steps != [] {
      TargetStays(s, steps[0]);
      TargetHolds(Apply(s, steps[0]), steps[1..]);
    }
  }

  /** A refresh called by hand, from its begin to the commit with which it ends, whatever other threads
      do meanwhile: it covers all records there were, or its target if that is one of them. */
  lemma ManualRefreshCovers(before: seq<Step>, force: bool, target: Option<nat>, during: seq<Step>)
    requires IsRun(INITIAL, before) && Final(INITIAL, before).lock.Free?
    requires var s1 := Apply(Final(INITIAL, before), BeginManual(force, target));
             IsRun(s1, during) && Holds(s1, during)
             && Enabled(Final(s1, during), CommitBatch(false))
             && Apply(Final(s1, during), CommitBatch(false)).lock.Free?
    ensures var s1 := Apply(Final(INITIAL, before), BeginManual(force, target));
            var end := Apply(Final(s1, during), CommitBatch(false));
            Aims(|Final(INITIAL, before).disk.records|, target, ValidCoverage(end.disk))
  {
    hide Safe, ValidCoverage, Aims, Apply, Enabled;
    InitialSafe();
    RunKeepsSafe(INITIAL, before);
    var s := Final(INITIAL, before);
    assert Enabled(s, BeginManual(force, target)) by { FreeBegins(s, force, target); }
    var s1 := Apply(s, BeginManual(force, target));
    SafeStep(s, BeginManual(force, target));
    ManualBegin(s, force, target);
    RunKeepsSafe(s1, during);
    TargetHolds(s1, during);
    LastCommit(Final(s1, during));
  }

  lemma FreeBegins(s: Sys, force: bool, target: Option<nat>)
    requires s.lock.Free?
    ensures Enabled(s, BeginManual(force, target))
  {
  }

  /** If it finds nothing to do, there are no records, or it was not forced and what it aims at is
      covered already; and nothing has changed. */
  lemma ManualBegin(s: Sys, force: bool, target: Option<nat>)
    requires Safe(s) && s.lock.Free?
    ensures var s1 := Apply(s, BeginManual(force, target));
            if s1.lock.Held? then Aims(|s.disk.records|, target, s1.lock.job.target)
            else
              && s1 == s
              && (s.disk.records == [] || (!force && AimReached(|s.disk.records|, target, ValidCoverage(s.disk))))
  {
    hide ValidCoverage, Goal, Aims, AimReached, BeginRefresh, DiskOk, OneWorker, TargetsOk;
    BeginKeeps(s.disk, s.log, force, target);
    GoalAims(s.disk.records, target);
  }

  lemma LastCommit(s: Sys)
    requires Safe(s) && Enabled(s, CommitBatch(false)) && Apply(s, CommitBatch(false)).lock.Free?
    ensures ValidCoverage(Apply(s, CommitBatch(false)).disk) == s.lock.job.target
  {
    hide BuiltFrom, Commit, ValidCoverage, DiskOk, OneWorker, TargetsOk;
    CommitKeeps(s.disk, s.log, s.lock.job, false);
  }

  // ----- the refresh status -----

  /** Unless a run was remembered with a stop before its state write, the status "idle" means that all
      records are covered. */
  ghost predicate IdleIsCovered(s: Sys) {
    ReadState(s.disk).status == Idle ==> ReadState(s.disk).covered == |s.disk.records|
  }

  lemma IdleStep(s: Sys, step: Step)
    requires Safe(s) && IdleIsCovered(s) && Enabled(s, step)
    requires !(step.RememberRun? && step.stop)
    ensures IdleIsCovered(Apply(s, step))
  {
    match step
    case CommitBatch(stop) => IdleCommit(s, stop);
    case RememberRun(_, _, _, _, _) =>
      hide Strip;
    case ReserveTarget =>
    case Mark(_) =>
    case MarkFailed(_) =>
    case _ => IdleQuiet(s, step);
  }

  lemma IdleCommit(s: Sys, stop: bool)
    requires Safe(s) && IdleIsCovered(s) && Enabled(s, CommitBatch(stop))
    ensures IdleIsCovered(Apply(s, CommitBatch(stop)))
  {
    hide BuiltFrom, Commit, DiskOk, OneWorker, TargetsOk, ReadState, IsValid;
    CommitKeeps(s.disk, s.log, s.lock.job, stop);
    if !stop {
      ValidIsRecorded(Apply(s, CommitBatch(stop)).disk);
    }
  }

  lemma IdleQuiet(s: Sys, step: Step)
    requires IdleIsCovered(s) && Enabled(s, step) && !step.RememberRun? && !step.ReserveTarget? && !step.Mark?
    requires !step.MarkFailed? && !step.CommitBatch?
    ensures IdleIsCovered(Apply(s, step))
  {
    hide Normalize, BeginRefresh, ReadState;
  }

  lemma {:induction false} IdleMeansCovered(s: Sys, steps: seq<Step>)
    requires Safe(s) && IdleIsCovered(s) && IsRun(s, steps)
    requires forall i :: 0 <= i < |steps| ==> !(steps[i].RememberRun? && steps[i].stop)
    ensures IdleIsCovered(Final(s, steps))
    decreases |steps|
  {
    hide Safe, IdleIsCovered, Apply;
    if steps != [] {
      SafeStep(s, steps[0]);
      IdleStep(s, steps[0]);
      IdleMeansCovered(Apply(s, steps[0]), steps[1..]);
    }
  }

  /** A worker marks the session as being refreshed before it begins. */
  lemma MarkShows(s: Sys, w: nat)
    requires Safe(s) && Enabled(s, Mark(w))
    ensures ReadState(Apply(s, Mark(w)).disk) == ReadState(s.disk).(status := Refreshing)
  {
    hide OneWorker;
    WorkerTarget(s, w);
  }

  /** The other critical sections, by what they leave behind: only the status changes, and the failure
      position when a failure is recorded. */
  lemma SectionsLeave(d: Disk, log: seq<Call>, target: nat)
    requires DiskOk(d, log) && 1 <= target <= |d.records|
    ensures var marked, failed := MarkRefreshing(d, target), MarkRefreshFailed(d, target);
            && marked.records == failed.records == d.records
            && marked.summaryFile == failed.summaryFile == d.summaryFile
            && ReadState(marked) == ReadState(d).(status := Refreshing)
            && ReadState(failed) == ReadState(d).(status := RefreshStatus.Failed, failedAt := Some(target))
            && ReadState(Remember(d, "q", "", "", "", false)).status == Dirty
  {
    hide ReadBack, BuiltFrom;
    StripTrimmed("q");
  }
}
