/** Reachable states of the memory protocol that show what its documentation does not say. */
module MemoryWitnesses {
  import opened Common
  import opened Text
  import opened MemoryRecords
  import opened MemoryDisk
  import opened MemoryProtocol

  ghost predicate Reachable(s: Sys) {
    exists steps: seq<Step> :: IsRun(INITIAL, steps) && Final(INITIAL, steps) == s
  }

  lemma ReachInitial()
    ensures Reachable(INITIAL)
  {
    assert IsRun(INITIAL, []) && Final(INITIAL, []) == INITIAL;
  }

  lemma {:induction false} RunSnoc(s: Sys, steps: seq<Step>, step: Step)
    requires IsRun(s, steps) && Enabled(Final(s, steps), step)
    ensures IsRun(s, steps + [step]) && Final(s, steps + [step]) == Apply(Final(s, steps), step)
    decreases |steps|
  {
    hide Apply, Enabled;
    if steps == [] {
      assert steps + [step] == [step] && [step][1..] == [];
      assert IsRun(Apply(s, step), []);
    } else {
      RunSnoc(Apply(s, steps[0]), steps[1..], step);
      assert (steps + [step])[1..] == steps[1..] + [step];
    }
  }

  lemma Reach(s: Sys, step: Step) returns (s': Sys)
    requires Reachable(s) && Enabled(s, step)
    ensures Reachable(s') && s' == Apply(s, step)
  {
    hide Apply, Enabled;
    var steps :| IsRun(INITIAL, steps) && Final(INITIAL, steps) == s;
    RunSnoc(INITIAL, steps, step);
    s' := Apply(s, step);
    assert IsRun(INITIAL, steps + [step]) && Final(INITIAL, steps + [step]) == s';
  }

  lemma ReachableSafe(s: Sys)
    requires Reachable(s)
    ensures Safe(s)
  {
    hide Safe;
    var steps :| IsRun(INITIAL, steps) && Final(INITIAL, steps) == s;
    InitialSafe();
    RunKeepsSafe(INITIAL, steps);
  }

  // ----- plain texts -----

  function Repeat(c: char, n: nat): string {
    seq(n, i => c)
  }

  lemma RepeatTrimmed(n: nat)
    ensures Strip(Repeat('x', n)) == Repeat('x', n)
  {
    StripTrimmed(Repeat('x', n));
  }

  lemma RepeatReadBack(n: nat)
    requires 1 <= n <= SUMMARY_MAX_CHARS
    ensures Normalize(Repeat('x', n)) == Repeat('x', n) && ReadBack(Repeat('x', n)) == Repeat('x', n)
  {
    var text := Repeat('x', n);
    RepeatTrimmed(n);
    hide Strip;
    var stored := text + "\n";
    assert IsLineBreak(stored[n]) && forall i :: 0 <= i < n ==> !IsLineBreak(stored[i]);
    assert LineLength(stored) == n;
    assert stored[..n] == text && AfterFirstLine(stored) == "";
    assert SplitLines(stored) == [text];
  }

  // ----- a context beyond the documented limit -----

  const FULL := Repeat('x', FIELD_MAX_CHARS)
  const LONG_SUMMARY := Repeat('x', SUMMARY_MAX_CHARS)

  /** Remembering a run whose question is not blank adds its record, whatever else is on disk. */
  lemma Remembered(s: Sys, question: string, answer: string) returns (s': Sys)
    requires Reachable(s) && Strip(question) != ""
    ensures Reachable(s') && s'.lock == s.lock && s'.log == s.log
    ensures s'.disk.summaryFile == s.disk.summaryFile && ValidCoverage(s'.disk) == ValidCoverage(s.disk)
    ensures IsValid(s'.disk) == IsValid(s.disk) && s.disk.records <= s'.disk.records
    ensures s'.disk.records == s.disk.records + [Record(|s.disk.records| + 1, "", "", question, answer)]
  {
    hide ValidCoverage, IsValid, ReadState, Strip, Safe;
    ReachableSafe(s);
    SafeHasMemory(s);
    var step := RememberRun(question, answer, "", "", false);
    s' := Reach(s, step);
    RememberKeeps(s.disk, s.log, question, answer, "", "", false);
  }

  /** A summary of 300 characters that covers the first record. */
  lemma Summarized() returns (s: Sys)
    ensures Reachable(s) && |s.disk.records| == 1 && IsValid(s.disk) && ValidCoverage(s.disk) == 1
    ensures ReadSummary(s.disk) == LONG_SUMMARY
  {
    hide Normalize, ReadBack, Strip, IsValid, ValidCoverage, Commit, BeginRefresh, ReadSummary;
    hide Safe, MemoryOk, BuiltFrom;
    RepeatTrimmed(FIELD_MAX_CHARS);
    RepeatReadBack(SUMMARY_MAX_CHARS);
    ReachInitial();
    var s1 := Remembered(INITIAL, FULL, "");
    ReachableSafe(s1);
    SafeHasMemory(s1);
    assert ValidCoverage(INITIAL.disk) == 0 by { EmptyDiskOk(); }
    s := FirstSummary(s1);
  }

  lemma FirstSummary(s: Sys) returns (s': Sys)
    requires Reachable(s) && MemoryOk(s) && s.lock.Free? && |s.disk.records| == 1 && ValidCoverage(s.disk) == 0
    ensures Reachable(s') && s'.disk.records == s.disk.records && IsValid(s'.disk) && ValidCoverage(s'.disk) == 1
    ensures ReadSummary(s'.disk) == LONG_SUMMARY
  {
    hide Normalize, ReadBack, Strip, IsValid, ValidCoverage, Commit, BeginRefresh, ReadSummary;
    hide BuiltFrom, DiskOk, ReadState;
    RepeatReadBack(SUMMARY_MAX_CHARS);
    BeginKeeps(s.disk, s.log, false, None);
    var s1 := Reach(s, BeginManual(false, None));
    var s2 := Reach(s1, Summarize(LONG_SUMMARY));
    MemoryStep(s1, Summarize(LONG_SUMMARY));
    MemoryStep(s, BeginManual(false, None));
    CommitKeeps(s2.disk, s2.log, s2.lock.job, false);
    s' := Reach(s2, CommitBatch(false));
  }

  /** A reachable disk whose context has 6,321 characters, the greatest length possible: a summary of
      300 characters covers one record, and five records with two full fields follow. */
  lemma LongestContext() returns (s: Sys)
    ensures Reachable(s)
    ensures forall text: string :: IsContext(s.disk, text) ==> |text| == 6321
  {
    hide IsValid, ValidCoverage, ReadState, Strip, ReadSummary, IsContext, Uncovered;
    RepeatTrimmed(FIELD_MAX_CHARS);
    var s0 := Summarized();
    var s1 := Remembered(s0, FULL, FULL);
    var s2 := Remembered(s1, FULL, FULL);
    var s3 := Remembered(s2, FULL, FULL);
    var s4 := Remembered(s3, FULL, FULL);
    s := Remembered(s4, FULL, FULL);
    SameSummary(s0.disk, s.disk);
    assert FullRecords(s.disk);
    forall text: string | IsContext(s.disk, text) ensures |text| == FALLBACK_MAX_CHARS + SUMMARY_MAX_CHARS + 21 {
      FullContext(s.disk, text);
    }
  }

  lemma SameSummary(d: Disk, d': Disk)
    requires d.summaryFile == d'.summaryFile
    ensures ReadSummary(d') == ReadSummary(d)
  {
    hide ReadBack;
  }

  ghost predicate FullRecords(d: Disk) {
    |d.records| == 6 && forall i :: 1 <= i < 6 ==> d.records[i].question == FULL && d.records[i].finalAnswer == FULL
  }

  lemma FullContext(d: Disk, text: string)
    requires FullRecords(d) && IsValid(d) && ValidCoverage(d) == 1 && |ReadSummary(d)| == SUMMARY_MAX_CHARS
    requires IsContext(d, text)
    ensures |text| == FALLBACK_MAX_CHARS + SUMMARY_MAX_CHARS + 21
  {
    hide IsFallback, ReadSummary, IsValid, ValidCoverage;
    var fallback: string :| IsFallback(Uncovered(d), fallback) && text == Compose(d, fallback);
    FullFallback(Uncovered(d), fallback);
  }

  /** Five full entries: four fit, and the oldest one is cut to what is left. */
  lemma FullFallback(records: seq<Record>, text: string)
    requires |records| == 5
    requires forall i :: 0 <= i < 5 ==> records[i].question == FULL && records[i].finalAnswer == FULL
    requires IsFallback(records, text)
    ensures |text| == FALLBACK_MAX_CHARS
  {
    hide JoinParagraphs, Strip;
    RepeatTrimmed(FIELD_MAX_CHARS);
    var all := Entries(records);
    var n: nat, cut: nat :| Shows(all, text, n, cut);
    forall i | 0 <= i < 5 ensures |all[i]| == 1207 {
      EntriesAt(records, i);
    }
    if cut == 1207 {
      JoinExact(all[5 - n..]);
      WholeWindow(all, n);
    }
  }

  lemma {:induction false} JoinExact(entries: seq<string>)
    requires entries != [] && forall i :: 0 <= i < |entries| ==> |entries[i]| == 1207
    ensures |JoinParagraphs(entries)| == 1209 * |entries| - 2
  {
    if |entries| > 1 {
      JoinExact(entries[1..]);
    }
  }

  // ----- a worker that goes on for a smaller target -----

  /** Two runs are remembered and reserved; the larger target is stored first and popped; the smaller
      one arrives while its refresh waits for the model. */
  lemma SmallerTargetWaits() returns (s: Sys)
    ensures Reachable(s) && s.workers == map[0 := Returned(2)] && s.pending == Some(1)
    ensures s.succeeded == {2} && ValidCoverage(s.disk) == 2
  {
    hide ValidCoverage, IsValid, ReadState, Strip, Normalize, Reserve, BeginRefresh, Commit;
    var s1 := TwoReserved();
    var s2 := Reach(s1, StoreTarget(2, 0));
    QuietlyReached(s1, StoreTarget(2, 0), s2);
    var s3 := Reach(s2, Pop(0));
    QuietlyReached(s2, Pop(0), s3);
    var s4 := Reach(s3, Mark(0));
    QuietlyReached(s3, Mark(0), s4);
    assert s4.workers == map[0 := Marked(2)];
    s := RefreshMeanwhile(s4);
  }

  lemma TwoReserved() returns (s: Sys)
    ensures Reachable(s) && s.lock.Free? && s.workers == map[] && s.pending == None && !s.running
    ensures s.inFlight == {1, 2} && s.succeeded == {} && |s.disk.records| == 2 && ValidCoverage(s.disk) == 0
  {
    hide ValidCoverage, IsValid, Strip, Normalize;
    StripTrimmed("q");
    EmptyDiskOk();
    ReachInitial();
    var remember := RememberRun("q", "", "", "", false);
    var s1 := Reach(INITIAL, remember);
    RememberKeeps(INITIAL.disk, [], "q", "", "", "", false);
    var s2 := Reach(s1, ReserveTarget);
    assert s2.inFlight == {1};
    QuietlyReached(s1, ReserveTarget, s2);
    var s3 := Reach(s2, remember);
    QuietlyReached(s2, remember, s3);
    s := Reach(s3, ReserveTarget);
    QuietlyReached(s3, ReserveTarget, s);
  }

  lemma QuietlyReached(s: Sys, step: Step, s': Sys)
    requires Reachable(s) && Enabled(s, step) && s' == Apply(s, step) && !step.CommitBatch?
    ensures ValidCoverage(s'.disk) == ValidCoverage(s.disk)
  {
    hide ValidCoverage, Apply, Enabled, Safe;
    ReachableSafe(s);
    SafeHasMemory(s);
    QuietSteps(s, step);
  }

  lemma RefreshMeanwhile(s: Sys) returns (s': Sys)
    requires Reachable(s) && s.lock.Free? && s.workers == map[0 := Marked(2)] && s.pending == None && s.running
    requires s.inFlight == {1} && s.succeeded == {} && |s.disk.records| == 2 && ValidCoverage(s.disk) == 0
    ensures Reachable(s') && s'.workers == map[0 := Returned(2)] && s'.pending == Some(1)
    ensures s'.succeeded == {2} && ValidCoverage(s'.disk) == 2
  {
    hide ValidCoverage, IsValid, ReadState, Strip, ReadBack, BeginRefresh, Commit, BuiltFrom;
    hide DiskOk, OneWorker, TargetsOk, Normalize, JobOk;
    RepeatReadBack(1);
    ReachableSafe(s);
    BeginKeeps(s.disk, s.log, false, Some(2));
    var s1 := Reach(s, Begin(0));
    assert s1.lock.Held? && s1.lock.owner == Automatic(0) && s1.workers == map[0 := InRefresh(2)];
    var s2 := Reach(s1, StoreTarget(1, 1));
    assert s2.workers == s1.workers && s2.pending == Some(1);
    var s3 := SmallCall(s2);
    s' := SmallCommit(s3);
  }

  lemma SmallCall(s: Sys) returns (s': Sys)
    requires Reachable(s) && s.lock.Held? && s.lock.job.generated.None?
    requires s.lock.job.covered <= s.lock.job.target <= |s.lock.job.snapshot|
    ensures Reachable(s') && s'.lock.Held? && s'.lock.owner == s.lock.owner
    ensures s'.lock.job == s.lock.job.(generated := Some(Repeat('x', 1)))
    ensures s'.workers == s.workers && s'.pending == s.pending && s'.succeeded == s.succeeded
  {
    hide Normalize, ReadBack, Batch, Reachable;
    RepeatReadBack(1);
    s' := Reach(s, Summarize(Repeat('x', 1)));
  }

  lemma SmallCommit(s: Sys) returns (s': Sys)
    requires Reachable(s) && s.lock.Held? && s.lock.owner == Automatic(0) && s.lock.job.generated.Some?
    requires s.lock.job.target == 2 && s.workers == map[0 := InRefresh(2)]
    ensures Reachable(s') && s'.workers == map[0 := Returned(2)] && s'.pending == s.pending
    ensures s'.succeeded == s.succeeded + {2} && ValidCoverage(s'.disk) == 2
  {
    hide ValidCoverage, IsValid, ReadState, ReadBack, Commit, BuiltFrom, DiskOk, OneWorker, TargetsOk;
    hide Reachable;
    ReachableSafe(s);
    assert s.lock.job.covered < 2;
    CommitKeeps(s.disk, s.log, s.lock.job, false);
    s' := Reach(s, CommitBatch(false));
  }

  /** So the worker goes on after a success although the stored target is not beyond the one that is
      done and is covered already. */
  lemma GoesOnForSmallerTarget() returns (s: Sys, s': Sys)
    ensures Reachable(s) && s.workers == map[0 := Returned(2)] && s.pending == Some(1)
    ensures 1 <= ValidCoverage(s.disk) && Enabled(s, EndReturned(0))
    ensures Reachable(s') && s' == Apply(s, EndReturned(0)) && s'.workers == map[0 := Starting] && s'.pending == Some(1)
  {
    hide ValidCoverage;
    s := SmallerTargetWaits();
    s' := Reach(s, EndReturned(0));
  }

  // ----- a target lost by a process stop -----

  /** A run was remembered and reserved, then the process stopped: the state is at rest, its reserved
      target is lost, and no further automatic refresh can be reserved until a record is added. */
  lemma StopBeforeStore() returns (s: Sys)
    ensures Reachable(s) && AtRest(s) && Lost(s, 1) && ValidCoverage(s.disk) == 0
    ensures Reserve(s.disk).1 == None
  {
    hide ValidCoverage, IsValid, Strip, Normalize;
    StripTrimmed("q");
    EmptyDiskOk();
    ReachInitial();
    var remember := RememberRun("q", "", "", "", false);
    var s1 := Reach(INITIAL, remember);
    QuietlyReached(INITIAL, remember, s1);
    var s2 := Reach(s1, ReserveTarget);
    QuietlyReached(s1, ReserveTarget, s2);
    s := Reach(s2, ProcessStop);
    QuietlyReached(s2, ProcessStop, s);
  }
}
