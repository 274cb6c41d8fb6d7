/** The two mutable objects of the memory module: the session store and the refresh scheduler. */
module ContextMemoryModel {
  import opened Common
  import opened Text
  import opened MemoryRecords
  import opened MemoryDisk
  import opened MemoryProtocol

  /** What the model call of a refresh does. */
  datatype Reply = Raises(message: string) | Replies(output: string)

  /** What another thread may do to the session while a refresh waits for the model: it can take
      the record lock, but not the summary lock. */
  datatype Other =
    | RemembersRun(question: string, answer: string, runId: string, createdAt: string)
    | ReservesRefresh
    | MarksRefreshing(target: nat)
    | MarksFailed(target: nat)

  function ApplyOther(d: Disk, other: Other): Disk {
    match other
    case RemembersRun(question, answer, runId, createdAt) => Remember(d, question, answer, runId, createdAt, false)
    case ReservesRefresh => Reserve(d).0
    case MarksRefreshing(target) => MarkRefreshing(d, target)
    case MarksFailed(target) => MarkRefreshFailed(d, target)
  }

  lemma OtherKeeps(d: Disk, log: seq<Call>, other: Other)
    requires DiskOk(d, log)
    ensures var d' := ApplyOther(d, other);
            DiskOk(d', log) && d.records <= d'.records && ValidCoverage(d') == ValidCoverage(d)
  {
    hide Remember, ValidCoverage, SummaryFileOk;
    match other
    case RemembersRun(question, answer, runId, createdAt) =>
      RememberKeeps(d, log, question, answer, runId, createdAt, false);
    case ReservesRefresh =>
      StateWriteKeeps(d, log, ReadState(d).(lastAttempted := |d.records|, status := Scheduled));
    case MarksRefreshing(target) =>
      StateWriteKeeps(d, log, ReadState(d).(status := Refreshing));
    case MarksFailed(target) =>
      StateWriteKeeps(d, log, ReadState(d).(status := Failed, failedAt := Some(Min(target, |d.records|))));
  }

  datatype Outcome =
    | Empty
    | AlreadyCovered(covered: nat)
    | Updated(summary: string, target: nat, covered: nat)
    | Error(message: string)

  /** The calls whose text was committed: all but a last one that returned nothing usable. */
  function Committed(calls: seq<Call>): seq<Call> {
    if calls != [] && Normalize(calls[|calls| - 1].output) == "" then calls[..|calls| - 1] else calls
  }

  /** `calls` were made with the replies in order, one to ten records each. */
  ghost predicate Answers(calls: seq<Call>, reply: nat -> Reply) {
    forall i :: 0 <= i < |calls| ==> 1 <= |calls[i].batch| <= SOURCE_LIMIT && reply(i) == Replies(calls[i].output)
  }

  lemma NoCalls()
    ensures FullBatches([]) && EndsFull([])
    ensures Batches([]) == [] && Committed([]) == [] && forall reply: nat -> Reply :: Answers([], reply)
  {
  }

  lemma CommittedSnoc(earlier: seq<Call>, call: Call)
    ensures Batches(earlier + [call]) == Batches(earlier) + call.batch
    ensures Committed(earlier + [call]) == if Normalize(call.output) == "" then earlier else earlier + [call]
  {
    hide Normalize;
    assert (earlier + [call])[..|earlier|] == earlier;
  }

  lemma AnswersSnoc(calls: seq<Call>, call: Call, reply: nat -> Reply)
    requires Answers(calls, reply) && 1 <= |call.batch| <= SOURCE_LIMIT && reply(|calls|) == Replies(call.output)
    ensures Answers(calls + [call], reply)
  {
  }

  /** All batches but the last one have ten records. */
  ghost predicate FullBatches(calls: seq<Call>) {
    forall i :: 0 <= i < |calls| - 1 ==> |calls[i].batch| == 10
  }

  /** The last one has ten records too, if there is one. */
  ghost predicate EndsFull(calls: seq<Call>) {
    calls != [] ==> |calls[|calls| - 1].batch| == 10
  }

  lemma FullSnoc(calls: seq<Call>, call: Call)
    requires FullBatches(calls) && EndsFull(calls)
    ensures FullBatches(calls + [call]) && (|call.batch| == 10 ==> EndsFull(calls + [call]))
  {
  }

  lemma BatchFull(job: Job)
    requires job.covered <= job.target <= |job.snapshot|
    ensures NextCovered(job) < job.target ==> |Batch(job)| == 10
  {
  }

  lemma JobSize(job: Job, d: Disk, log: seq<Call>)
    requires JobOk(job, d, log)
    ensures job.covered < NextCovered(job) <= job.target <= |job.snapshot| <= |d.records|
    ensures Batch(job) == job.snapshot[job.covered..NextCovered(job)] && 1 <= |Batch(job)| <= SOURCE_LIMIT
  {
  }

  lemma SameBatch(job: Job, text: string)
    ensures NextCovered(job.(generated := Some(text))) == NextCovered(job)
  {
  }

  class ContextMemory {
    var records: seq<Record>
    var stateFile: Option<StateFile>
    var summaryFile: Option<SummaryFile>

    function View(): Disk
      reads this
    {
      Disk(records, stateFile, summaryFile)
    }

    method RememberRun(question: string, answer: string, runId: string, createdAt: string)
      modifies this
      ensures View() == Remember(old(View()), question, answer, runId, createdAt, false)
    {
      if Strip(question) == "" {
        return;
      }
      var state := ReadState(View());
      var sequence := |records| + 1;
      records := records + [Record(sequence, runId, createdAt, question, answer)];
      stateFile := Some(state.(rawSequence := sequence, status := Dirty));
    }

    method ReserveAutoRefresh() returns (target: Option<nat>)
      modifies this`stateFile
      ensures (View(), target) == Reserve(old(View()))
    {
      var state := ReadState(View());
      var rawSequence := |records|;
      if rawSequence <= state.covered || rawSequence <= state.lastAttempted
         || (state.failedAt.Some? && rawSequence <= state.failedAt.value) {
        return None;
      }
      stateFile := Some(state.(lastAttempted := rawSequence, status := Scheduled));
      target := Some(rawSequence);
    }

    method MarkAsRefreshing(target: nat)
      modifies this`stateFile
      ensures View() == MarkRefreshing(old(View()), target)
    {
      if |records| >= target {
        stateFile := Some(ReadState(View()).(status := Refreshing));
      }
    }

    method MarkAsFailed(target: nat)
      modifies this`stateFile
      ensures View() == MarkRefreshFailed(old(View()), target)
    {
      stateFile := Some(ReadState(View()).(status := Failed, failedAt := Some(Min(target, |records|))));
    }

    method LoadValidSummary() returns (text: string)
      ensures text != "" <==> IsValid(View())
      ensures IsValid(View()) ==> text == ReadSummary(View())
    {
      text := if IsValid(View()) then ReadSummary(View()) else "";
    }

    /** Reads only; never schedules work. */
    method LoadContext() returns (text: string)
      ensures IsContext(View(), text)
    {
      hide ReadSummary, IsFallback;
      var valid := IsValid(View());
      var covered := ReadState(View()).covered;
      if valid && covered >= |records| {
        return ReadSummary(View());
      }
      var additions := if valid then records[covered..] else records;
      var fallback := FormatRecordFallback(additions);
      assert additions == Uncovered(View());
      if valid && fallback != "" {
        text := SUMMARY_HEADING + ReadSummary(View()) + RECENT_HEADING + fallback;
      } else {
        text := fallback;
      }
      assert text == Compose(View(), fallback);
    }

    /** Everything other threads get done while the record lock is free. */
    method LetOthersRun(others: seq<Other>, ghost log: seq<Call>)
      requires DiskOk(View(), log)
      modifies this
      ensures DiskOk(View(), log) && old(records) <= records
      ensures ValidCoverage(View()) == ValidCoverage(old(View()))
    {
      hide ApplyOther, DiskOk, ValidCoverage;
      for i := 0 to |others|
        invariant DiskOk(View(), log) && old(records) <= records
        invariant ValidCoverage(View()) == ValidCoverage(old(View()))
      {
        OtherKeeps(View(), log, others[i]);
        LetOneRun(others[i]);
      }
    }

    method LetOneRun(other: Other)
      modifies this
      ensures View() == ApplyOther(old(View()), other)
    {
      hide Remember, Reserve, MarkRefreshing, MarkRefreshFailed;
      match other
      case RemembersRun(question, answer, runId, createdAt) => RememberRun(question, answer, runId, createdAt);
      case ReservesRefresh => var _ := ReserveAutoRefresh();
      case MarksRefreshing(target) => MarkAsRefreshing(target);
      case MarksFailed(target) => MarkAsFailed(target);
    }

    /** One whole rolling refresh, with arbitrary model replies and arbitrary activity of other
        threads during every model call. `calls` are the model calls it made. */
    method RefreshRollingSummary(force: bool, target: Option<nat>, reply: nat -> Reply,
                                 others: nat -> seq<Other>, ghost log: seq<Call>)
      returns (outcome: Outcome, calls: seq<Call>)
      requires DiskOk(View(), log)
      modifies this
      ensures DiskOk(View(), log + calls) && old(records) <= records
      ensures Answers(calls, reply) && FullBatches(calls)
      ensures outcome.Updated? ==> Aims(|old(records)|, target, ValidCoverage(View()))
      ensures outcome.AlreadyCovered? ==> AimReached(|old(records)|, target, outcome.covered)
      ensures var start := if force then 0 else old(ValidCoverage(View()));
              var goal := Goal(old(records), target);
              match outcome
              case Empty => old(records) == [] && calls == [] && View() == old(View())
              case AlreadyCovered(covered) =>
                !force && covered == start >= goal && calls == [] && View() == old(View())
              case Updated(summary, t, covered) =>
                && t == covered == goal && start < goal && Committed(calls) == calls
                && Batches(calls) == old(records)[start..goal]
                && IsValid(View()) && ValidCoverage(View()) == goal && ReadSummary(View()) == ReadBack(summary)
              case Error(_) =>
                var committed := start + |Batches(Committed(calls))|;
                && (reply(|calls|).Raises? || Committed(calls) != calls)
                && committed < goal
                && Batches(Committed(calls)) == old(records)[start..committed]
                && ValidCoverage(View()) == if committed == start then old(ValidCoverage(View())) else committed
    {
      hide BeginRefresh, DiskOk, JobOk, IsValid, ReadBack, Normalize, ReadSummary, ValidCoverage;
      hide Aims, AimReached;
      GoalAims(records, target);
      calls := [];
      assert log + calls == log;
      var begun := BeginRefresh(View(), force, target);
      BeginKeeps(View(), log, force, target);
      match begun {
        case NoRecords => return Empty, calls;
        case Unchanged(covered) => return AlreadyCovered(covered), calls;
        case Started(first) =>
          JobSize(first, View(), log);
          outcome, calls := RunBatches(first, reply, others, log);
      }
    }

    /** The critical section after a model call. The check that the log still holds the batch is
        proved to succeed, so it has no error branch here. */
    method CommitText(job: Job, ghost log: seq<Call>) returns (next: Job)
      requires DiskOk(View(), log) && JobOk(job, View(), log) && job.generated.Some?
      modifies this
      ensures View() == Commit(old(View()), job, false).value && next == Advance(job)
      ensures next.covered == NextCovered(job) && next.generated.None?
      ensures next.target == job.target && next.snapshot == job.snapshot
      ensures DiskOk(View(), log) && records == old(records)
      ensures next.covered < next.target ==> JobOk(next, View(), log)
      ensures IsValid(View()) && ValidCoverage(View()) == next.covered
      ensures ReadSummary(View()) == ReadBack(next.summary)
    {
      hide IsValid, ValidCoverage, DiskOk, JobOk, ReadSummary, ReadBack;
      CommitKeeps(View(), log, job, false);
      var covered := NextCovered(job);
      summaryFile := Some(SummaryFile(job.generated.value, Metadata(covered, records[..covered])));
      var state := ReadState(View());
      var status := if covered >= |records| then Idle else Dirty;
      stateFile := Some(state.(covered := covered, status := status, failedAt := None));
      next := Advance(job);
    }

    /** The batch loop of a refresh that has work to do. */
    method RunBatches(first: Job, reply: nat -> Reply, others: nat -> seq<Other>, ghost log: seq<Call>)
      returns (outcome: Outcome, calls: seq<Call>)
      requires DiskOk(View(), log) && JobOk(first, View(), log) && first.generated.None?
      requires first.snapshot == records
      modifies this
      ensures DiskOk(View(), log + calls) && old(records) <= records
      ensures Answers(calls, reply) && FullBatches(calls)
      ensures outcome.Updated? || outcome.Error?
      ensures var committed := first.covered + |Batches(Committed(calls))|;
              && committed <= first.target
              && Batches(Committed(calls)) == first.snapshot[first.covered..committed]
              && ValidCoverage(View()) == (if committed == first.covered then old(ValidCoverage(View())) else committed)
              && if outcome.Updated? then
                   && outcome.target == outcome.covered == first.target == committed && Committed(calls) == calls
                   && IsValid(View()) && ReadSummary(View()) == ReadBack(outcome.summary)
                 else
                   committed < first.target && (reply(|calls|).Raises? || Committed(calls) != calls)
    {
      hide Normalize, ReadBack, Commit, IsValid, ValidCoverage, DiskOk, JobOk, ReadSummary;
      hide Batches, Committed, Answers, FullBatches, EndsFull, Batch, NextCovered, Advance;
      NoCalls();
      calls := [];
      assert log + calls == log;
      JobSize(first, View(), log);
      var job := first;
      while job.covered < job.target
        invariant Answers(calls, reply) && Committed(calls) == calls
        invariant FullBatches(calls) && (job.covered < job.target ==> EndsFull(calls))
        invariant first.covered <= job.covered <= job.target == first.target && job.snapshot == first.snapshot
        invariant first.target <= |first.snapshot|
        invariant job.generated.None?
        invariant DiskOk(View(), log + calls) && old(records) <= records
        invariant job.covered < job.target ==> JobOk(job, View(), log + calls)
        invariant Batches(calls) == first.snapshot[first.covered..job.covered]
        invariant job.covered == first.covered ==> ValidCoverage(View()) == old(ValidCoverage(View()))
        invariant job.covered > first.covered ==>
                    && IsValid(View()) && ValidCoverage(View()) == job.covered
                    && ReadSummary(View()) == ReadBack(job.summary)
        decreases job.target - job.covered
      {
        ghost var earlier, before := calls, View();
        JobSize(job, View(), log + earlier);
        LetOthersRun(others(|calls|), log + earlier);
        JobOutlivesAppends(job, before, View(), log + earlier);
        var answer := reply(|calls|);
        if answer.Raises? {
          return Error(answer.message), calls;
        }
        var call := Call(job.summary, Batch(job), answer.output);
        calls := calls + [call];
        assert log + calls == (log + earlier) + [call];
        CommittedSnoc(earlier, call);
        AnswersSnoc(earlier, call, reply);
        FullSnoc(earlier, call);
        BatchFull(job);
        DiskOkMonotone(View(), log + earlier, [call]);
        var text := Normalize(answer.output);
        if text == "" {
          return Error("memory summary cannot be empty"), calls;
        }
        SummarizeKeeps(job, View(), log + earlier, answer.output);
        ghost var covered := job.covered;
        SameBatch(job, text);
        job := CommitText(job.(generated := Some(text)), log + calls);
        assert first.snapshot[first.covered..covered] + call.batch == first.snapshot[first.covered..job.covered];
      }
      outcome := Updated(job.summary, job.target, job.covered);
    }
  }

  /** A scheduler serves any number of sessions; `Key` is the resolved path of a session's log. */
  class MemoryRefreshScheduler<Key(==, !new)> {
    var targets: map<Key, nat>
    var running: set<Key>

    function QueueOf(key: Key): Queue
      reads this
    {
      Queue(if key in targets then Some(targets[key]) else None, key in running)
    }

    constructor ()
      ensures targets == map[] && running == {}
    {
      targets, running := map[], {};
    }

    /** The critical section of schedule(), after a target was reserved. */
    method StoreTarget(key: Key, target: nat) returns (starts: bool)
      modifies this
      ensures (QueueOf(key), starts) == Store(old(QueueOf(key)), target)
      ensures forall other :: other != key ==> QueueOf(other) == old(QueueOf(other))
    {
      targets := targets[key := Max(target, if key in targets then targets[key] else 0)];
      starts := key !in running;
      running := running + {key};
    }

    method PopTarget(key: Key) returns (target: nat)
      modifies this
      ensures (QueueOf(key), target) == TakeTarget(old(QueueOf(key)))
      ensures forall other :: other != key ==> QueueOf(other) == old(QueueOf(other))
    {
      target := if key in targets then targets[key] else 0;
      targets := targets - {key};
    }

    method FinishFailed(key: Key, target: nat) returns (goesOn: bool)
      modifies this
      ensures (QueueOf(key), goesOn) == EndAfterFailure(old(QueueOf(key)), target)
      ensures forall other :: other != key ==> QueueOf(other) == old(QueueOf(other))
    {
      var next := if key in targets then targets[key] else 0;
      if next > target {
        return true;
      }
      targets := targets - {key};
      running := running - {key};
      goesOn := false;
    }

    method FinishReturned(key: Key) returns (goesOn: bool)
      modifies this
      ensures (QueueOf(key), goesOn) == EndAfterReturn(old(QueueOf(key)))
      ensures forall other :: other != key ==> QueueOf(other) == old(QueueOf(other))
    {
      if key !in targets {
        running := running - {key};
        return false;
      }
      goesOn := true;
    }
  }
}
