/** The files of one session's memory and the critical sections that read and write them.
    Every function here is what one caller does while it holds the session's record lock. */
module MemoryDisk {
  import opened Common
  import opened Text
  import opened MemoryRecords

  const SUMMARY_MAX_CHARS := 300

  datatype RefreshStatus = Idle | Dirty | Scheduled | Refreshing | Failed

  datatype StateFile = StateFile(
    rawSequence: nat,
    covered: nat,
    lastAttempted: nat,
    failedAt: Option<nat>,
    status: RefreshStatus)

  /** The SHA-256 digest of a record prefix is taken to be collision free, so it is modelled by
      the prefix itself. */
  datatype Metadata = Metadata(coveredThrough: nat, digest: seq<Record>)

  datatype SummaryFile = SummaryFile(text: string, metadata: Metadata)

  datatype Disk = Disk(records: seq<Record>, stateFile: Option<StateFile>, summaryFile: Option<SummaryFile>)

  const EMPTY_DISK := Disk([], None, None)

  // ----- reading -----

  function Normalize(value: string): (r: string)
    ensures |r| <= SUMMARY_MAX_CHARS
  {
    var stripped := Strip(value);
    if |stripped| <= SUMMARY_MAX_CHARS then stripped else stripped[..SUMMARY_MAX_CHARS]
  }

  /** A stored summary as it is read again: its lines are split, joined with "\n" and normalized. */
  function ReadBack(text: string): string {
    Normalize(JoinLines(SplitLines(text + "\n")))
  }

  function ReadSummary(d: Disk): string {
    if d.summaryFile.Some? then ReadBack(d.summaryFile.value.text) else ""
  }

  /** The state record, with every sequence number cut down to the number of records present. */
  function ReadState(d: Disk): (st: StateFile)
    ensures st.rawSequence == |d.records|
    ensures st.covered <= |d.records| && st.lastAttempted <= |d.records|
  {
    var n := |d.records|;
    match d.stateFile
    case None => StateFile(n, 0, 0, None, if n == 0 then Idle else Dirty)
    case Some(f) =>
      StateFile(n, Min(f.covered, n), Min(f.lastAttempted, n),
                if f.failedAt.Some? then Some(Min(f.failedAt.value, n)) else None, f.status)
  }

  /** A summary is trusted only if the state record and the summary's own stamp agree on the
      coverage and the digest of exactly that many records still matches. */
  predicate IsValid(d: Disk) {
    var covered := ReadState(d).covered;
    && d.summaryFile.Some?
    && ReadSummary(d) != "" && covered != 0
    && d.summaryFile.value.metadata.coveredThrough == covered
    && d.summaryFile.value.metadata.digest == d.records[..covered]
  }

  /** The number of records that readers take from the summary instead of the raw log. */
  function ValidCoverage(d: Disk): nat {
    if IsValid(d) then ReadState(d).covered else 0
  }

  // ----- writing -----

  function WriteState(d: Disk, st: StateFile): Disk {
    d.(stateFile := Some(st))
  }

  /** Appends one completed run. With `stop` the process ends (or the write raises) after the
      record is on disk and before the state record follows. */
  function Remember(d: Disk, question: string, answer: string, runId: string, createdAt: string, stop: bool): Disk {
    if Strip(question) == "" then d
    else
      var sequence := |d.records| + 1;
      var st := ReadState(d);
      var appended := d.(records := d.records + [Record(sequence, runId, createdAt, question, answer)]);
      if stop then appended else WriteState(appended, st.(rawSequence := sequence, status := Dirty))
  }

  /** The newest sequence number, reserved for one automatic refresh, unless there is no reason
      for a new attempt. */
  function Reserve(d: Disk): (r: (Disk, Option<nat>)) {
    var st := ReadState(d);
    var raw := |d.records|;
    if raw <= st.covered || raw <= st.lastAttempted || (st.failedAt.Some? && raw <= st.failedAt.value) then
      (d, None)
    else
      (WriteState(d, st.(lastAttempted := raw, status := Scheduled)), Some(raw))
  }

  function MarkRefreshing(d: Disk, target: nat): Disk {
    if |d.records| >= target then WriteState(d, ReadState(d).(status := Refreshing)) else d
  }

  function MarkRefreshFailed(d: Disk, target: nat): Disk {
    WriteState(d, ReadState(d).(status := Failed, failedAt := Some(Min(target, |d.records|))))
  }

  // ----- one rolling refresh -----

  /** What a refresh carries in its local variables while the record lock is released. */
  datatype Job = Job(snapshot: seq<Record>, target: nat, covered: nat, summary: string, generated: Option<string>)

  /** The number of records a refresh aims to cover. */
  function Goal(records: seq<Record>, target: Option<nat>): nat {
    Min(if target.Some? && target.value != 0 then target.value else |records|, |records|)
  }

  /** What a refresh is to cover: everything without a target (or with target 0), else the target, or
      everything if the target is beyond it. */
  ghost predicate Aims(count: nat, target: Option<nat>, goal: nat) {
    && (target.None? || target == Some(0) ==> goal == count)
    && (target.Some? && 1 <= target.value <= count ==> goal == target.value)
    && (target.Some? && target.value > count ==> goal == count)
  }

  /** That much is covered already. */
  ghost predicate AimReached(count: nat, target: Option<nat>, covered: nat) {
    && (target.None? || target == Some(0) ==> covered >= count)
    && (target.Some? && target.value >= 1 ==> covered >= target.value || covered >= count)
  }

  lemma GoalAims(records: seq<Record>, target: Option<nat>)
    ensures Aims(|records|, target, Goal(records, target))
    ensures forall covered: nat :: AimReached(|records|, target, covered) <==> covered >= Goal(records, target)
  {
  }

  datatype Begun = NoRecords | Unchanged(covered: nat) | Started(job: Job)

  function BeginRefresh(d: Disk, force: bool, target: Option<nat>): Begun {
    if d.records == [] then NoRecords
    else
      var goal := Goal(d.records, target);
      var reuse := IsValid(d) && !force;
      var covered := if reuse then ReadState(d).covered else 0;
      if covered >= goal && !force then Unchanged(covered)
      else Started(Job(d.records, goal, covered, if reuse then ReadSummary(d) else "", None))
  }

  function NextCovered(job: Job): nat {
    Min(job.covered + SOURCE_LIMIT, job.target)
  }

  /** The records handed to the next model call: at most ten. */
  function Batch(job: Job): seq<Record>
    requires job.covered <= job.target <= |job.snapshot|
  {
    job.snapshot[job.covered..NextCovered(job)]
  }

  /** Stores a generated summary and then the new coverage; `None` is the error "memory records
      changed before summary commit". With `stop` only the first of the two writes happens. */
  function Commit(d: Disk, job: Job, stop: bool): Option<Disk>
    requires job.generated.Some?
  {
    var next := NextCovered(job);
    if |d.records| < next then None
    else
      var stored := d.(summaryFile := Some(SummaryFile(job.generated.value, Metadata(next, d.records[..next]))));
      if stop then Some(stored)
      else
        var status := if next >= |d.records| then Idle else Dirty;
        Some(WriteState(stored, ReadState(stored).(covered := next, status := status, failedAt := None)))
  }

  function Advance(job: Job): Job
    requires job.generated.Some?
  {
    job.(summary := job.generated.value, covered := NextCovered(job), generated := None)
  }

  // ----- provenance -----

  /** One model call of a rolling refresh: what it was given and what it returned. */
  datatype Call = Call(previous: string, batch: seq<Record>, output: string)

  /** The text a chain of calls leaves behind. */
  function ChainText(calls: seq<Call>): string {
    if calls == [] then "" else Normalize(calls[|calls| - 1].output)
  }

  /** `calls` folds the summarizer over `prefix`: the batches hold one to ten records each, are
      consecutive and make up exactly `prefix`; each call was given the text its predecessor left,
      either as returned or as read back from the file; no text on the way is empty. */
  ghost predicate Chain(calls: seq<Call>, prefix: seq<Record>) {
    if calls == [] then prefix == []
    else
      var last := calls[|calls| - 1];
      var earlier := calls[..|calls| - 1];
      && 1 <= |last.batch| <= SOURCE_LIMIT && |last.batch| <= |prefix|
      && last.batch == prefix[|prefix| - |last.batch|..]
      && (last.previous == ChainText(earlier) || last.previous == ReadBack(ChainText(earlier)))
      && Normalize(last.output) != ""
      && Chain(earlier, prefix[..|prefix| - |last.batch|])
  }

  function Batches(calls: seq<Call>): seq<Record> {
    if calls == [] then [] else Batches(calls[..|calls| - 1]) + calls[|calls| - 1].batch
  }

  /** The batches of a chain, put one after the other, are exactly the prefix it stands for. */
  lemma {:induction false} ChainPartitions(calls: seq<Call>, prefix: seq<Record>)
    requires Chain(calls, prefix)
    ensures Batches(calls) == prefix
    decreases |calls|
  {
    hide Normalize, ReadBack;
    if calls != [] {
      var k := |calls[|calls| - 1].batch|;
      ChainPartitions(calls[..|calls| - 1], prefix[..|prefix| - k]);
      assert prefix == prefix[..|prefix| - k] + prefix[|prefix| - k..];
    }
  }

  /** `calls` were all really made. */
  ghost predicate AllMade(calls: seq<Call>, log: seq<Call>) {
    forall i :: 0 <= i < |calls| ==> calls[i] in log
  }

  /** `text` was built from exactly the records of `prefix` by calls that were really made. */
  ghost predicate BuiltFrom(log: seq<Call>, prefix: seq<Record>, text: string) {
    exists calls: seq<Call> :: Chain(calls, prefix) && AllMade(calls, log) && text == ChainText(calls)
  }

  lemma BuiltMonotone(log: seq<Call>, more: seq<Call>, prefix: seq<Record>, text: string)
    requires BuiltFrom(log, prefix, text)
    ensures BuiltFrom(log + more, prefix, text)
  {
    var calls :| Chain(calls, prefix) && AllMade(calls, log) && text == ChainText(calls);
    assert AllMade(calls, log + more);
  }

  lemma BuiltNothing(log: seq<Call>)
    ensures BuiltFrom(log, [], "")
  {
    assert Chain([], []) && AllMade([], log) && ChainText([]) == "";
  }

  /** One more call extends a chain by its batch. */
  lemma ChainSnoc(calls: seq<Call>, prefix: seq<Record>, call: Call)
    requires Chain(calls, prefix)
    requires 1 <= |call.batch| <= SOURCE_LIMIT && Normalize(call.output) != ""
    requires call.previous == ChainText(calls) || call.previous == ReadBack(ChainText(calls))
    ensures Chain(calls + [call], prefix + call.batch)
    ensures ChainText(calls + [call]) == Normalize(call.output)
  {
    hide Normalize, ReadBack;
    var longer, whole := calls + [call], prefix + call.batch;
    assert longer[..|longer| - 1] == calls && longer[|longer| - 1] == call;
    assert whole[|whole| - |call.batch|..] == call.batch;
    assert whole[..|whole| - |call.batch|] == prefix;
  }

  lemma BuiltExtend(log: seq<Call>, prefix: seq<Record>, text: string, call: Call)
    requires BuiltFrom(log, prefix, text) && call in log
    requires 1 <= |call.batch| <= SOURCE_LIMIT && Normalize(call.output) != ""
    requires call.previous == text || call.previous == ReadBack(text)
    ensures BuiltFrom(log, prefix + call.batch, Normalize(call.output))
  {
    hide Normalize, ReadBack, Chain, ChainText;
    var calls :| Chain(calls, prefix) && AllMade(calls, log) && text == ChainText(calls);
    ChainSnoc(calls, prefix, call);
    assert AllMade(calls + [call], log);
  }

  lemma NonEmptyHasInk(value: string)
    requires Normalize(value) != ""
    ensures HasInk(Normalize(value))
  {
    hide IsSpace;
    var i, j := StripShape(value);
    var r := Normalize(value);
    assert r[0] == Strip(value)[0];
  }

  /** A stored summary never becomes empty by being written and read again. */
  lemma ReadBackNonEmpty(value: string)
    requires Normalize(value) != ""
    ensures ReadBack(Normalize(value)) != ""
  {
    hide IsSpace;
    NonEmptyHasInk(value);
    var stored := Normalize(value) + "\n";
    var k :| 0 <= k < |Normalize(value)| && !IsSpace(Normalize(value)[k]);
    assert stored[k] == Normalize(value)[k];
    JoinLinesKeepsInk(stored);
    StripBlank(JoinLines(SplitLines(stored)));
  }

  /** A usable summary is the reply without white space around it, limited to 300 characters. */
  lemma NormalizedAs(value: string)
    ensures ShownAs(value, Normalize(value), 300)
  {
  }

  /** A stored summary is read back as it was written if and only if it has no line break but "\n" and
      no white space at an end (the limit may have left some there). */
  lemma ReadBackExact(value: string)
    ensures var text := Normalize(value);
            ReadBack(text) == text <==> !OddBreak(text) && Trimmed(text)
  {
    hide Strip, IsSpace, IsLineBreak, SplitLines, JoinLines, Trimmed, OddBreak;
    var text := Normalize(value);
    var joined := JoinLines(SplitLines(text + "\n"));
    JoinedClean(text + "\n");
    JoinedNoLonger(text + "\n");
    assert |joined| <= |text| by { NewlineIsBreak(); }
    StrippedWithin(joined);
    if !OddBreak(text) && Trimmed(text) {
      EndsCleanly(text);
      JoinedExact(text);
      StripTrimmed(text);
      if text == "" {
        EmptyReadBack();
      }
    }
  }

  lemma EndsCleanly(text: string)
    requires Trimmed(text)
    ensures text != "" ==> text[|text| - 1] != '\n'
  {
  }

  lemma EmptyReadBack()
    ensures ReadBack("") == ""
  {
  }

  lemma StrippedWithin(joined: string)
    requires |joined| <= SUMMARY_MAX_CHARS && !OddBreak(joined)
    ensures Trimmed(Normalize(joined)) && !OddBreak(Normalize(joined))
  {
    hide IsSpace, Strip, IsLineBreak;
    var i, j := StripShape(joined);
    assert forall k :: 0 <= k < j - i ==> joined[i..j][k] == joined[i + k];
  }

  // ----- what every critical section keeps -----

  ghost predicate StateFileOk(d: Disk) {
    d.stateFile.Some? ==>
      var f := d.stateFile.value;
      && f.covered <= |d.records| && f.lastAttempted <= |d.records|
      && (f.failedAt.Some? ==> f.failedAt.value <= |d.records|)
  }

  /** Whatever summary is on disk was built from exactly the records it is stamped with. */
  ghost predicate SummaryFileOk(d: Disk, log: seq<Call>) {
    d.summaryFile.Some? ==>
      var file := d.summaryFile.value;
      var n := file.metadata.coveredThrough;
      && 1 <= n <= |d.records|
      && file.metadata.digest == d.records[..n]
      && BuiltFrom(log, d.records[..n], file.text)
      && ReadBack(file.text) != ""
  }

  ghost predicate DiskOk(d: Disk, log: seq<Call>) {
    && (forall i :: 0 <= i < |d.records| ==> d.records[i].sequence == i + 1)
    && StateFileOk(d)
    && SummaryFileOk(d, log)
  }

  /** The running summary of a job stands for exactly the records it has covered so far. */
  ghost predicate JobOk(job: Job, d: Disk, log: seq<Call>) {
    && job.covered < job.target <= |job.snapshot|
    && job.snapshot <= d.records
    && (exists text :: BuiltFrom(log, job.snapshot[..job.covered], text)
                       && (job.summary == text || job.summary == ReadBack(text)))
    && (job.generated.Some? ==>
          BuiltFrom(log, job.snapshot[..NextCovered(job)], job.generated.value)
          && ReadBack(job.generated.value) != "")
  }

  lemma EmptyDiskOk()
    ensures DiskOk(EMPTY_DISK, []) && ValidCoverage(EMPTY_DISK) == 0
  {
  }

  /** A summary on a consistent disk is trusted exactly when the state record agrees with its
      stamp; its digest and its text are never the reason to reject it. */
  lemma ValidIffAgreed(d: Disk, log: seq<Call>)
    requires DiskOk(d, log)
    ensures IsValid(d) <==>
            d.summaryFile.Some? && d.summaryFile.value.metadata.coveredThrough == ReadState(d).covered
  {
    hide ReadBack, BuiltFrom;
  }

  /** On any disk, also one that others wrote: a summary is trusted if and only if its text is not blank
      and its stamp names the recorded coverage and the digest of exactly that many records, at least
      one. */
  lemma TrustExactly(d: Disk)
    ensures IsValid(d) <==>
            && d.summaryFile.Some? && HasInk(ReadBack(d.summaryFile.value.text))
            && var stamp := d.summaryFile.value.metadata;
               && 1 <= stamp.coveredThrough == ReadState(d).covered
               && stamp.coveredThrough <= |d.records| && stamp.digest == d.records[..stamp.coveredThrough]
  {
    hide ReadState, IsSpace, JoinLines, SplitLines;
    if d.summaryFile.Some? {
      NonblankRead(JoinLines(SplitLines(d.summaryFile.value.text + "\n")));
    }
  }

  lemma NonblankRead(value: string)
    ensures HasInk(Normalize(value)) <==> Normalize(value) != ""
  {
    hide IsSpace, Strip;
    if Normalize(value) != "" {
      NonEmptyHasInk(value);
    }
  }

  /** A write to the state record that keeps the coverage changes nothing for readers. */
  lemma StateWriteKeeps(d: Disk, log: seq<Call>, st: StateFile)
    requires DiskOk(d, log)
    requires st.covered == ReadState(d).covered && st.lastAttempted <= |d.records|
    requires st.failedAt.Some? ==> st.failedAt.value <= |d.records|
    ensures DiskOk(WriteState(d, st), log)
    ensures ReadState(WriteState(d, st)) == st.(rawSequence := |d.records|)
    ensures IsValid(WriteState(d, st)) == IsValid(d)
    ensures ValidCoverage(WriteState(d, st)) == ValidCoverage(d)
  {
    hide ReadBack, BuiltFrom;
  }

  lemma RememberKeeps(d: Disk, log: seq<Call>, question: string, answer: string, runId: string,
                      createdAt: string, stop: bool)
    requires DiskOk(d, log)
    ensures var d' := Remember(d, question, answer, runId, createdAt, stop);
            && DiskOk(d', log)
            && d'.records == d.records + (if Blank(question) then []
                                          else [Record(|d.records| + 1, runId, createdAt, question, answer)])
            && ReadState(d').covered == ReadState(d).covered
            && ReadState(d').lastAttempted == ReadState(d).lastAttempted
            && ReadState(d').failedAt == ReadState(d).failedAt
            && IsValid(d') == IsValid(d) && ValidCoverage(d') == ValidCoverage(d)
  {
    hide ReadBack, BuiltFrom, Strip, Blank;
    StripBlank(question);
    var d' := Remember(d, question, answer, runId, createdAt, stop);
    assert d.records <= d'.records;
    forall n: nat | n <= |d.records| ensures d'.records[..n] == d.records[..n] {
    }
  }

  lemma JobOutlivesAppends(job: Job, d: Disk, d': Disk, log: seq<Call>)
    requires JobOk(job, d, log) && d.records <= d'.records
    ensures JobOk(job, d', log)
  {
  }

  lemma DiskOkMonotone(d: Disk, log: seq<Call>, more: seq<Call>)
    requires DiskOk(d, log)
    ensures DiskOk(d, log + more)
  {
    if d.summaryFile.Some? {
      var file := d.summaryFile.value;
      BuiltMonotone(log, more, d.records[..file.metadata.coveredThrough], file.text);
    }
  }

  /** A refresh either has nothing to do, because the valid coverage reaches its goal, or starts
      from the valid coverage, or from zero when it is forced. */
  lemma BeginKeeps(d: Disk, log: seq<Call>, force: bool, target: Option<nat>)
    requires DiskOk(d, log)
    ensures match BeginRefresh(d, force, target)
            case NoRecords => d.records == []
            case Unchanged(covered) =>
              && !force && covered == ValidCoverage(d) && d.records != []
              && Goal(d.records, target) <= covered
            case Started(job) =>
              && JobOk(job, d, log) && job.generated.None?
              && job.covered == (if force then 0 else ValidCoverage(d))
              && job.target == Goal(d.records, target) && job.snapshot == d.records
  {
    hide ReadBack, BuiltFrom;
    match BeginRefresh(d, force, target)
    case NoRecords =>
    case Unchanged(covered) =>
    case Started(job) =>
      BuiltNothing(log);
      if job.covered == 0 {
        assert job.snapshot[..0] == [];
        assert BuiltFrom(log, job.snapshot[..job.covered], "") && job.summary == "";
      } else {
        var text := d.summaryFile.value.text;
        assert BuiltFrom(log, job.snapshot[..job.covered], text) && job.summary == ReadBack(text);
      }
  }

  /** A model call that returns a usable text carries the provenance one batch further. */
  lemma SummarizeKeeps(job: Job, d: Disk, log: seq<Call>, output: string)
    requires JobOk(job, d, log) && job.generated.None? && Normalize(output) != ""
    ensures JobOk(job.(generated := Some(Normalize(output))), d, log + [Call(job.summary, Batch(job), output)])
  {
    hide ReadBack, BuiltFrom, Normalize;
    var call := Call(job.summary, Batch(job), output);
    var next := NextCovered(job);
    var text :| BuiltFrom(log, job.snapshot[..job.covered], text)
                && (job.summary == text || job.summary == ReadBack(text));
    BuiltMonotone(log, [call], job.snapshot[..job.covered], text);
    assert (log + [call])[|log|] == call;
    BuiltExtend(log + [call], job.snapshot[..job.covered], text, call);
    assert job.snapshot[..job.covered] + Batch(job) == job.snapshot[..next];
    ReadBackNonEmpty(output);
  }

  /** The commit check never fails: the snapshot's batch still is the same slice of the log. The
      summary on disk afterwards is accounted for even if the process stops before the state
      record follows. */
  lemma CommitKeeps(d: Disk, log: seq<Call>, job: Job, stop: bool)
    requires DiskOk(d, log) && JobOk(job, d, log) && job.generated.Some?
    ensures |d.records| >= NextCovered(job) && d.records[job.covered..NextCovered(job)] == Batch(job)
    ensures Commit(d, job, stop).Some?
    ensures var d' := Commit(d, job, stop).value;
            && DiskOk(d', log) && d'.records == d.records
            && ReadState(d').lastAttempted == ReadState(d).lastAttempted
            && (!stop ==> IsValid(d') && ValidCoverage(d') == NextCovered(job) && ReadState(d').failedAt == None
                          && ReadState(d').status == if NextCovered(job) == |d.records| then Idle else Dirty)
            && ReadSummary(d') == ReadBack(job.generated.value)
            && (stop ==> ReadState(d') == ReadState(d)
                         && (IsValid(d') <==> NextCovered(job) == ReadState(d).covered))
            && (NextCovered(job) < job.target ==> JobOk(Advance(job), d', log))
  {
    hide ReadBack, BuiltFrom;
    var next := NextCovered(job);
    assert d.records[..next] == job.snapshot[..next];
    assert d.records[job.covered..next] == d.records[..next][job.covered..];
    assert Batch(job) == job.snapshot[..next][job.covered..];
  }

  // ----- the context handed to the agent -----

  const SUMMARY_HEADING := "已有记忆摘要：\n"
  const RECENT_HEADING := "\n\n尚未摘要的最近对话：\n"

  /** The records that the trusted summary does not stand for. */
  function Uncovered(d: Disk): seq<Record> {
    d.records[ValidCoverage(d)..]
  }

  /** The context as it is put together when the summary does not stand for everything. */
  function Compose(d: Disk, fallback: string): string {
    if IsValid(d) && fallback != "" then SUMMARY_HEADING + ReadSummary(d) + RECENT_HEADING + fallback
    else fallback
  }

  /** `text` is what `load_context` returns: the trusted summary, followed by the raw fallback for
      every record it does not cover. */
  ghost predicate IsContext(d: Disk, text: string) {
    if IsValid(d) && Uncovered(d) == [] then text == ReadSummary(d)
    else exists fallback: string :: IsFallback(Uncovered(d), fallback) && text == Compose(d, fallback)
  }

  lemma ComposeContains(d: Disk, fallback: string)
    ensures Contains(Compose(d, fallback), fallback)
    ensures IsValid(d) && fallback != "" ==> Contains(Compose(d, fallback), ReadSummary(d))
  {
    hide ReadSummary;
    var text := Compose(d, fallback);
    if IsValid(d) && fallback != "" {
      assert text == SUMMARY_HEADING + ReadSummary(d) + (RECENT_HEADING + fallback);
      assert text == (SUMMARY_HEADING + ReadSummary(d) + RECENT_HEADING) + fallback + "";
    } else {
      assert text == "" + fallback + "";
    }
  }

  /** Continuity: a record on disk is covered by the trusted summary shown, or, while fewer than
      four records are newer, its question and answer are shown. */
  lemma ContextShows(d: Disk, text: string, i: nat)
    requires IsContext(d, text) && i < |d.records|
    ensures IsValid(d) ==> Contains(text, ReadSummary(d))
    ensures || i < ValidCoverage(d) || i < |d.records| - 4
            || (Contains(text, Entry(d.records[i]))
                && ShowsExchange(text, d.records[i].question, d.records[i].finalAnswer))
  {
    hide Entry, ReadSummary, IsFallback, Compose, Contains, ShowsExchange;
    if IsValid(d) && Uncovered(d) == [] {
      ContainsItself(text);
    } else {
      var fallback: string :| IsFallback(Uncovered(d), fallback) && text == Compose(d, fallback);
      FallbackBounded(Uncovered(d), fallback);
      ComposeContains(d, fallback);
      if i >= ValidCoverage(d) && i >= |d.records| - 4 {
        NewestInFull(Uncovered(d), fallback, i - ValidCoverage(d));
        ContainsTrans(text, fallback, Entry(d.records[i]));
        EntryExchange(text, d.records[i]);
      }
    }
  }

  /** The whole context, word by word: the summary alone, the fallback alone, or both under their
      headings, the summary first. */
  lemma ContextLayout(d: Disk, text: string)
    requires IsContext(d, text)
    ensures var summary, rest := ReadSummary(d), Uncovered(d);
            if !IsValid(d) then IsFallback(d.records, text)
            else if rest == [] then text == summary
            else exists fallback: string :: IsFallback(rest, fallback)
                   && text == "已有记忆摘要：\n" + summary + "\n\n尚未摘要的最近对话：\n" + fallback
  {
    hide ReadSummary, IsFallback;
    if !(IsValid(d) && Uncovered(d) == []) {
      var fallback: string :| IsFallback(Uncovered(d), fallback) && text == Compose(d, fallback);
      FallbackBounded(Uncovered(d), fallback);
      assert d.records[0..] == d.records;
    }
  }

  /** The 6,000 characters limit the fallback, not the context: exactly when the context is longer.
      The condition adds up the summary, 21 characters of headings, and the clipped entries of the
      newest ten records that the summary does not cover. */
  lemma ContextOverLimit(d: Disk, text: string)
    requires IsContext(d, text)
    ensures |text| > 6000 <==>
            && IsValid(d) && Uncovered(d) != []
            && |ReadSummary(d)| + 21 + TextLength(NewestTen(Uncovered(d))) > 6000
    ensures |text| <= 6321
  {
    hide IsFallback, TextLength, NewestTen, ReadBack, ReadState;
    SummaryShort(d);
    if !(IsValid(d) && Uncovered(d) == []) {
      var fallback: string :| IsFallback(Uncovered(d), fallback) && text == Compose(d, fallback);
      FallbackBounded(Uncovered(d), fallback);
      FallbackLength(Uncovered(d), fallback);
    }
  }

  lemma SummaryShort(d: Disk)
    ensures |ReadSummary(d)| <= SUMMARY_MAX_CHARS
  {
    hide Normalize;
  }
}
