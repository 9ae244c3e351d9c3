/**
 * The bulk conversion worker: it walks the file list in order, checks the
 * progress monitor's cancel button before each file, loads and converts the
 * file, and tallies each outcome into exactly one of three counters; at the
 * end it chooses one of two completion summaries.
 */
module Worker {
  import opened Wrappers
  import opened Naming
  import opened Disk
  import opened Dialog

  /**
   * What the outside world does around one entry of the file list: whether
   * the monitor reports "canceled" when the entry is reached, whether loading
   * the image succeeds, the I/O of its conversion, and the stopwatch reading
   * for the conversion.
   */
  datatype FileEnv = FileEnv(canceled: bool, loaded: Option<Image>, io: IoEnv, elapsed: nat)

  /**
   * The worker's state part way through a run: the file system, the three
   * counters, the time total, the cancel flag, how many entries were
   * visited, and the values handed to the monitor's setProgress.
   */
  datatype Tally = Tally(
    files: FileMap,
    converted: nat,
    skipped: nat,
    problems: nat,
    totalTime: nat,
    canceled: bool,
    visited: nat,
    progress: seq<nat>)

  /** The state run() starts from: every counter and the time at zero, not canceled. */
  function Start(files: FileMap): Tally
  {
    Tally(files, 0, 0, 0, 0, false, 0, [])
  }

  function Counted(t: Tally): nat
  {
    t.converted + t.skipped + t.problems
  }

  /** One pass of the loop body for a file that was not canceled before. */
  function Step(t: Tally, src: Path, e: FileEnv, owner: Settings): Tally
  {
    match e.loaded
    case None => t.(problems := t.problems + 1, visited := t.visited + 1)
    case Some(image) =>
      var c := Convert(t.files, src, image, owner, e.io);
      var u := t.(files := c.files, totalTime := t.totalTime + e.elapsed,
                  visited := t.visited + 1, progress := t.progress + [|t.progress| + 1]);
      match c.outcome
      case SkippedBecauseExists => u.(skipped := u.skipped + 1)
      case InternalError => u.(problems := u.problems + 1)
      case Success => u.(converted := u.converted + 1)
  }

  /** The rest of a run from state t over the remaining entries. */
  function RunFrom(t: Tally, list: seq<Path>, envs: seq<FileEnv>, owner: Settings): Tally
    requires |envs| == |list|
    decreases |list|
  {
    if list == [] then t
    else if envs[0].canceled then t.(canceled := true)
    else RunFrom(Step(t, list[0], envs[0], owner), list[1..], envs[1..], owner)
  }

  /** Unfolding a run at position k: cancel there ends it, otherwise entry k is handled next. */
  lemma RunFromAt(t: Tally, list: seq<Path>, envs: seq<FileEnv>, owner: Settings, k: nat)
    requires |envs| == |list| && k < |list|
    ensures envs[k].canceled ==> RunFrom(t, list[k..], envs[k..], owner) == t.(canceled := true)
    ensures !envs[k].canceled ==>
      RunFrom(t, list[k..], envs[k..], owner) ==
      RunFrom(Step(t, list[k], envs[k], owner), list[k + 1..], envs[k + 1..], owner)
  {
    assert list[k..][1..] == list[k + 1..];
    assert envs[k..][1..] == envs[k + 1..];
  }

  /** The position of the first entry at which cancel is seen, or the length when it never is. */
  function FirstCancel(envs: seq<FileEnv>): (k: nat)
    ensures k <= |envs|
    ensures forall j :: 0 <= j < k ==> !envs[j].canceled
    ensures k < |envs| ==> envs[k].canceled
  {
    if envs == [] then 0
    else if envs[0].canceled then 0
    else 1 + FirstCancel(envs[1..])
  }

  /** How many of the entries load successfully. */
  function LoadedCount(envs: seq<FileEnv>): nat
  {
    if envs == [] then 0
    else (if envs[0].loaded.Some? then 1 else 0) + LoadedCount(envs[1..])
  }

  /** The conversion time of the entries that load successfully. */
  function LoadedTime(envs: seq<FileEnv>): nat
  {
    if envs == [] then 0
    else (if envs[0].loaded.Some? then envs[0].elapsed else 0) + LoadedTime(envs[1..])
  }

  /** The progress values 1, 2, 3, ... in order. */
  predicate CountsUp(p: seq<nat>)
  {
    forall j :: 0 <= j < |p| ==> p[j] == j + 1
  }

  /**
   * Each visited file increments exactly one counter: a failed load and an
   * InternalError count as problems, SkippedBecauseExists as skipped, Success
   * as converted. Only a loaded file moves the progress index, adds its time
   * and can change the files.
   */
  lemma StepCountsOnce(t: Tally, src: Path, e: FileEnv, owner: Settings)
    ensures Counted(Step(t, src, e, owner)) == Counted(t) + 1
    ensures Step(t, src, e, owner).visited == t.visited + 1
    ensures Step(t, src, e, owner).canceled == t.canceled
    ensures e.loaded.None? ==> Step(t, src, e, owner) == t.(problems := t.problems + 1, visited := t.visited + 1)
    ensures e.loaded.Some? ==>
      var c := Convert(t.files, src, e.loaded.value, owner, e.io);
      var u := Step(t, src, e, owner);
      && u.files == c.files
      && u.totalTime == t.totalTime + e.elapsed
      && u.progress == t.progress + [|t.progress| + 1]
      && (u.converted == t.converted + 1 <==> c.outcome == Success)
      && (u.skipped == t.skipped + 1 <==> c.outcome == SkippedBecauseExists)
      && (u.problems == t.problems + 1 <==> c.outcome == InternalError)
  {
  }

  lemma PrefixOfCons(envs: seq<FileEnv>)
    requires envs != [] && !envs[0].canceled
    ensures envs[..FirstCancel(envs)] == [envs[0]] + envs[1..][..FirstCancel(envs[1..])]
  {
  }

  /**
   * Over the rest of a run: the entries visited are those before the first
   * cancel, each adds one to the counters, and the run ends canceled exactly
   * when a cancel was seen.
   */
  lemma {:induction false} RunVisits(t: Tally, list: seq<Path>, envs: seq<FileEnv>, owner: Settings)
    requires |envs| == |list|
    ensures RunFrom(t, list, envs, owner).visited == t.visited + FirstCancel(envs)
    ensures Counted(RunFrom(t, list, envs, owner)) == Counted(t) + FirstCancel(envs)
    ensures RunFrom(t, list, envs, owner).canceled == (t.canceled || FirstCancel(envs) < |list|)
    decreases |list|
  {
    if list != [] && !envs[0].canceled {
      StepCountsOnce(t, list[0], envs[0], owner);
      RunVisits(Step(t, list[0], envs[0], owner), list[1..], envs[1..], owner);
    }
  }

  /** A step appends the next progress value exactly when the file loads. */
  lemma StepProgress(t: Tally, src: Path, e: FileEnv, owner: Settings)
    ensures Step(t, src, e, owner).progress ==
      if e.loaded.Some? then t.progress + [|t.progress| + 1] else t.progress
  {
  }

  /** Over the rest of a run the progress values grow by one for each loaded file before the first cancel. */
  lemma {:induction false} RunProgress(t: Tally, list: seq<Path>, envs: seq<FileEnv>, owner: Settings)
    requires |envs| == |list|
    ensures |RunFrom(t, list, envs, owner).progress| == |t.progress| + LoadedCount(envs[..FirstCancel(envs)])
    ensures RunFrom(t, list, envs, owner).progress[..|t.progress|] == t.progress
    decreases |list|
  {
    if list != [] && !envs[0].canceled {
      var u := Step(t, list[0], envs[0], owner);
      StepProgress(t, list[0], envs[0], owner);
      RunProgress(u, list[1..], envs[1..], owner);
      PrefixOfCons(envs);
      var p := envs[..FirstCancel(envs)];
      assert p[0] == envs[0] && p[1..] == envs[1..][..FirstCancel(envs[1..])];
      assert u.progress[..|t.progress|] == t.progress;
    }
  }

  /** The progress values keep counting 1, 2, 3, ... over the rest of a run. */
  lemma {:induction false} RunCountsUp(t: Tally, list: seq<Path>, envs: seq<FileEnv>, owner: Settings)
    requires |envs| == |list| && CountsUp(t.progress)
    ensures CountsUp(RunFrom(t, list, envs, owner).progress)
    decreases |list|
  {
    if list != [] && !envs[0].canceled {
      var u := Step(t, list[0], envs[0], owner);
      StepProgress(t, list[0], envs[0], owner);
      RunCountsUp(u, list[1..], envs[1..], owner);
    }
  }

  /** A step adds the file's elapsed time exactly when the file loads. */
  lemma StepTime(t: Tally, src: Path, e: FileEnv, owner: Settings)
    ensures Step(t, src, e, owner).totalTime ==
      t.totalTime + if e.loaded.Some? then e.elapsed else 0
  {
  }

  /** Over the rest of a run the time total grows by the times of the loaded files before the first cancel. */
  lemma {:induction false} RunTime(t: Tally, list: seq<Path>, envs: seq<FileEnv>, owner: Settings)
    requires |envs| == |list|
    ensures RunFrom(t, list, envs, owner).totalTime == t.totalTime + LoadedTime(envs[..FirstCancel(envs)])
    decreases |list|
  {
    if list != [] && !envs[0].canceled {
      StepTime(t, list[0], envs[0], owner);
      RunTime(Step(t, list[0], envs[0], owner), list[1..], envs[1..], owner);
      PrefixOfCons(envs);
      var p := envs[..FirstCancel(envs)];
      assert p[0] == envs[0] && p[1..] == envs[1..][..FirstCancel(envs[1..])];
    }
  }

  /**
   * Once cancel is seen at entry k, nothing at or after k is loaded or
   * converted: the run ends in the state reached by the first k entries,
   * marked canceled.
   */
  lemma {:induction false} CancelStopsRun(t: Tally, list: seq<Path>, envs: seq<FileEnv>, owner: Settings)
    requires |envs| == |list| && FirstCancel(envs) < |list|
    ensures RunFrom(t, list, envs, owner) ==
      RunFrom(t, list[..FirstCancel(envs)], envs[..FirstCancel(envs)], owner).(canceled := true)
    decreases |list|
  {
    var k := FirstCancel(envs);
    if k > 0 {
      CancelStopsRun(Step(t, list[0], envs[0], owner), list[1..], envs[1..], owner);
      assert list[..k][1..] == list[1..][..k - 1];
      assert envs[..k][1..] == envs[1..][..k - 1];
    }
  }

  /**
   * From the start of run(): converted + skipped + problems is the number of
   * files visited, which is the whole list unless the run was canceled; the
   * progress values are 1, 2, ... one per loaded file; and the time total is
   * the sum over the loaded files.
   */
  lemma RunFromStart(files: FileMap, list: seq<Path>, envs: seq<FileEnv>, owner: Settings)
    requires |envs| == |list|
    ensures var r := RunFrom(Start(files), list, envs, owner);
      && Counted(r) == r.visited <= |list|
      && (r.canceled <==> r.visited < |list|)
      && (!r.canceled ==> r.visited == |list|)
      && (r.canceled ==> envs[r.visited].canceled)
      && (forall j :: 0 <= j < r.visited ==> !envs[j].canceled)
      && CountsUp(r.progress)
      && |r.progress| == LoadedCount(envs[..r.visited])
      && r.totalTime == LoadedTime(envs[..r.visited])
  {
    RunVisits(Start(files), list, envs, owner);
    RunProgress(Start(files), list, envs, owner);
    RunCountsUp(Start(files), list, envs, owner);
    RunTime(Start(files), list, envs, owner);
  }

  /** An empty list is never reported as canceled, and no file changes. */
  lemma EmptyListNotCanceled(files: FileMap, owner: Settings)
    ensures !RunFrom(Start(files), [], [], owner).canceled
    ensures RunFrom(Start(files), [], [], owner).files == files
  {
  }

  /** The two messages conversionCompleteHandler can show. */
  datatype Summary =
    | CanceledSummary(converted: nat)
    | CompleteSummary(processed: nat, converted: nat, skipped: nat, totalTime: nat, problems: Option<nat>)

  /** The title of the message window: one title per kind of summary. */
  function SummaryTitle(m: Summary): (t: string)
    ensures t == "Conversion canceled" <==> m.CanceledSummary?
    ensures t == "Conversion complete" <==> m.CompleteSummary?
  {
    if m.CanceledSummary? then "Conversion canceled" else "Conversion complete"
  }

  /**
   * conversionCompleteHandler: a canceled run reports only how many images
   * were converted; otherwise the processed, converted and skipped counts and
   * the time, with a problems line only when there were problems.
   */
  function CompletionSummary(canceled: bool, processed: nat, converted: nat, skipped: nat,
                             problems: nat, totalTime: nat): (m: Summary)
    ensures m.CanceledSummary? <==> canceled
    ensures SummaryTitle(m) == "Conversion canceled" <==> canceled
    ensures m.converted == converted
    ensures m.CompleteSummary? ==>
      m.processed == processed && m.skipped == skipped && m.totalTime == totalTime &&
      (m.problems.Some? <==> problems > 0) &&
      (m.problems.Some? ==> m.problems.value == problems)
  {
    if canceled then CanceledSummary(converted)
    else CompleteSummary(processed, converted, skipped, totalTime,
                         if problems > 0 then Some(problems) else None)
  }

  /**
   * The summary of a finished run adds up: the processed count (the list
   * size) is converted + skipped + problems, so without a problems line it
   * is converted + skipped. A canceled run stopped short of the list, so the
   * list size (what getProcessedCount still returns) overstates the files
   * visited.
   */
  lemma SummaryOfRun(files: FileMap, list: seq<Path>, envs: seq<FileEnv>, owner: Settings)
    requires |envs| == |list|
    ensures var r := RunFrom(Start(files), list, envs, owner);
      var m := CompletionSummary(r.canceled, |list|, r.converted, r.skipped, r.problems, r.totalTime);
      && (m.CompleteSummary? ==> m.processed == m.converted + m.skipped + r.problems)
      && (m.CompleteSummary? && m.problems.None? ==> m.processed == m.converted + m.skipped)
      && (m.CanceledSummary? ==> r.converted + r.skipped + r.problems < |list|)
  {
    RunFromStart(files, list, envs, owner);
  }

  /** ImageConverterThread: the worker object whose counters run() updates in place. */
  class ConverterThread {
    const owner: Settings
    const fileList: seq<Path>
    const extraLogging: bool
    /** The progress monitor's maximum: the list size, or 100 for an empty list. */
    const monitorMaximum: nat
    var convertedCount: nat
    var skippedCount: nat
    var problemCount: nat
    var totalTimeSpent: nat
    var wasCanceled: bool
    /** The values passed to the monitor's setProgress, in order. */
    var progressReports: seq<nat>

    constructor (owner: Settings, list: seq<Path>, extraLogging: bool)
      ensures this.owner == owner && fileList == list && this.extraLogging == extraLogging
      ensures monitorMaximum == if |list| == 0 then 100 else |list|
      ensures convertedCount == 0 && skippedCount == 0 && problemCount == 0
      ensures totalTimeSpent == 0 && !wasCanceled && progressReports == []
    {
      this.owner := owner;
      fileList := list;
      this.extraLogging := extraLogging;
      monitorMaximum := if |list| == 0 then 100 else |list|;
      convertedCount, skippedCount, problemCount := 0, 0, 0;
      totalTimeSpent, wasCanceled := 0, false;
      progressReports := [];
    }

    /** getProcessedCount: the size of the list, whether or not the run was canceled. */
    function ProcessedCount(): nat
    {
      |fileList|
    }

    /** The worker's state after `visited` entries, as the specification functions see it. */
    ghost function Current(files: FileMap, visited: nat): Tally
      reads this
    {
      Tally(files, convertedCount, skippedCount, problemCount, totalTimeSpent, wasCanceled,
            visited, progressReports)
    }

    /**
     * run(): the counters are reset, then each entry is handled in order
     * until the list ends or cancel is seen; the fields end as the
     * specification's run from the initial file system says.
     */
    method Run(store: FileStore, envs: seq<FileEnv>)
      requires |envs| == |fileList|
      modifies this, store
      ensures var r := RunFrom(Start(old(store.files)), fileList, envs, owner);
        && convertedCount == r.converted && skippedCount == r.skipped && problemCount == r.problems
        && totalTimeSpent == r.totalTime && wasCanceled == r.canceled
        && progressReports == r.progress && store.files == r.files
    {
      convertedCount := 0;
      skippedCount := 0;
      problemCount := 0;
      totalTimeSpent := 0;
      wasCanceled := false;
      progressReports := [];
      var i := 1;
      ghost var whole := RunFrom(Start(store.files), fileList, envs, owner);
      var k := 0;
      while k < |fileList|
        invariant 0 <= k <= |fileList|
        invariant !wasCanceled
        invariant i == |progressReports| + 1
        invariant RunFrom(Current(store.files, k), fileList[k..], envs[k..], owner) == whole
      {
        RunFromAt(Current(store.files, k), fileList, envs, owner, k);
        if envs[k].canceled {
          wasCanceled := true;
          break;
        }
        i := HandleFile(store, fileList[k], envs[k], i, k);
        k := k + 1;
      }
    }

    /**
     * The body of run()'s loop for a file at which no cancel was seen: load
     * it, report progress, convert it, add its time and count its outcome.
     * `i` is the next progress value.
     */
    method HandleFile(store: FileStore, file: Path, e: FileEnv, i: nat, ghost visited: nat)
      returns (next: nat)
      requires i == |progressReports| + 1
      modifies this, store
      ensures next == |progressReports| + 1
      ensures Current(store.files, visited + 1) == Step(old(Current(store.files, visited)), file, e, owner)
    {
      next := i;
      match e.loaded {
        case None =>
          problemCount := problemCount + 1;
        case Some(image) =>
          progressReports := progressReports + [next];
          next := next + 1;
          var outcome := ConvertImage(store, file, image, owner, e.io);
          totalTimeSpent := totalTimeSpent + e.elapsed;
          match outcome {
            case SkippedBecauseExists =>
              skippedCount := skippedCount + 1;
            case InternalError =>
              problemCount := problemCount + 1;
            case Success =>
              convertedCount := convertedCount + 1;
          }
      }
    }

    /** conversionCompleteHandler's choice of message, from the fields run() left. */
    function CompletionMessage(): (m: Summary)
      reads this
      ensures m.CanceledSummary? <==> wasCanceled
      ensures SummaryTitle(m) == "Conversion canceled" <==> wasCanceled
      ensures m.CompleteSummary? ==> m.processed == |fileList|
    {
      CompletionSummary(wasCanceled, ProcessedCount(), convertedCount, skippedCount,
                        problemCount, totalTimeSpent)
    }
  }

  /**
   * The confirmed part of convertBulk: the extensions the directory search
   * is given, and a worker over the files it found when the user confirms.
   * The search itself is the caller's; `found` is its answer. It belongs to
   * the dialog but lives here because it creates a ConverterThread, and the
   * Worker module already imports Dialog.
   */
  method StartBulk(s: Settings, found: seq<Path>, confirmed: bool)
    returns (extensions: seq<string>, worker: ConverterThread?)
    ensures forall e :: e in extensions <==> ExtensionFormat(e) == Some(Other(TargetFormat(s.formatIndex)))
    ensures worker != null <==> confirmed
    ensures worker != null ==>
      && fresh(worker) && worker.owner == s && worker.fileList == found
      && worker.extraLogging == s.extraLogging && !worker.wasCanceled && worker.convertedCount == 0
  {
    extensions := BulkExtensions(s.formatIndex);
    if !confirmed {
      return extensions, null;
    }
    worker := new ConverterThread(s, found, s.extraLogging);
  }
}
