/** The background batch: files are converted one after another in queue
    order, the cancel flag is checked before each one, two progress events
    are published per file, and the counters are added to the running
    statistics at the end. The outcome of each conversion is an input. */
module Batch {
  import opened Options
  import Text
  import FileNames

  datatype Status = Pending | Converting | Completed | Failed

  /** Where a converted file was written. */
  datatype OutputFile = OutputFile(directory: string, name: string)

  /** A queued file. `id` stands for the object's identity: the Java class
      does not override `equals`, so two entries for the same path are still
      different entries. */
  datatype AudioFile = AudioFile(id: nat, name: string, status: Status, output: Option<OutputFile>)

  /** One published progress event. */
  datatype Progress = Progress(completed: nat, total: nat, fileName: string, fileProgress: nat)

  /** One assignment to a file's status, by queue position. */
  datatype StatusChange = StatusChange(index: nat, status: Status)

  /** The cumulative counters shown in the statistics panel. */
  datatype Statistics = Statistics(totalConverted: nat, successCount: nat, failedCount: nat)

  /** The counters of one batch. */
  datatype Counts = Counts(completed: nat, success: nat, failed: nat)

  /** Number of entries of `s` equal to `b`. */
  function Count(s: seq<bool>, b: bool): nat {
    if |s| == 0 then 0
    else Count(s[..|s| - 1], b) + (if s[|s| - 1] == b then 1 else 0)
  }

  /** Every outcome is either a success or a failure. */
  lemma {:induction false} CountSplit(s: seq<bool>)
    ensures Count(s, true) + Count(s, false) == |s|
  {
    if |s| > 0 {
      CountSplit(s[..|s| - 1]);
    }
  }

  lemma CountExtend(s: seq<bool>, i: nat)
    requires i < |s|
    ensures forall b :: Count(s[..i + 1], b) == Count(s[..i], b) + (if s[i] == b then 1 else 0)
  {
    assert s[..i + 1][..i] == s[..i];
  }

  /** How many files a batch reaches: all of them, or those before the first
      check that finds the flag cleared. */
  function Reached(total: nat, cancelAt: nat): (k: nat)
    ensures k <= total && k <= cancelAt
    ensures k == total || k == cancelAt
  {
    if cancelAt < total then cancelAt else total
  }

  /** A file after its conversion: COMPLETED with its output recorded, or
      FAILED with whatever output it had before. */
  function AfterConversion(f: AudioFile, ok: bool, directory: string, format: string): (g: AudioFile)
    ensures g.id == f.id && g.name == f.name
    ensures g.status == Completed <==> ok
    ensures g.status == Completed || g.status == Failed
    ensures ok ==> g.output == Some(OutputFile(directory, FileNames.OutputFileName(f.name, format)))
    ensures !ok ==> g.output == f.output
  {
    if ok then
      f.(status := Completed, output := Some(OutputFile(directory, FileNames.OutputFileName(f.name, format))))
    else
      f.(status := Failed)
  }

  /** The events of the first `k` files of `files`: a 0% event announcing
      file j with j files done, then a 100% event with j + 1 files done. */
  ghost predicate ProgressPairs(events: seq<Progress>, files: seq<AudioFile>, k: nat)
    requires k <= |files|
  {
    && |events| == 2 * k
    && forall j :: 0 <= j < k ==>
         && events[2 * j] == Progress(j, |files|, files[j].name, 0)
         && events[2 * j + 1] == Progress(j + 1, |files|, files[j].name, 100)
  }

  /** The status assignments of the first `k` files: CONVERTING, then the
      final status each file ends with. */
  ghost predicate StatusPairs(changes: seq<StatusChange>, after: seq<AudioFile>, k: nat)
    requires k <= |after|
  {
    && |changes| == 2 * k
    && forall j :: 0 <= j < k ==>
         && changes[2 * j] == StatusChange(j, Converting)
         && changes[2 * j + 1] == StatusChange(j, after[j].status)
  }

  lemma ProgressPairsExtend(events: seq<Progress>, files: seq<AudioFile>, i: nat)
    requires i < |files|
    requires ProgressPairs(events, files, i)
    ensures ProgressPairs(events + [Progress(i, |files|, files[i].name, 0),
                                    Progress(i + 1, |files|, files[i].name, 100)], files, i + 1)
  {
  }

  lemma StatusPairsExtend(changes: seq<StatusChange>, after: seq<AudioFile>, i: nat, done: AudioFile)
    requires i < |after|
    requires StatusPairs(changes, after, i)
    ensures StatusPairs(changes + [StatusChange(i, Converting), StatusChange(i, done.status)],
                        after[i := done], i + 1)
  {
  }

  /** The output folder and the output format as `convertAudioFile` reads
      them when a file's turn comes. Neither control is locked during a
      batch, so each file has its own. */
  datatype Selection = Selection(directory: string, format: string)

  /** The queue after the first `i` files have been converted, file j with
      the selection in force at its turn. */
  ghost predicate ConvertedUpTo(after: seq<AudioFile>, files: seq<AudioFile>, results: seq<bool>,
                                selections: seq<Selection>, i: nat)
    requires |results| == |files| && |selections| == |files|
  {
    && i <= |files| && |after| == |files|
    && (forall j :: 0 <= j < i ==>
          after[j] == AfterConversion(files[j], results[j], selections[j].directory, selections[j].format))
    && (forall j :: i <= j < |files| ==> after[j] == files[j])
  }

  lemma ConvertedUpToExtend(after: seq<AudioFile>, files: seq<AudioFile>, results: seq<bool>,
                            selections: seq<Selection>, i: nat)
    requires |results| == |files| && |selections| == |files| && i < |files|
    requires ConvertedUpTo(after, files, results, selections, i)
    ensures ConvertedUpTo(after[i := AfterConversion(files[i], results[i], selections[i].directory,
                                                     selections[i].format)],
                          files, results, selections, i + 1)
  {
  }

  /** `doInBackground`. `results[i]` is what converting file i returns,
      `selections[i]` the folder and format read for it, and `cancelAt` the
      index of the first check that finds the converting flag cleared (any
      index at or past the end if none does). */
  method RunBatch(files: seq<AudioFile>, results: seq<bool>, cancelAt: nat,
                  selections: seq<Selection>, stats: Statistics)
    returns (after: seq<AudioFile>, events: seq<Progress>, changes: seq<StatusChange>,
             counts: Counts, stats': Statistics)
    requires |results| == |files| && |selections| == |files|
    ensures var k := Reached(|files|, cancelAt);
            && ConvertedUpTo(after, files, results, selections, k)
            && ProgressPairs(events, files, k)
            && StatusPairs(changes, after, k)
            && counts.completed == k
            && counts.success == Count(results[..k], true)
            && counts.failed == Count(results[..k], false)
    ensures counts.success + counts.failed == counts.completed <= |files|
    ensures stats' == Statistics(stats.totalConverted + counts.completed,
                                 stats.successCount + counts.success,
                                 stats.failedCount + counts.failed)
  {
    var total := |files|;
    after := files;
    events := [];
    changes := [];
    var completed, success, failed := 0, 0, 0;
    var i := 0;
    while i < |files| && i != cancelAt
      invariant i <= |files| && i <= cancelAt
      invariant ConvertedUpTo(after, files, results, selections, i)
      invariant ProgressPairs(events, files, i)
      invariant StatusPairs(changes, after, i)
      invariant completed == i
      invariant success == Count(results[..i], true) && failed == Count(results[..i], false)
    {
      var file := files[i];
      ProgressPairsExtend(events, files, i);
      events := events + [Progress(completed, total, file.name, 0)];
      var done := AfterConversion(file, results[i], selections[i].directory, selections[i].format);
      ConvertedUpToExtend(after, files, results, selections, i);
      StatusPairsExtend(changes, after, i, done);
      changes := changes + [StatusChange(i, Converting)];
      if results[i] {
        success := success + 1;
      } else {
        failed := failed + 1;
      }
      after := after[i := done];
      changes := changes + [StatusChange(i, done.status)];
      completed := completed + 1;
      events := events + [Progress(completed, total, file.name, 100)];
      CountExtend(results, i);
      i := i + 1;
    }
    assert i == Reached(|files|, cancelAt);
    CountSplit(results[..i]);
    counts := Counts(completed, success, failed);
    stats' := Statistics(stats.totalConverted + completed, stats.successCount + success,
                         stats.failedCount + failed);
  }

  /** The same selection for each of `n` files. */
  function Snapshot(selection: Selection, n: nat): (r: seq<Selection>)
    ensures |r| == n && forall j :: 0 <= j < n ==> r[j] == selection
  {
    seq(n, j => selection)
  }

  /** A batch run with the folder and format taken once, when it starts: the
      batch as `doInBackground` runs it while the user leaves both controls
      alone, and every output of the batch lands in one folder with one
      extension. */
  method RunBatchWithSnapshot(files: seq<AudioFile>, results: seq<bool>, cancelAt: nat,
                              selection: Selection, stats: Statistics)
    returns (after: seq<AudioFile>, events: seq<Progress>, changes: seq<StatusChange>,
             counts: Counts, stats': Statistics)
    requires |results| == |files|
    ensures var k := Reached(|files|, cancelAt);
            && ConvertedUpTo(after, files, results, Snapshot(selection, |files|), k)
            && ProgressPairs(events, files, k)
            && StatusPairs(changes, after, k)
            && counts.completed == k
            && counts.success == Count(results[..k], true)
            && counts.failed == Count(results[..k], false)
    ensures counts.success + counts.failed == counts.completed <= |files|
    ensures forall j :: 0 <= j < |after| && after[j].status == Completed && files[j].status != Completed ==>
              && after[j].output.Some?
              && after[j].output.value.directory == selection.directory
              && Text.EndsWith(after[j].output.value.name,
                               FileNames.ConvertedMarker + "." + Text.Lower(selection.format))
    ensures stats' == Statistics(stats.totalConverted + counts.completed,
                                 stats.successCount + counts.success,
                                 stats.failedCount + counts.failed)
  {
    var snapshot := Snapshot(selection, |files|);
    after, events, changes, counts, stats' := RunBatch(files, results, cancelAt, snapshot, stats);
    forall j | 0 <= j < |after| && after[j].status == Completed && files[j].status != Completed
      ensures && after[j].output.Some?
              && after[j].output.value.directory == selection.directory
              && Text.EndsWith(after[j].output.value.name,
                               FileNames.ConvertedMarker + "." + Text.Lower(selection.format))
    {
      assert j < Reached(|files|, cancelAt);
      assert after[j] == AfterConversion(files[j], results[j], selection.directory, selection.format);
    }
  }

  /** With the selection changed from WAV to AIFF between two files, one
      batch writes two formats: whatever the two files are, the first comes
      out as WAV and the second as AIFF. */
  lemma SelectionChangeSplitsBatch(after: seq<AudioFile>, files: seq<AudioFile>)
    requires |files| == 2
    requires ConvertedUpTo(after, files, [true, true],
                           [Selection("out", "WAV"), Selection("out", "AIFF")], 2)
    ensures after[0].output.Some? && after[1].output.Some?
    ensures Text.EndsWith(after[0].output.value.name, FileNames.ConvertedMarker + ".wav")
    ensures Text.EndsWith(after[1].output.value.name, FileNames.ConvertedMarker + ".aiff")
  {
    assert after[0] == AfterConversion(files[0], true, "out", "WAV");
    assert after[1] == AfterConversion(files[1], true, "out", "AIFF");
    LowerWav();
    LowerAiff();
  }

  lemma LowerWav()
    ensures "." + Text.Lower("WAV") == ".wav"
  {
    assert Text.Lower("WAV") == [Text.LowerChar('W')] + Text.Lower("AV");
  }

  lemma LowerAiff()
    ensures "." + Text.Lower("AIFF") == ".aiff"
  {
    assert Text.Lower("AIFF") == [Text.LowerChar('A')] + Text.Lower("IFF");
  }

  /** The progress bar value of `process`: the completed share in whole
      percent, truncated; 0 when the total is 0 (the NaN cast in Java). */
  function Percent(p: Progress): (r: nat)
    requires p.completed <= p.total
    ensures r <= 100
    ensures p.total > 0 ==> r * p.total <= p.completed * 100 < (r + 1) * p.total
    ensures p.total > 0 ==> (r == 100 <==> p.completed == p.total)
  {
    if p.total == 0 then 0
    else
      PercentBounds(p.completed, p.total);
      p.completed * 100 / p.total
  }

  /** Floor division of the completed share by a non-zero total. */
  lemma PercentBounds(c: nat, t: nat)
    requires 0 < t && c <= t
    ensures var q := c * 100 / t;
            && q * t <= c * 100 < (q + 1) * t
            && q <= 100
            && (q == 100 <==> c == t)
  {
    var a := c * 100;
    var q := a / t;
    assert a == q * t + a % t;
    assert (q + 1) * t == q * t + t;
    if q > 100 {
      MulMono(101, q, t);
      assert false;
    }
    if c == t {
      assert a == 100 * t;
      if q < 100 {
        MulMono(q + 1, 100, t);
        assert false;
      }
    }
    if q == 100 && c < t {
      assert false;
    }
  }

  lemma MulMono(x: nat, y: nat, t: nat)
    requires x <= y
    ensures x * t <= y * t
  {
  }

  /** `process`: of a chunk of events only the latest is shown. */
  function Process(chunks: seq<Progress>): (r: nat)
    requires |chunks| > 0
    requires chunks[|chunks| - 1].completed <= chunks[|chunks| - 1].total
    ensures r <= 100
    ensures var p := chunks[|chunks| - 1];
            p.total > 0 ==> r * p.total <= p.completed * 100 < (r + 1) * p.total
  {
    Percent(chunks[|chunks| - 1])
  }

  /** The events of a batch never run backwards and never pass the total:
      event m reports (m + 1) / 2 files done, so every prefix of them can be
      handed to `process`. */
  lemma {:induction false} ProgressIsOrderedAndBounded(events: seq<Progress>, files: seq<AudioFile>, k: nat)
    requires k <= |files|
    requires ProgressPairs(events, files, k)
    ensures forall m :: 0 <= m < |events| ==> events[m].completed == (m + 1) / 2
    ensures forall m :: 0 <= m < |events| ==> events[m].completed <= events[m].total == |files|
    ensures forall a, b :: 0 <= a <= b < |events| ==> events[a].completed <= events[b].completed
    ensures forall m :: 0 <= m < |events| ==> events[m].fileName == files[m / 2].name
  {
    forall m | 0 <= m < |events|
      ensures events[m].completed == (m + 1) / 2 && events[m].total == |files|
      ensures events[m].fileName == files[m / 2].name
    {
      var j := m / 2;
      assert events[2 * j] == Progress(j, |files|, files[j].name, 0);
      assert events[2 * j + 1] == Progress(j + 1, |files|, files[j].name, 100);
      if m % 2 == 0 {
        assert m == 2 * j;
      } else {
        assert m == 2 * j + 1;
      }
    }
  }
}
