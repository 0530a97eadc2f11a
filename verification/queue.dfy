/** The window's queue and its idle/converting state machine: adding,
    dropping, removing and clearing files, starting and stopping a
    conversion, and the reset when the background batch finishes. A press
    on a disabled button does nothing, so each button action first looks
    at the button's enabled flag. */
module Queue {
  import opened Options
  import Text
  import FileNames
  import Batch

  /** Enabled flags of add, remove, clear, convert and stop. */
  datatype Controls = Controls(add: bool, remove: bool, clear: bool, convert: bool, stop: bool)

  const IdleControls: Controls := Controls(true, true, true, true, false)
  const BusyControls: Controls := Controls(false, false, false, false, true)

  /** The window state the core logic reads and writes. `converting` is the
      flag the batch checks before each file; `nextId` is the identity the
      next queued object receives. */
  datatype App = App(
    files: seq<Batch.AudioFile>,
    nextId: nat,
    converting: bool,
    controls: Controls,
    progress: nat,
    stats: Batch.Statistics)

  /** The state right after construction: empty queue, stop disabled. */
  const Initial: App := App([], 0, false, IdleControls, 0, Batch.Statistics(0, 0, 0))

  predicate DistinctIds(files: seq<Batch.AudioFile>) {
    forall i, j :: 0 <= i < j < |files| ==> files[i].id != files[j].id
  }

  predicate IdsBelow(files: seq<Batch.AudioFile>, bound: nat) {
    forall i :: 0 <= i < |files| ==> files[i].id < bound
  }

  /** The invariant of every reachable state: entries are distinct objects,
      fresh identities stay fresh, the buttons show one of the two layouts,
      and the converting flag is only ever set under the busy layout. */
  predicate Valid(a: App) {
    && DistinctIds(a.files)
    && IdsBelow(a.files, a.nextId)
    && (a.controls == IdleControls || a.controls == BusyControls)
    && (a.converting ==> a.controls == BusyControls)
    && a.progress <= 100
  }

  /** A worker is running from `startConversion` until `done`. */
  predicate Busy(a: App) {
    a.controls == BusyControls
  }

  lemma InitialIsValid()
    ensures Valid(Initial) && !Busy(Initial)
  {
  }

  // ---------------------------------------------------------------- queue

  /** The file names of a run of entries. */
  function NamesOf(files: seq<Batch.AudioFile>): seq<string> {
    seq(|files|, k requires 0 <= k < |files| => files[k].name)
  }

  /** New PENDING entries for `names`, numbered from `firstId`. */
  function NewEntries(firstId: nat, names: seq<string>): seq<Batch.AudioFile> {
    seq(|names|, k requires 0 <= k < |names| => Batch.AudioFile(firstId + k, names[k], Batch.Pending, None))
  }

  /** `addAudioFile` for each name in turn: the queue keeps its entries and
      gains one PENDING entry without output per name, in order, each a new
      object. */
  function Append(a: App, names: seq<string>): (r: App)
    ensures |r.files| == |a.files| + |names| && r.files[..|a.files|] == a.files
    ensures NamesOf(r.files[|a.files|..]) == names
    ensures forall k :: |a.files| <= k < |r.files| ==>
              && r.files[k].status == Batch.Pending && r.files[k].output.None?
              && a.nextId <= r.files[k].id < r.nextId
    ensures r.(files := a.files, nextId := a.nextId) == a
  {
    var r := a.(files := a.files + NewEntries(a.nextId, names), nextId := a.nextId + |names|);
    assert r.files[|a.files|..] == NewEntries(a.nextId, names);
    r
  }

  /** `addFiles` after the chooser returned `names`: with the add button
      enabled every chosen file is queued, in order; otherwise nothing changes. */
  function AddFiles(a: App, names: seq<string>): (r: App)
    ensures !a.controls.add ==> r == a
    ensures a.controls.add ==> |r.files| == |a.files| + |names| && r.files[..|a.files|] == a.files
    ensures a.controls.add ==> NamesOf(r.files[|a.files|..]) == names
    ensures a.controls.add ==> r == Append(a, names)
  {
    if !a.controls.add then a else Append(a, names)
  }

  /** The dropped names that pass the input filter, in drop order. */
  function AudioNames(names: seq<string>): (r: seq<string>)
    ensures |r| <= |names|
    ensures forall n :: n in r <==> n in names && FileNames.IsAudioFile(n)
  {
    if |names| == 0 then []
    else
      var rest := AudioNames(names[1..]);
      assert forall n :: n in names <==> n == names[0] || n in names[1..];
      if FileNames.IsAudioFile(names[0]) then [names[0]] + rest else rest
  }

  /** The filter keeps drop order: filtering a concatenation filters each
      part in turn. */
  lemma {:induction false} AudioNamesAppend(x: seq<string>, y: seq<string>)
    ensures AudioNames(x + y) == AudioNames(x) + AudioNames(y)
  {
    if |x| > 0 {
      assert (x + y)[1..] == x[1..] + y;
      AudioNamesAppend(x[1..], y);
    } else {
      assert x + y == y;
    }
  }

  /** A single dropped name is kept exactly when it passes the filter. */
  lemma AudioNamesOne(n: string)
    ensures AudioNames([n]) == if FileNames.IsAudioFile(n) then [n] else []
  {
  }

  /** The drop listener as written: queues every dropped file that passes
      the input filter, in drop order, with no look at whether a conversion
      is running. */
  function DropAsWritten(a: App, names: seq<string>): (r: App)
    ensures |r.files| >= |a.files| && r.files[..|a.files|] == a.files
    ensures forall n :: n in NamesOf(r.files[|a.files|..]) <==> n in names && FileNames.IsAudioFile(n)
    ensures r == Append(a, AudioNames(names))
  {
    Append(a, AudioNames(names))
  }

  /** The drop listener with the guard the add button has: nothing is queued
      while a batch runs. */
  function Drop(a: App, names: seq<string>): (r: App)
    ensures !a.controls.add ==> r == a
    ensures a.controls.add ==> r == DropAsWritten(a, names)
  {
    if !a.controls.add then a else DropAsWritten(a, names)
  }

  /** A drop during a conversion changes the queue the batch is walking. */
  lemma DropAsWrittenChangesQueueWhileConverting()
    ensures var a := App([Batch.AudioFile(0, "a.wav", Batch.Converting, None)], 1, true,
                         BusyControls, 0, Batch.Statistics(0, 0, 0));
            Valid(a) && a.converting && DropAsWritten(a, ["b.wav"]).files != a.files
  {
    var a := App([Batch.AudioFile(0, "a.wav", Batch.Converting, None)], 1, true,
                 BusyControls, 0, Batch.Statistics(0, 0, 0));
    assert FileNames.IsAudioFile("b.wav") by {
      assert Text.Lower("b.wav") == "b.wav";
      assert Text.EndsWith("b.wav", ".wav");
    }
    assert AudioNames(["b.wav"]) == ["b.wav"];
    assert |DropAsWritten(a, ["b.wav"]).files| == 2;
  }

  /** The entries whose identities are not selected, in queue order. */
  function Kept(files: seq<Batch.AudioFile>, selected: set<nat>): seq<Batch.AudioFile> {
    if |files| == 0 then []
    else (if files[0].id in selected then [] else [files[0]]) + Kept(files[1..], selected)
  }

  lemma {:induction false} KeptMembers(files: seq<Batch.AudioFile>, selected: set<nat>)
    ensures |Kept(files, selected)| <= |files|
    ensures forall f :: f in Kept(files, selected) <==> f in files && f.id !in selected
  {
    if |files| > 0 {
      KeptMembers(files[1..], selected);
      assert forall f :: f in files <==> f == files[0] || f in files[1..];
    }
  }

  lemma {:induction false} KeptDistinct(files: seq<Batch.AudioFile>, selected: set<nat>)
    ensures DistinctIds(files) ==> DistinctIds(Kept(files, selected))
  {
    if |files| > 0 && DistinctIds(files) {
      var rest := Kept(files[1..], selected);
      KeptDistinct(files[1..], selected);
      KeptMembers(files[1..], selected);
      assert DistinctIds(files[1..]);
      forall f | f in rest
        ensures f.id != files[0].id
      {
        var k :| 0 <= k < |files[1..]| && files[1..][k] == f;
        assert files[k + 1] == f;
      }
    }
  }

  /** The queue without the selected objects. */
  function Without(files: seq<Batch.AudioFile>, selected: set<nat>): (r: seq<Batch.AudioFile>)
    ensures |r| <= |files|
    ensures forall f :: f in r <==> f in files && f.id !in selected
    ensures DistinctIds(files) ==> DistinctIds(r)
  {
    KeptMembers(files, selected);
    KeptDistinct(files, selected);
    Kept(files, selected)
  }

  /** Removal keeps queue order: removing from a concatenation removes from
      each part in turn. */
  lemma {:induction false} WithoutAppend(x: seq<Batch.AudioFile>, y: seq<Batch.AudioFile>, selected: set<nat>)
    ensures Without(x + y, selected) == Without(x, selected) + Without(y, selected)
  {
    KeptAppend(x, y, selected);
  }

  lemma {:induction false} KeptAppend(x: seq<Batch.AudioFile>, y: seq<Batch.AudioFile>, selected: set<nat>)
    ensures Kept(x + y, selected) == Kept(x, selected) + Kept(y, selected)
  {
    if |x| > 0 {
      assert (x + y)[0] == x[0] && (x + y)[1..] == x[1..] + y;
      KeptAppend(x[1..], y, selected);
    } else {
      assert x + y == y;
    }
  }

  /** A single entry stays exactly when it is not selected. */
  lemma WithoutOne(f: Batch.AudioFile, selected: set<nat>)
    ensures Without([f], selected) == if f.id in selected then [] else [f]
  {
    assert [f][1..] == [];
    assert Kept([f], selected) == (if f.id in selected then [] else [f]) + Kept([], selected);
  }

  /** `removeSelectedFiles` with the objects whose identities are `selected`:
      exactly the selected entries leave the queue; nothing happens for an
      empty selection or a disabled button. */
  function RemoveSelected(a: App, selected: set<nat>): (r: App)
    ensures (!a.controls.remove || selected == {}) ==> r == a
    ensures forall f :: f in r.files <==>
              f in a.files && (f.id !in selected || !a.controls.remove)
    ensures a.controls.remove && selected != {} ==> r.files == Without(a.files, selected)
    ensures r.(files := a.files) == a
  {
    if !a.controls.remove || selected == {} then a
    else a.(files := Without(a.files, selected))
  }

  /** Removal goes by identity: an entry that is not selected stays, even
      when a selected entry has the same file name. */
  lemma RemovalIsByIdentity(a: App, selected: set<nat>, i: int)
    requires a.controls.remove && selected != {}
    requires 0 <= i < |a.files|
    ensures a.files[i].id in selected ==> a.files[i] !in RemoveSelected(a, selected).files
    ensures a.files[i].id !in selected ==> a.files[i] in RemoveSelected(a, selected).files
  {
  }

  /** `clearAllFiles` with the user's answer to the confirmation dialog. */
  function ClearAll(a: App, confirmed: bool): (r: App)
    ensures r.files == [] <==> a.files == [] || (a.controls.clear && confirmed)
    ensures r.files != [] ==> r.files == a.files
    ensures r.(files := a.files) == a
  {
    if !a.controls.clear || |a.files| == 0 || !confirmed then a
    else a.(files := [])
  }

  // ------------------------------------------------------- state machine

  /** `startConversion`: refused for an empty queue or a running conversion;
      otherwise the flag is raised, the progress bar reset and the busy
      layout shown. */
  function StartConversion(a: App): (r: App)
    ensures r.files == a.files && r.nextId == a.nextId && r.stats == a.stats
    ensures r != a <==> a.controls.convert && |a.files| > 0 && !a.converting
    ensures r != a ==> r.converting && r.controls == BusyControls && r.progress == 0
  {
    if !a.controls.convert then a
    else if |a.files| == 0 then a
    else if a.converting then a
    else a.(converting := true, controls := BusyControls, progress := 0)
  }

  /** `stopConversion` with the user's answer: only clears the flag, and only
      while it is set. */
  function StopConversion(a: App, confirmed: bool): (r: App)
    ensures r.(converting := a.converting) == a
    ensures r.converting <==> a.converting && !(a.controls.stop && confirmed)
  {
    if !a.controls.stop then a
    else if !a.converting then a
    else if !confirmed then a
    else a.(converting := false)
  }

  /** `done`: the flag is cleared, the idle layout restored and the bar filled. */
  function Done(a: App): (r: App)
    ensures !r.converting && r.controls == IdleControls && r.progress == 100
    ensures r.files == a.files && r.nextId == a.nextId && r.stats == a.stats
  {
    a.(converting := false, controls := IdleControls, progress := 100)
  }

  /** The user actions, with drops going through the guarded listener. */
  datatype Action =
    | AddPressed(names: seq<string>)
    | Dropped(names: seq<string>)
    | RemovePressed(selected: set<nat>)
    | ClearPressed(confirmed: bool)
    | ConvertPressed
    | StopPressed(confirmed: bool)

  function Apply(a: App, act: Action): App {
    match act
    case AddPressed(names) => AddFiles(a, names)
    case Dropped(names) => Drop(a, names)
    case RemovePressed(selected) => RemoveSelected(a, selected)
    case ClearPressed(confirmed) => ClearAll(a, confirmed)
    case ConvertPressed => StartConversion(a)
    case StopPressed(confirmed) => StopConversion(a, confirmed)
  }

  lemma AppendKeepsValid(a: App, names: seq<string>)
    requires Valid(a)
    ensures Valid(Append(a, names))
  {
    var r := Append(a, names);
    var n := |a.files|;
    forall i, j | 0 <= i < j < |r.files|
      ensures r.files[i].id != r.files[j].id
    {
      if j >= n {
        assert r.files[j].id == a.nextId + (j - n);
        if i >= n {
          assert r.files[i].id == a.nextId + (i - n);
        } else {
          assert r.files[i] == a.files[i];
        }
      } else {
        assert r.files[i] == a.files[i] && r.files[j] == a.files[j];
      }
    }
    forall i | 0 <= i < |r.files|
      ensures r.files[i].id < r.nextId
    {
      if i >= n {
        assert r.files[i].id == a.nextId + (i - n);
      } else {
        assert r.files[i] == a.files[i];
      }
    }
  }

  lemma WithoutKeepsIdsBelow(files: seq<Batch.AudioFile>, selected: set<nat>, bound: nat)
    requires IdsBelow(files, bound)
    ensures IdsBelow(Without(files, selected), bound)
  {
    var r := Without(files, selected);
    forall i | 0 <= i < |r|
      ensures r[i].id < bound
    {
      assert r[i] in files;
    }
  }

  /** Every user action keeps the invariant. */
  lemma ApplyKeepsValid(a: App, act: Action)
    requires Valid(a)
    ensures Valid(Apply(a, act))
  {
    match act
    case AddPressed(names) =>
      AppendKeepsValid(a, names);
    case Dropped(names) =>
      AppendKeepsValid(a, AudioNames(names));
    case RemovePressed(selected) =>
      WithoutKeepsIdsBelow(a.files, selected, a.nextId);
    case ClearPressed(_) =>
    case ConvertPressed =>
    case StopPressed(_) =>
  }

  /** While a batch runs, no action changes the queue and a second start is
      refused; only the stop button has an effect, and it only clears the flag. */
  lemma QueueFrozenWhileBusy(a: App, act: Action)
    requires Valid(a) && Busy(a)
    ensures Apply(a, act).files == a.files && Apply(a, act).nextId == a.nextId
    ensures Apply(a, act).controls == BusyControls
    ensures !act.StopPressed? ==> Apply(a, act) == a
  {
  }

  /** A start on a non-empty idle queue switches to the busy layout, and
      `done` switches back to the idle one. */
  lemma StartThenDone(a: App)
    requires Valid(a) && !Busy(a) && |a.files| > 0
    ensures var s := StartConversion(a);
            && s.converting && Busy(s) && s.files == a.files
            && s.controls.stop && !s.controls.add && !s.controls.remove
            && !s.controls.clear && !s.controls.convert
            && Done(s).controls == a.controls && !Done(s).converting
  {
  }

  /** The conversion session: start, run the batch over the queue with the
      folder and format taken once at the start, then `done`. `results` and
      `cancelAt` are as for the batch; `cancelAt` is where a confirmed stop
      is first seen. */
  method Convert(a: App, results: seq<bool>, cancelAt: nat, directory: string, format: string)
    returns (r: App, events: seq<Batch.Progress>)
    requires Valid(a)
    requires |results| == |a.files|
    ensures Valid(r)
    ensures (Busy(a) || |a.files| == 0) ==> r == a && events == []
    ensures !Busy(a) && |a.files| > 0 ==>
              && !r.converting && r.controls == IdleControls && r.progress == 100
              && |r.files| == |a.files| && r.nextId == a.nextId
              && (forall i :: 0 <= i < |r.files| ==> r.files[i].id == a.files[i].id)
              && r.stats.totalConverted == a.stats.totalConverted + Batch.Reached(|a.files|, cancelAt)
              && r.stats.successCount + r.stats.failedCount
                 == a.stats.successCount + a.stats.failedCount + Batch.Reached(|a.files|, cancelAt)
  {
    var s := StartConversion(a);
    if s == a {
      assert Busy(a) || |a.files| == 0;
      return a, [];
    }
    var after, evts, changes, counts, stats' :=
      Batch.RunBatchWithSnapshot(s.files, results, cancelAt, Batch.Selection(directory, format), s.stats);
    events := evts;
    forall i | 0 <= i < |after|
      ensures after[i].id == s.files[i].id
    {
      if i < Batch.Reached(|s.files|, cancelAt) {
        assert after[i] == Batch.AfterConversion(s.files[i], results[i], directory, format);
      }
    }
    r := Done(s.(files := after, stats := stats'));
  }
}
