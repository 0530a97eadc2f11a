# AudioConverter in Dafny

A model of the logic behind the AudioConverter desktop application. The
application is a single Swing window that queues WAV, AIFF and AU files and
converts each one to a chosen PCM format: output type, bit depth, sample
rate and channel count. It writes the results to an output folder and keeps
running totals.

The model covers:

- the input filter for dropped files (`isAudioFile`);
- the name and container type of each converted file (`getOutputFileName`,
  `getAudioFileType`);
- the numbers read from the settings combo boxes (`getSampleSize`,
  `getChannels`, `getSampleRate`);
- the target and intermediate PCM formats, and the choice between a direct
  and a two-step conversion;
- the batch loop of the background worker, with its progress events, status
  changes, cancellation and counters;
- the progress-bar percentage;
- the file queue as a state machine of button actions (add, drop, remove,
  clear, convert, stop, done);
- the total output size, and the unit `formatFileSize` displays it in.

Modules, one file each:

| module | file | models |
|---|---|---|
| `Options` | options.dfy | `Option` and `Result` |
| `Text` | text.dfy | the `String` operations the code relies on: ASCII case folding, `endsWith`, `lastIndexOf`, `split(" ")[0]`, decimal rendering and parsing |
| `FileNames` | file_names.dfy | the input filter and the output file name |
| `Settings` | settings.dfy | the combo-box entries and the numbers and file type read from them |
| `Formats` | formats.dfy | the `AudioFormat` values built for a conversion, and the conversion plan for one file |
| `Batch` | batch.dfy | `AudioFile`, its status, `doInBackground`, `process`, the statistics counters |
| `Queue` | queue.dfy | the window state: the queue, the button layouts, and the actions on them |
| `Statistics` | statistics.dfy | the total size of the outputs, and the unit tier of `formatFileSize` |

The Java Sound calls are outside the model. They enter it as parameters:

- whether the direct conversion is supported (`directSupported`);
- whether writing a given file succeeded (`results`);
- the output folder and format in force when each file's turn comes
  (`selections`), since the combo box and the folder setting stay live
  during a batch;
- the length of each output file (`length`).

The user's answer to a confirmation dialog is a `confirmed` flag. The moment
a confirmed stop is first seen by the worker is `cancelAt`: the index of the
first file whose loop check finds the flag cleared.

## Model

| member | source | states |
|---|---|---|
| Text.LastIndexOf | AudioConverter/AudioConverter.java:822 | the result is -1 or an index holding the character, and no later index holds it; so it is the last occurrence, or -1 exactly when there is none |
| Text.FirstToken | AudioConverter/AudioConverter.java:799 | the result is a prefix of the text with no space in it, and it ends at the first space or at the end of the text |
| Text.ParseNatToString | AudioConverter/AudioConverter.java:797-800 | reading back the decimal rendering of any natural number gives that number (parsing inverts rendering) |
| Text.UpperMatchesIffLowerMatches | AudioConverter/AudioConverter.java:827-838 | comparing the upper-cased text with an upper-case word agrees with comparing the lower-cased text with the lower-cased word, in both directions |
| FileNames.IsAudioFile | AudioConverter/AudioConverter.java:789-795 | a name passes the filter if and only if, lower-cased, it ends in ".wav", ".aiff" or ".au" |
| FileNames.OutputFileName | AudioConverter/AudioConverter.java:820-825 | the output name starts with the input's stem and ends with "_converted." and the lower-cased format, with nothing in between |
| FileNames.Stem | AudioConverter/AudioConverter.java:820-823 | the name is kept whole exactly when it has no dot after its first character; otherwise the stem is a non-empty proper prefix followed by a dot, with no dot after that one |
| FileNames.OutputNameDiffersFromInput | AudioConverter/AudioConverter.java:820-825 | a converted file never gets the name of the file it comes from, so it never overwrites its source in the same folder |
| FileNames.OutputNameStem | AudioConverter/AudioConverter.java:820-825 | for a format without dots, the stem of the output name is the input stem followed by "_converted" |
| FileNames.OutputNamePassesFilterIff | AudioConverter/AudioConverter.java:820-825 | for a format without dots, the output name passes the input filter if and only if the lower-cased format is one of the supported input extensions |
| FileNames.OutputFormatsPassFilter | AudioConverter/AudioConverter.java:75-81 | every offered output format yields a name the input filter accepts, so a converted file can be queued again |
| Settings.SampleSize | AudioConverter/AudioConverter.java:809-818 | the bit depth is a whole number of bytes from 8 to 32; quality index i of the four presets gives 8*(i+1), and any other index gives 16 |
| Settings.Channels | AudioConverter/AudioConverter.java:802-807 | index 0 gives one channel, index 1 gives two, and every other index, negative ones included, keeps the source's channel count |
| Settings.QualityPresetsAgreeWithLabels | AudioConverter/AudioConverter.java:83-85 | the number of bits printed in each quality entry is the bit depth that index selects |
| Settings.ChannelOptionsAgreeWithLabels | AudioConverter/AudioConverter.java:92-94 | the channel count printed in the mono and stereo entries is the count those indices select, and the third entry keeps the source's count |
| Settings.SampleRateOf | AudioConverter/AudioConverter.java:797-800 | a rate is read exactly when the text before the first space is a non-empty string of digits; otherwise none is read (the Java parse throws) |
| Settings.SampleRateLabelRoundTrip | AudioConverter/AudioConverter.java:797-800 | an entry written as a number followed by " Hz" reads back as that number |
| Settings.SampleRatesParse | AudioConverter/AudioConverter.java:87-90 | every entry of the sample-rate combo box reads back as its advertised rate in Hz |
| Settings.AudioFileType | AudioConverter/AudioConverter.java:827-838 | the type is AIFF when the format is "aiff" in any case, AU when it is "au" in any case, and WAVE for everything else |
| Settings.AudioFileTypeIgnoresCase | AudioConverter/AudioConverter.java:827-838 | the file type does not depend on the case of the format name |
| Settings.OutputFormatsSelectMatchingType | AudioConverter/AudioConverter.java:79-81 | the formats "WAV", "AIFF" and "AU" select the WAVE, AIFF and AU file types, in that order: the same type as the input extension at the same position |
| Formats.TargetFormat | AudioConverter/AudioConverter.java:708-717 | the target is little-endian signed PCM at the chosen rate (frame rate = sample rate), depth and channel count; when the depth is a whole number of bytes, the frame size is channels times bytes per sample |
| Formats.IntermediateFormat | AudioConverter/AudioConverter.java:727-735 | the intermediate is little-endian signed 16-bit PCM with the source's rate and channels, and its frame size is consistent with them |
| Formats.PlanJob | AudioConverter/AudioConverter.java:691-747 | planning fails exactly when the sample-rate entry cannot be read; otherwise the job carries the output name and the file type of the format, and goes through the intermediate format exactly when the direct conversion is not supported |
| Formats.PlannedRouteIsWellFormed | AudioConverter/AudioConverter.java:708-741 | every stage of a plan has a consistent frame size; the last stage has the chosen rate, the chosen bit depth and the selected channel count; a two-step plan first goes to 16-bit PCM at the source's rate and channel count |
| Formats.PlannedOutputDiffersFromInput | AudioConverter/AudioConverter.java:743-745 | a planned job never writes to the input's own name |
| Batch.CountSplit | AudioConverter/AudioConverter.java:637-646 | every per-file result is counted exactly once, as a success or as a failure |
| Batch.Reached | AudioConverter/AudioConverter.java:630-631 | the loop gets through the smaller of the queue length and the first file at which the stop is seen |
| Batch.AfterConversion | AudioConverter/AudioConverter.java:637-752 | a converted file keeps its identity and name; it is COMPLETED exactly when the conversion succeeded and FAILED otherwise; a success records the output file in the output folder, and a failure leaves the previous output untouched |
| Batch.RunBatch | AudioConverter/AudioConverter.java:624-657 | the files before the stop point are converted in queue order, each with the folder and format in force at its turn, and the rest are left untouched; two progress events and two status changes are published per file; the completed, success and failed counters are the number of files processed and the successes and failures among them; the statistics grow by exactly those counters |
| Batch.SelectionChangeSplitsBatch | AudioConverter/AudioConverter.java:701-703 | when the format is switched from WAV to AIFF between two files, one batch writes its first file as WAV and its second as AIFF |
| Batch.RunBatchWithSnapshot | AudioConverter/AudioConverter.java:624-657 | a batch run with the folder and format taken once at its start: as for the batch, and every file it completes lands in that one folder with that one extension |
| Batch.Percent | AudioConverter/AudioConverter.java:662 | the percentage is the floor of completed*100/total, never above 100, and equal to 100 exactly when every file is done |
| Batch.Process | AudioConverter/AudioConverter.java:660-667 | the bar shows the percentage of the latest event of the chunk, at most 100 |
| Batch.ProgressIsOrderedAndBounded | AudioConverter/AudioConverter.java:636-647 | event m reports (m+1)/2 files completed out of the queue length, and names file m/2; the completed count never goes down and never exceeds the total |
| Queue.InitialIsValid | AudioConverter/AudioConverter.java:380-386 | the window starts with an empty queue, the stop button disabled and the others enabled, and satisfies the state invariant |
| Queue.Append | AudioConverter/AudioConverter.java:566-570 | adding keeps the queued entries and appends one PENDING entry without output per name, in order, each with a fresh identity |
| Queue.AddFiles | AudioConverter/AudioConverter.java:547-564 | with the add button enabled every chosen file is appended in order, without filtering, as a fresh PENDING entry without output, and nothing else changes; with it disabled nothing changes |
| Queue.AudioNames | AudioConverter/AudioConverter.java:538-545 | the names kept from a drop are exactly the dropped names that pass the input filter, never more of them than were dropped |
| Queue.AudioNamesAppend | AudioConverter/AudioConverter.java:539-543 | the filter keeps drop order and multiplicity: filtering a concatenation filters each part in turn |
| Queue.AudioNamesOne | AudioConverter/AudioConverter.java:540-542 | a single dropped name is kept, once, exactly when it passes the filter |
| Queue.DropAsWritten | AudioConverter/AudioConverter.java:538-545 | the drop listener keeps the queue and appends the dropped names that pass the filter, in drop order, as fresh PENDING entries, whatever the state of the window |
| Queue.DropAsWrittenChangesQueueWhileConverting | AudioConverter/AudioConverter.java:538-545 | a drop while a conversion is running lengthens the queue the worker is iterating over |
| Queue.Drop | AudioConverter/AudioConverter.java:538-545 | the guarded drop changes nothing while the add button is disabled, and otherwise acts like the listener |
| Queue.Without | AudioConverter/AudioConverter.java:578-581 | an entry stays if and only if it was queued and not selected; entries with distinct identities stay distinct |
| Queue.WithoutAppend | AudioConverter/AudioConverter.java:578-581 | removal keeps queue order: removing from a concatenation removes from each part in turn |
| Queue.WithoutOne | AudioConverter/AudioConverter.java:578-581 | a single entry stays, once, exactly when it is not selected |
| Queue.RemoveSelected | AudioConverter/AudioConverter.java:572-584 | exactly the selected entries leave the queue and the others keep their order; an empty selection or a disabled button changes nothing; nothing but the queue changes |
| Queue.RemovalIsByIdentity | AudioConverter/AudioConverter.java:966-980 | a queued entry is removed if and only if it is one of the selected objects |
| Queue.ClearAll | AudioConverter/AudioConverter.java:586-602 | the queue ends up empty exactly when it was empty or a confirmed clear was made with the button enabled; otherwise it is unchanged, and nothing else changes |
| Queue.StartConversion | AudioConverter/AudioConverter.java:604-616 | a conversion starts exactly when the convert button is enabled, the queue is non-empty and none is running; it then shows the busy layout and a zero bar; the queue and the statistics are kept |
| Queue.StopConversion | AudioConverter/AudioConverter.java:771-784 | only the running flag changes, and it is cleared exactly by a confirmed stop with the stop button enabled |
| Queue.Done | AudioConverter/AudioConverter.java:669-678 | the end of a conversion clears the running flag, shows the idle layout and a full bar, and keeps the queue and the statistics |
| Queue.AppendKeepsValid | AudioConverter/AudioConverter.java:566-570 | adding files keeps the entries distinct and the identity counter fresh |
| Queue.ApplyKeepsValid | AudioConverter/AudioConverter.java:547-620 | every user action keeps the state invariant: distinct entries, fresh identities, one of the two button layouts, running only under the busy layout, bar at most 100 |
| Queue.QueueFrozenWhileBusy | AudioConverter/AudioConverter.java:612-616 | while a conversion runs, no user action changes the queue or the layout, and every action but stop leaves the state unchanged (with the guarded drop; see Findings) |
| Queue.StartThenDone | AudioConverter/AudioConverter.java:604-676 | starting on a non-empty idle queue enables only stop; the end of the conversion restores the idle layout |
| Queue.Convert | AudioConverter/AudioConverter.java:604-676 | a session, with the folder and format taken at its start, keeps the state invariant; it does nothing when busy or when the queue is empty; otherwise it ends idle with a full bar, with the same entries in the same order, and the processed count and the success-plus-failure count grow by the number of files reached |
| Statistics.TotalSize | AudioConverter/AudioConverter.java:849-852 | the total is 0 when no file has an output, and it is at least the length of every single output |
| Statistics.TotalSizeAppend | AudioConverter/AudioConverter.java:849-852 | the total over two runs of files is the sum of their totals |
| Statistics.TotalSizeReplace | AudioConverter/AudioConverter.java:849-852 | replacing one entry changes the total by exactly the difference of the two entries' output lengths |
| Statistics.FormatFileSize | AudioConverter/AudioConverter.java:857-863 | sizes below 1024 are shown exactly as "<n> B"; larger ones are shown in KB, MB or GB, the largest unit not exceeding the size, with GB also used above its range |
| Statistics.FormatFileSizeInRange | AudioConverter/AudioConverter.java:857-863 | the whole part of the scaled value is at least 1 in its unit (except for bytes) and below 1024 (except for GB), and an exact text reads back as the byte count |
| Statistics.UnitGrowsWithSize | AudioConverter/AudioConverter.java:857-863 | a larger size is never shown in a smaller unit |

## Left out

- The Swing window, its layout, colours, look and feel, log area and status label texts are not modelled: they are presentation only.
- The file chooser and the folder chooser are not modelled. The chooser's result is the `names` input of `AddFiles`.
- Creating the output folder (`mkdirs`) is not modelled, because it is I/O.
- The settings dialog is not modelled. Its "open folder after conversion" check box is set from `openFolderAfterConversion`, which is always false, and nothing reads the box back or acts on the field. So the program never opens the output folder. The volume slider is read nowhere either.
- The `ExecutorService` and `threadCount` are not modelled: the worker never uses them.
- Decoding, conversion and writing (`AudioSystem.getAudioInputStream`, `isConversionSupported`, `write`) are not modelled, because they are Java Sound calls whose code is not part of this model. Their outcomes are the inputs `directSupported` and `results`, and `File.length` is the `length` function.
- The SwingWorker's threads are not modelled. The batch runs as a sequential loop; the stop flag, which the user clears from another thread, is the `cancelAt` index, and the published events arrive as one ordered sequence.
- `process` is not modelled per delivered chunk. `Batch.Process` takes any non-empty chunk, as Swing delivers them.
- The batch's per-file outcome is not derived from `Formats.PlanJob`. An unreadable sample rate makes every file fail in Java; in the model it is one of the ways a `results` entry can be false.
- Settings.SampleRateOf: reads only plain digit strings. `Float.parseFloat` also accepts forms such as "1e3", "8000.0" or "+8000"; none of these occur in the combo box, whose entries are all plain digits.
- Text.LowerChar: case folding is ASCII only. The model assumes a default locale with no special mapping for ASCII letters. `toLowerCase` and `toUpperCase` follow Unicode and the default locale. Under a Turkish locale `"AIFF".toLowerCase()` is `"aıff"` with a dotless ı. The output name then ends in ".aıff", the input filter rejects it and a dropped "SONG.AIFF" alike, and FileNames.OutputFormatsPassFilter does not hold for the program there.
- Statistics.FormatFileSize: the decimal text `DecimalFormat("#.##")` produces for KB, MB and GB is not modelled, because it is floating point. The model states the unit chosen, the range of the whole part of the scaled value, and the exact byte text. The text rounds to two decimals, so just below a unit boundary it shows 1024 of the smaller unit: 1048575 bytes display as "1024 KB", and sizes just below 1 GiB as "1024 MB".
- Batch.RunBatch: the sample-rate, quality and channel selections are also read for every file (lines 704-706). The model carries only the folder and format per file, because those two decide the output recorded on the entry. What the other three change, the success of the write, enters through `results`.
- Batch.RunBatch: the Java `int` counters are unbounded integers here. The 2^31 wrap-around of the running totals, which would take over two billion conversions in one session, is not modelled.
- Statistics.TotalSize: the `long` sum is an unbounded integer; its 2^63 overflow is not modelled.
- Batch.Percent: `(int)(completed * 100.0 / total)` is integer division here. Double rounding cannot reach the next integer for counts below 2^31. The NaN of an empty batch never occurs, because an empty queue never starts one.
- Queue.Drop: a drop while converting throws in Java (`ConcurrentModificationException` in the worker, whose `done` then runs without the statistics update). The model proves that the unguarded listener mutates the queue, and uses the guarded listener; it does not model the exception.

## Findings

| source | as written | input that shows it | evidently intended | confidence | as-written member | corrected member |
|---|---|---|---|---|---|---|
| AudioConverter/AudioConverter.java:701-745 | `convertAudioFile` reads the format combo box (line 703) and `outputDirectory` (line 745) for every file; neither the combo boxes nor the settings dialog's folder button is disabled during a batch | queue "a.wav" and "b.wav" with WAV selected and switch the combo box to AIFF while "a.wav" converts: the batch writes "a_converted.wav" and "b_converted.aiff" | a batch shares one set of settings, taken when it starts, so changing the controls affects only the next batch | medium, not executed | Batch.SelectionChangeSplitsBatch | Batch.RunBatchWithSnapshot |
| AudioConverter/AudioConverter.java:538-545 | the drop listener calls `addAudioFile` with no look at `isConverting` or the disabled add button | while one file "a.wav" is being converted, drop "b.wav": the queue grows to two entries under the running worker's iterator | while a conversion runs the queue is frozen, as the disabled add, remove and clear buttons show for the other ways of changing it | medium, not executed | Queue.DropAsWrittenChangesQueueWhileConverting | Queue.Drop |
