/** The deterministic part of converting one file: the PCM format asked of
    the sound system, the 16-bit intermediate used when a direct conversion
    is refused, and the output name and container type. The sound system
    itself (reading, the "is conversion supported" answer, writing) stays
    outside the model. */
module Formats {
  import opened Options
  import FileNames
  import Settings

  datatype Encoding = PcmSigned

  /** A `javax.sound.sampled.AudioFormat`, with rates as whole numbers. Rates
      and channel counts are integers because the sound system reports an
      unknown value as -1. */
  datatype AudioFormat = AudioFormat(
    encoding: Encoding,
    sampleRate: int,
    sampleSizeInBits: int,
    channels: int,
    frameSize: int,
    frameRate: int,
    bigEndian: bool)

  /** One frame holds one whole sample per channel, and frames arrive at the
      sample rate. */
  predicate FrameConsistent(f: AudioFormat) {
    f.frameSize * 8 == f.channels * f.sampleSizeInBits && f.frameRate == f.sampleRate
  }

  /** The selections read from the combo boxes. */
  datatype Choices = Choices(
    format: string,
    qualityIndex: int,
    sampleRateEntry: string,
    channelIndex: int)

  /** The target format: signed little-endian PCM with the chosen rate, depth
      and channel count; the frame size truncates the depth to whole bytes. */
  function TargetFormat(rate: nat, bits: nat, channels: int): (f: AudioFormat)
    ensures f.encoding == PcmSigned && !f.bigEndian
    ensures f.sampleRate == rate && f.frameRate == rate
    ensures f.sampleSizeInBits == bits && f.channels == channels
    ensures bits % 8 == 0 ==> FrameConsistent(f)
  {
    AudioFormat(PcmSigned, rate, bits, channels, channels * (bits / 8), rate, false)
  }

  /** The fallback intermediate: 16-bit signed little-endian PCM keeping the
      source's rate and channel count. */
  function IntermediateFormat(source: AudioFormat): (f: AudioFormat)
    ensures f.encoding == PcmSigned && !f.bigEndian
    ensures f.sampleRate == source.sampleRate && f.channels == source.channels
    ensures f.sampleSizeInBits == 16
    ensures FrameConsistent(f)
  {
    AudioFormat(PcmSigned, source.sampleRate, 16, source.channels,
                source.channels * 2, source.sampleRate, false)
  }

  /** The chain of stream conversions applied to the source stream. */
  datatype Route = Direct(target: AudioFormat) | TwoStep(intermediate: AudioFormat, target: AudioFormat)

  /** The formats the source stream is converted into, in order. */
  function Stages(r: Route): seq<AudioFormat> {
    match r
    case Direct(t) => [t]
    case TwoStep(m, t) => [m, t]
  }

  /** Everything `convertAudioFile` decides before touching the file system. */
  datatype Job = Job(route: Route, outputName: string, fileType: Settings.FileType)

  datatype JobError = UnreadableSampleRate

  /** The decisions of `convertAudioFile` for one input: the target from the
      choices, the two-step route when the direct conversion is refused, and
      the output name and type. A sample-rate entry that does not read as a
      number fails the job, as the thrown exception does. */
  function PlanJob(inputName: string, source: AudioFormat, choices: Choices,
                   directSupported: bool): (r: Result<Job, JobError>)
    ensures r.Err? <==> Settings.SampleRateOf(choices.sampleRateEntry).None?
    ensures r.Ok? ==> r.value.outputName == FileNames.OutputFileName(inputName, choices.format)
    ensures r.Ok? ==> r.value.fileType == Settings.AudioFileType(choices.format)
    ensures r.Ok? ==> (r.value.route.TwoStep? <==> !directSupported)
  {
    match Settings.SampleRateOf(choices.sampleRateEntry)
    case None => Err(UnreadableSampleRate)
    case Some(rate) =>
      var bits := Settings.SampleSize(choices.qualityIndex);
      var channels := Settings.Channels(choices.channelIndex, source.channels);
      var target := TargetFormat(rate, bits, channels);
      var route := if directSupported then Direct(target) else TwoStep(IntermediateFormat(source), target);
      Ok(Job(route, FileNames.OutputFileName(inputName, choices.format),
             Settings.AudioFileType(choices.format)))
  }

  /** Every stage of a planned route is frame-consistent, the last stage has
      the chosen rate, depth and channels, and a two-step route's first stage
      keeps the source's rate and channel count at 16 bits. */
  lemma PlannedRouteIsWellFormed(inputName: string, source: AudioFormat, choices: Choices,
                                 directSupported: bool)
    requires PlanJob(inputName, source, choices, directSupported).Ok?
    ensures var job := PlanJob(inputName, source, choices, directSupported).value;
            var stages := Stages(job.route);
            && (forall k :: 0 <= k < |stages| ==> FrameConsistent(stages[k]))
            && stages[|stages| - 1].sampleRate == Settings.SampleRateOf(choices.sampleRateEntry).value
            && stages[|stages| - 1].sampleSizeInBits == Settings.SampleSize(choices.qualityIndex)
            && stages[|stages| - 1].channels == Settings.Channels(choices.channelIndex, source.channels)
            && (|stages| == 2 ==>
                  stages[0].sampleRate == source.sampleRate
                  && stages[0].channels == source.channels
                  && stages[0].sampleSizeInBits == 16)
  {
  }

  /** The planned output name never overwrites the input file's name. */
  lemma PlannedOutputDiffersFromInput(inputName: string, source: AudioFormat, choices: Choices,
                                      directSupported: bool)
    requires PlanJob(inputName, source, choices, directSupported).Ok?
    ensures PlanJob(inputName, source, choices, directSupported).value.outputName != inputName
  {
    FileNames.OutputNameDiffersFromInput(inputName, choices.format);
  }
}
