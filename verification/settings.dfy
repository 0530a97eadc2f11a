/** The settings combo boxes and the numbers read from them: bits per
    sample, channel count, sample rate and the output file type. */
module Settings {
  import opened Options
  import opened Text
  import FileNames

  /** Entries of the quality combo box, by index. */
  const QualityPresets: seq<string> :=
    ["Basse (8 bits)", "Moyenne (16 bits)", "Haute (24 bits)", "Maximum (32 bits)"]

  /** Entries of the sample-rate combo box, by index. */
  const SampleRates: seq<string> :=
    ["8000 Hz", "11025 Hz", "16000 Hz", "22050 Hz",
     "44100 Hz", "48000 Hz", "96000 Hz", "192000 Hz"]

  /** Entries of the channel combo box, by index. */
  const ChannelOptions: seq<string> :=
    ["Mono (1 canal)", "Stéréo (2 canaux)", "Conserver original"]

  /** The container types `AudioSystem.write` is asked for. */
  datatype FileType = Wave | Aiff | Au

  /** `getSampleSize`: bits per sample for the selected quality index, with
      16 bits for any index outside the four presets. */
  function SampleSize(qualityIndex: int): (bits: nat)
    ensures bits % 8 == 0 && 8 <= bits <= 32
    ensures 0 <= qualityIndex < |QualityPresets| ==> bits == 8 * (qualityIndex + 1)
    ensures !(0 <= qualityIndex < |QualityPresets|) ==> bits == 16
  {
    match qualityIndex
    case 0 => 8
    case 1 => 16
    case 2 => 24
    case 3 => 32
    case _ => 16
  }

  /** `getChannels`: mono, stereo, or the source's own channel count for any
      other index (the "keep original" entry among them). */
  function Channels(channelIndex: int, sourceChannels: int): (c: int)
    ensures channelIndex == 0 ==> c == 1
    ensures channelIndex == 1 ==> c == 2
    ensures !(0 <= channelIndex < 2) ==> c == sourceChannels
  {
    if channelIndex == 0 then 1
    else if channelIndex == 1 then 2
    else sourceChannels
  }

  /** `getSampleRate`: the number in front of the first space of the selected
      entry; None where the Java code would throw. */
  function SampleRateOf(entry: string): (r: Option<nat>)
    ensures r.Some? <==> |FirstToken(entry)| > 0 && AllDigits(FirstToken(entry))
  {
    ParseNat(FirstToken(entry))
  }

  /** `getAudioFileType`: the type named by the format, ignoring case, and
      WAVE for any other name. */
  function AudioFileType(format: string): (t: FileType)
    ensures t == (if Lower(format) == "aiff" then Aiff
                  else if Lower(format) == "au" then Au
                  else Wave)
  {
    UpperMatchesIffLowerMatches(format, "AIFF");
    UpperMatchesIffLowerMatches(format, "AU");
    var key := Upper(format);
    if key == "WAV" then Wave
    else if key == "AIFF" then Aiff
    else if key == "AU" then Au
    else Wave
  }

  /** The number a combo-box entry announces in parentheses, e.g. the 8 of
      "Basse (8 bits)"; None for an entry without one. */
  function AnnouncedNumber(entry: string): Option<nat> {
    match AfterFirst(entry, '(')
    case None => None
    case Some(rest) => ParseNat(FirstToken(rest))
  }

  /** Every quality preset yields the bit depth its entry announces. */
  lemma QualityPresetsAgreeWithLabels(i: int)
    requires 0 <= i < |QualityPresets|
    ensures AnnouncedNumber(QualityPresets[i]) == Some(SampleSize(i))
  {
    if i == 0 {
      assert NatToString(8) == "8";
      assert QualityPresets[i] == "Basse (" + NatToString(8) + " " + "bits)";
      AnnouncedNumberAfterParen("Basse (", 8, "bits)");
    } else if i == 1 {
      assert NatToString(16) == "16";
      assert QualityPresets[i] == "Moyenne (" + NatToString(16) + " " + "bits)";
      AnnouncedNumberAfterParen("Moyenne (", 16, "bits)");
    } else if i == 2 {
      assert NatToString(24) == "24";
      assert QualityPresets[i] == "Haute (" + NatToString(24) + " " + "bits)";
      AnnouncedNumberAfterParen("Haute (", 24, "bits)");
    } else {
      assert NatToString(32) == "32";
      assert QualityPresets[i] == "Maximum (" + NatToString(32) + " " + "bits)";
      AnnouncedNumberAfterParen("Maximum (", 32, "bits)");
    }
  }

  /** The mono and stereo entries announce the channel count they select;
      the remaining entry keeps the source's count. */
  lemma ChannelOptionsAgreeWithLabels(i: int, sourceChannels: int)
    requires 0 <= i < |ChannelOptions|
    ensures i < 2 ==> AnnouncedNumber(ChannelOptions[i]) == Some(Channels(i, sourceChannels))
    ensures i == 2 ==> Channels(i, sourceChannels) == sourceChannels
  {
    if i == 0 {
      assert NatToString(1) == "1";
      assert ChannelOptions[i] == "Mono (" + NatToString(1) + " " + "canal)";
      AnnouncedNumberAfterParen("Mono (", 1, "canal)");
    } else if i == 1 {
      assert NatToString(2) == "2";
      assert ChannelOptions[i] == "Stéréo (" + NatToString(2) + " " + "canaux)";
      AnnouncedNumberAfterParen("Stéréo (", 2, "canaux)");
    }
  }

  /** Reading an entry "<head>(<n> <rest>" whose `head` holds no earlier parenthesis. */
  lemma AnnouncedNumberAfterParen(head: string, n: nat, rest: string)
    requires |head| > 0 && head[|head| - 1] == '('
    requires forall i :: 0 <= i < |head| - 1 ==> head[i] != '('
    ensures AnnouncedNumber(head + NatToString(n) + " " + rest) == Some(n)
  {
    var entry := head + NatToString(n) + " " + rest;
    var after := AfterFirst(entry, '(');
    assert entry[|head| - 1] == '(';
    assert after.Some?;
    assert forall i :: 0 <= i < |head| - 1 ==> entry[i] == head[i];
    assert |entry| - |after.value| - 1 == |head| - 1;
    assert after.value == entry[|head|..] == NatToString(n) + " " + rest;
    FirstTokenOfNumber(n, rest);
    ParseNatToString(n);
  }

  /** An entry written as "<n> Hz" yields the sample rate n. */
  lemma SampleRateLabelRoundTrip(n: nat)
    ensures SampleRateOf(NatToString(n) + " Hz") == Some(n)
  {
    assert NatToString(n) + " Hz" == NatToString(n) + " " + "Hz";
    FirstTokenOfNumber(n, "Hz");
    ParseNatToString(n);
  }

  /** The numeric values behind the sample-rate entries. */
  const SampleRateValues: seq<nat> := [8000, 11025, 16000, 22050, 44100, 48000, 96000, 192000]

  /** Each sample-rate entry is its value followed by " Hz", so it reads back
      as that value. */
  lemma SampleRatesParse(i: int)
    requires 0 <= i < |SampleRates|
    ensures SampleRateOf(SampleRates[i]) == Some(SampleRateValues[i])
  {
    if i < 4 {
      LowSampleRatesRendered(i);
    } else {
      HighSampleRatesRendered(i);
    }
    SampleRateLabelRoundTrip(SampleRateValues[i]);
  }

  lemma LowSampleRatesRendered(i: int)
    requires 0 <= i < 4
    ensures SampleRates[i] == NatToString(SampleRateValues[i]) + " Hz"
  {
    if i == 0 {
      Renders8000();
    } else if i == 1 {
      Renders11025();
    } else if i == 2 {
      Renders16000();
    } else {
      Renders22050();
    }
  }

  lemma HighSampleRatesRendered(i: int)
    requires 4 <= i < 8
    ensures SampleRates[i] == NatToString(SampleRateValues[i]) + " Hz"
  {
    if i == 4 {
      Renders44100();
    } else if i == 5 {
      Renders48000();
    } else if i == 6 {
      Renders96000();
    } else {
      Renders192000();
    }
  }

  // The decimal renderings of the sample-rate values, digit by digit.

  lemma Renders8000()
    ensures NatToString(8000) == "8000"
  {
  }

  lemma Renders11025()
    ensures NatToString(11025) == "11025"
  {
  }

  lemma Renders16000()
    ensures NatToString(16000) == "16000"
  {
  }

  lemma Renders22050()
    ensures NatToString(22050) == "22050"
  {
  }

  lemma Renders44100()
    ensures NatToString(44100) == "44100"
  {
  }

  lemma Renders48000()
    ensures NatToString(48000) == "48000"
  {
  }

  lemma Renders96000()
    ensures NatToString(96000) == "96000"
  {
  }

  lemma Renders192000()
    ensures NatToString(192000) == "192000"
  {
    assert NatToString(1) == "1";
    assert NatToString(19) == NatToString(1) + "9";
    assert NatToString(192) == NatToString(19) + "2";
    assert NatToString(1920) == NatToString(192) + "0";
    assert NatToString(19200) == NatToString(1920) + "0";
    assert NatToString(192000) == NatToString(19200) + "0";
  }

  /** Case does not matter to the file type. */
  lemma AudioFileTypeIgnoresCase(format: string)
    ensures AudioFileType(format) == AudioFileType(Lower(format))
    ensures AudioFileType(format) == AudioFileType(Upper(format))
  {
    LowerIdempotent(format);
    LowerOfUpper(format);
  }

  lemma LowerOfUpper(s: string)
    ensures Lower(Upper(s)) == Lower(s)
  {
    assert forall i :: 0 <= i < |s| ==> Lower(Upper(s))[i] == Lower(s)[i];
  }

  /** Each offered output format selects the type that matches its name,
      and the same type as the extension written into the output name. */
  lemma OutputFormatsSelectMatchingType(i: int)
    requires 0 <= i < |FileNames.OutputFormats|
    ensures AudioFileType(FileNames.OutputFormats[i]) == [Wave, Aiff, Au][i]
    ensures AudioFileType(FileNames.OutputFormats[i])
            == AudioFileType(FileNames.SupportedInputFormats[i])
  {
    assert Lower(FileNames.OutputFormats[i]) == FileNames.SupportedInputFormats[i];
    LowerIdempotent(FileNames.OutputFormats[i]);
  }
}
