/** File-name logic of the converter: the input filter applied to dropped
    files, and the name given to each converted file. */
module FileNames {
  import opened Text

  /** Extensions accepted as input (lower case, without the dot). */
  const SupportedInputFormats: seq<string> := ["wav", "aiff", "au"]

  /** Output formats offered in the format combo box. */
  const OutputFormats: seq<string> := ["WAV", "AIFF", "AU"]

  /** Marker inserted between the stem and the new extension. */
  const ConvertedMarker: string := "_converted"

  /** The extension loop of `isAudioFile`: true at the first extension that
      `name` ends with, preceded by a dot. */
  function EndsWithAnyExtension(name: string, exts: seq<string>): (r: bool)
    ensures r <==> exists i :: 0 <= i < |exts| && EndsWith(name, "." + exts[i])
  {
    if |exts| == 0 then false
    else if EndsWith(name, "." + exts[0]) then true
    else
      var rest := EndsWithAnyExtension(name, exts[1..]);
      assert forall i :: 1 <= i < |exts| ==> exts[i] == exts[1..][i - 1];
      rest
  }

  /** The input filter: the lower-cased name carries a supported extension. */
  function IsAudioFile(name: string): (r: bool)
    ensures r <==> EndsWith(Lower(name), ".wav") || EndsWith(Lower(name), ".aiff")
                   || EndsWith(Lower(name), ".au")
  {
    var low := Lower(name);
    assert "." + SupportedInputFormats[0] == ".wav";
    assert "." + SupportedInputFormats[1] == ".aiff";
    assert "." + SupportedInputFormats[2] == ".au";
    EndsWithAnyExtension(low, SupportedInputFormats)
  }

  /** The base name: everything before the last dot, provided that dot is not
      the first character; otherwise the whole name. */
  function Stem(name: string): (r: string)
    ensures r == name <==> forall i :: 0 < i < |name| ==> name[i] != '.'
    ensures r != name ==> 0 < |r| < |name| && name[..|r|] == r && name[|r|] == '.'
    ensures r != name ==> forall i :: |r| < i < |name| ==> name[i] != '.'
  {
    var dot := LastIndexOf(name, '.');
    if dot > 0 then name[..dot] else name
  }

  /** `getOutputFileName`: the input's stem, then the marker, a dot and the
      lower-cased format. */
  function OutputFileName(name: string, format: string): (r: string)
    ensures |r| == |Stem(name)| + |ConvertedMarker| + 1 + |format|
    ensures r[..|Stem(name)|] == Stem(name)
    ensures EndsWith(r, ConvertedMarker + "." + Lower(format))
  {
    Stem(name) + ConvertedMarker + "." + Lower(format)
  }

  /** The converted name is never the name of the file it was made from. */
  lemma OutputNameDiffersFromInput(name: string, format: string)
    ensures OutputFileName(name, format) != name
  {
    var stem := Stem(name);
    var out := OutputFileName(name, format);
    if stem != name {
      assert out[|stem|] == '_' && name[|stem|] == '.';
    } else {
      assert |out| > |name|;
    }
  }

  /** An output name built from a dot-free format has its own stem: the
      input's stem followed by the marker. */
  lemma OutputNameStem(name: string, format: string)
    requires forall i :: 0 <= i < |format| ==> format[i] != '.'
    ensures Stem(OutputFileName(name, format)) == Stem(name) + ConvertedMarker
  {
    var base := Stem(name) + ConvertedMarker;
    var out := OutputFileName(name, format);
    var ext := Lower(format);
    LowerKeepsDots(format);
    assert out == base + "." + ext;
    LastDotBeforeTail(base, ext);
    assert out[..|base|] == base;
  }

  /** In `head + "." + tail` with a dot-free tail, the last dot is the one
      between the two parts. */
  lemma LastDotBeforeTail(head: string, tail: string)
    requires forall i :: 0 <= i < |tail| ==> tail[i] != '.'
    ensures LastIndexOf(head + "." + tail, '.') == |head|
  {
    var s := head + "." + tail;
    var r := LastIndexOf(s, '.');
    assert s[|head|] == '.';
    if r < |head| {
      assert false;
    }
    if r > |head| {
      assert false;
    }
  }

  /** `"." + ext` is a suffix of `prefix + "." + tail` for dot-free `ext` and
      `tail` exactly when the two are equal. */
  lemma DotSuffixIffSameExtension(prefix: string, tail: string, ext: string)
    requires forall i :: 0 <= i < |tail| ==> tail[i] != '.'
    requires forall i :: 0 <= i < |ext| ==> ext[i] != '.'
    ensures EndsWith(prefix + "." + tail, "." + ext) <==> tail == ext
  {
    var s := prefix + "." + tail;
    var d := "." + ext;
    if tail == ext {
      assert s[|prefix|..] == d;
    }
    if EndsWith(s, d) {
      var k := |s| - |d|;
      assert s == s[..k] + "." + ext;
      LastDotBeforeTail(prefix, tail);
      LastDotBeforeTail(s[..k], ext);
      assert k == |prefix|;
      assert s[k..] == "." + tail;
      assert ("." + tail)[1..] == tail && d[1..] == ext;
    }
  }

  /** The three extension tests of the filter on `prefix + "." + ext`. */
  lemma SupportedSuffixIffSupportedExtension(prefix: string, ext: string)
    requires forall i :: 0 <= i < |ext| ==> ext[i] != '.'
    ensures (EndsWith(prefix + "." + ext, ".wav") || EndsWith(prefix + "." + ext, ".aiff")
             || EndsWith(prefix + "." + ext, ".au"))
            <==> ext in SupportedInputFormats
  {
    assert "." + "wav" == ".wav" && "." + "aiff" == ".aiff" && "." + "au" == ".au";
    DotSuffixIffSameExtension(prefix, ext, "wav");
    DotSuffixIffSameExtension(prefix, ext, "aiff");
    DotSuffixIffSameExtension(prefix, ext, "au");
    assert ext in SupportedInputFormats <==> ext == "wav" || ext == "aiff" || ext == "au";
  }

  lemma LowerOfDottedName(base: string, format: string)
    ensures Lower(base + "." + Lower(format)) == Lower(base) + "." + Lower(format)
  {
    LowerAppend(base + ".", Lower(format));
    LowerAppend(base, ".");
    LowerIdempotent(format);
  }

  /** A name produced for a dot-free format passes the input filter exactly
      when the lower-cased format is one of the supported input extensions. */
  lemma OutputNamePassesFilterIff(name: string, format: string)
    requires forall i :: 0 <= i < |format| ==> format[i] != '.'
    ensures IsAudioFile(OutputFileName(name, format)) <==> Lower(format) in SupportedInputFormats
  {
    var base := Stem(name) + ConvertedMarker;
    var ext := Lower(format);
    LowerKeepsDots(format);
    var out := OutputFileName(name, format);
    assert out == base + "." + ext;
    LowerOfDottedName(base, format);
    var low := Lower(base) + "." + ext;
    assert Lower(out) == low;
    SupportedSuffixIffSupportedExtension(Lower(base), ext);
  }

  /** Every format the user can choose yields a name that the input filter
      accepts, so converted files can be fed back into the queue. */
  lemma OutputFormatsPassFilter(name: string, i: int)
    requires 0 <= i < |OutputFormats|
    ensures IsAudioFile(OutputFileName(name, OutputFormats[i]))
  {
    assert Lower(OutputFormats[i]) == SupportedInputFormats[i];
    OutputNamePassesFilterIff(name, OutputFormats[i]);
  }
}
