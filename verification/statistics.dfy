/** The statistics panel: the total size of the converted files and the
    unit chosen to display a byte count. */
module Statistics {
  import opened Options
  import opened Text
  import Batch

  /** The length of one output, zero for an entry without one. */
  function OutputLength(f: Batch.AudioFile, length: Batch.OutputFile -> nat): nat {
    match f.output
    case None => 0
    case Some(o) => length(o)
  }

  /** `updateStatistics`' total: the lengths of the outputs of all entries
      that have one. `length` stands for `File.length` at the time of the call. */
  function TotalSize(files: seq<Batch.AudioFile>, length: Batch.OutputFile -> nat): (total: nat)
    ensures (forall i :: 0 <= i < |files| ==> files[i].output.None?) ==> total == 0
    ensures forall i :: 0 <= i < |files| ==> OutputLength(files[i], length) <= total
  {
    if |files| == 0 then 0
    else
      var init := files[..|files| - 1];
      assert forall i :: 0 <= i < |init| ==> init[i] == files[i];
      TotalSize(init, length) + OutputLength(files[|files| - 1], length)
  }

  /** The total of a queue is the sum of the totals of its parts. */
  lemma {:induction false} TotalSizeAppend(a: seq<Batch.AudioFile>, b: seq<Batch.AudioFile>,
                                           length: Batch.OutputFile -> nat)
    ensures TotalSize(a + b, length) == TotalSize(a, length) + TotalSize(b, length)
    decreases |b|
  {
    if |b| == 0 {
      assert a + b == a;
    } else {
      var b' := b[..|b| - 1];
      TotalSizeAppend(a, b', length);
      assert (a + b)[..|a + b| - 1] == a + b';
    }
  }

  /** Entries whose output does not change keep the total: replacing one
      entry changes the total by exactly the difference of the two lengths. */
  lemma TotalSizeReplace(files: seq<Batch.AudioFile>, i: int, g: Batch.AudioFile,
                         length: Batch.OutputFile -> nat)
    requires 0 <= i < |files|
    ensures TotalSize(files[i := g], length) + OutputLength(files[i], length)
            == TotalSize(files, length) + OutputLength(g, length)
  {
    var pre := files[..i];
    var post := files[i + 1..];
    assert files == pre + [files[i]] + post;
    assert files[i := g] == pre + [g] + post;
    TotalSizeAppend(pre + [files[i]], post, length);
    TotalSizeAppend(pre, [files[i]], length);
    TotalSizeAppend(pre + [g], post, length);
    TotalSizeAppend(pre, [g], length);
    assert TotalSize([g], length) == OutputLength(g, length) by {
      assert [g][..0] == [];
    }
    assert TotalSize([files[i]], length) == OutputLength(files[i], length) by {
      assert [files[i]][..0] == [];
    }
  }

  datatype SizeUnit = B | KB | MB | GB

  /** Bytes per unit. */
  function UnitScale(u: SizeUnit): nat {
    match u
    case B => 1
    case KB => 1024
    case MB => 1024 * 1024
    case GB => 1024 * 1024 * 1024
  }

  function UnitRank(u: SizeUnit): nat {
    match u
    case B => 0
    case KB => 1
    case MB => 2
    case GB => 3
  }

  /** What `formatFileSize` shows: the exact count with " B", or a value in
      a larger unit (its decimals are not modelled). */
  datatype SizeText = Exact(text: string) | Scaled(unit: SizeUnit)

  /** `formatFileSize`: exact below 1024 bytes; otherwise the largest unit
      whose scale does not exceed the count. */
  function FormatFileSize(bytes: nat): (r: SizeText)
    ensures r.Exact? <==> bytes < 1024
    ensures r.Exact? ==> r.text == NatToString(bytes) + " B"
    ensures r.Scaled? ==> r.unit != B && UnitScale(r.unit) <= bytes
    ensures r.Scaled? && r.unit != GB ==> bytes < UnitScale(r.unit) * 1024
  {
    if bytes < 1024 then Exact(NatToString(bytes) + " B")
    else if bytes < 1024 * 1024 then Scaled(KB)
    else if bytes < 1024 * 1024 * 1024 then Scaled(MB)
    else Scaled(GB)
  }

  /** The unit of the displayed size. */
  function DisplayUnit(t: SizeText): SizeUnit {
    match t
    case Exact(_) => B
    case Scaled(u) => u
  }

  /** The whole part of the scaled value lies in [1, 1024) of its unit (from
      0 for bytes, unbounded above for GB), and an exact text reads back as
      the count. The two-decimal rounding of the displayed text is not
      covered: it can show "1024 KB" for 1048575 bytes. */
  lemma FormatFileSizeInRange(bytes: nat)
    ensures var u := DisplayUnit(FormatFileSize(bytes));
            && (u != B ==> 1 <= bytes / UnitScale(u))
            && (u != GB ==> bytes / UnitScale(u) < 1024)
    ensures FormatFileSize(bytes).Exact? ==>
              ParseNat(FirstToken(FormatFileSize(bytes).text)) == Some(bytes)
  {
    var u := DisplayUnit(FormatFileSize(bytes));
    if bytes < 1024 {
      FirstTokenOfNumber(bytes, "B");
      assert NatToString(bytes) + " B" == NatToString(bytes) + " " + "B";
      ParseNatToString(bytes);
    } else if u == KB {
      DivBelow(bytes, 1024, 1024);
    } else if u == MB {
      DivBelow(bytes, 1024 * 1024, 1024);
    }
  }

  lemma DivBelow(n: nat, d: nat, k: nat)
    requires 0 < d && d <= n < d * k
    ensures 1 <= n / d < k
  {
  }

  /** A larger count never shows in a smaller unit. */
  lemma UnitGrowsWithSize(a: nat, b: nat)
    requires a <= b
    ensures UnitRank(DisplayUnit(FormatFileSize(a))) <= UnitRank(DisplayUnit(FormatFileSize(b)))
  {
  }
}
