// The whole legacy OUT reading, from the row count to the decimated channels.
module OutReading {
  import opened Options
  import opened OutReader
  import opened OutStreaming
  import opened OutMeaning

  lemma {:induction false} FilesCover(ids: seq<nat>)
    requires Channels(ids)
    ensures Covers(FileCount(ids), ids)
  {
  }

  // Every channel has a column of its own in a file of its own tens, never the
  // time column.
  lemma {:induction false} ChannelsOwnColumns(id: nat, other: nat)
    requires id > 0 && other > 0
    ensures 1 <= ColumnOf(id) <= 10 && id == PartOf(id) * 10 + ColumnOf(id)
    ensures PartOf(id) == PartOf(other) && ColumnOf(id) == ColumnOf(other) ==> id == other
  {
  }

  // The first pass over the first file: one count, and every malformed row
  // refused.
  method CountSamples(lines: seq<Line>) returns (o: Outcome<nat>)
    ensures o.Err? <==> Malformed in lines
    ensures o.Err? ==> o.reason == MalformedRow
    ensures o.Ok? ==> o.value == NumericLines(lines)
  {
    var count := 0;
    for k := 0 to |lines|
      invariant Malformed !in lines[..k]
      invariant count + NumericLines(lines[k..]) == NumericLines(lines)
    {
      if lines[k].Malformed? {
        assert lines[k] == Malformed;
        return Err(MalformedRow);
      }
      assert lines[k..][1..] == lines[k + 1..];
      if lines[k].Row? {
        count := count + 1;
      }
    }
    assert lines[..|lines|] == lines;
    return Ok(count);
  }

  lemma {:induction false} NonBlanksParsed(lines: seq<Line>)
    requires Parsed(lines)
    ensures Parsed(NonBlanks(lines)) && Parsed(Body(lines))
  {
    if lines != [] {
      assert lines == [lines[0]] + lines[1..];
      NonBlanksParsed(lines[1..]);
    }
  }

  lemma {:induction false} NonBlanksCount(lines: seq<Line>)
    ensures NumericLines(NonBlanks(lines)) == NumericLines(lines)
    ensures Malformed in NonBlanks(lines) <==> Malformed in lines
  {
    if lines != [] {
      assert lines == [lines[0]] + lines[1..];
      NonBlanksCount(lines[1..]);
      assert NonBlanks(lines) == (if lines[0].Blank? then [] else [lines[0]]) + NonBlanks(lines[1..]);
      if lines[0].Blank? {
        assert NonBlanks(lines) == NonBlanks(lines[1..]);
      } else {
        assert NonBlanks(lines)[1..] == NonBlanks(lines[1..]);
      }
    }
  }

  lemma {:induction false} AllRowsCount(lines: seq<Line>)
    requires forall k :: 0 <= k < |lines| ==> lines[k].Row?
    ensures NumericLines(lines) == |lines|
  {
    if lines != [] { AllRowsCount(lines[1..]); }
  }

  // A file whose data lines are all rows holds as many samples as data lines.
  lemma {:induction false} SamplesAreTheBody(lines: seq<Line>)
    requires forall k :: 0 <= k < |Body(lines)| ==> Body(lines)[k].Row?
    ensures NumericLines(lines) == |Body(lines)| && Malformed !in lines
  {
    NonBlanksCount(lines);
    AllRowsCount(Body(lines));
    var all := NonBlanks(lines);
    if all != [] && all[0].Text? { assert all == [all[0]] + Body(lines); }
  }

  // ---- well-formed files ----

  predicate WellFormed(bodies: seq<seq<Line>>, ids: seq<nat>)
    requires Ready(bodies, ids)
  {
    (forall j :: 0 <= j < |bodies| ==> |bodies[j]| == |bodies[0]|)
    && forall r :: 0 <= r < |bodies[0]| ==> RowSound(bodies, ids, r)
  }

  // The full time column, and the full column a channel owns.
  function TimeColumn(bodies: seq<seq<Line>>, ids: seq<nat>): (c: seq<real>)
    requires Ready(bodies, ids) && WellFormed(bodies, ids)
    ensures |c| == |bodies[0]|
  {
    seq(|bodies[0]|, r requires 0 <= r < |bodies[0]| && RowSound(bodies, ids, r) => RowsAt(bodies, r)[0].values[0])
  }

  function FullColumn(bodies: seq<seq<Line>>, ids: seq<nat>, k: nat): (c: seq<real>)
    requires Ready(bodies, ids) && WellFormed(bodies, ids) && k < |ids|
    ensures |c| == |bodies[0]|
  {
    seq(|bodies[0]|, r requires 0 <= r < |bodies[0]| && RowSound(bodies, ids, r) => Picked(RowsAt(bodies, r), ids[k]))
  }

  lemma {:induction false} WellFormedIsSound(bodies: seq<seq<Line>>, ids: seq<nat>, step: nat, maximum: nat)
    requires Ready(bodies, ids) && WellFormed(bodies, ids) && step > 0
    ensures Problem(bodies, ids, step, maximum, 0).None?
  {
    forall r | 0 <= r < |bodies[0]| && Taken(r, step, maximum) ensures RowProblem(RowsAt(bodies, r), ids).None? {
      assert RowSound(bodies, ids, r);
    }
    SoundMeansNoProblem(bodies, ids, step, maximum);
  }

  // What was streamed with the stride of the row count is exactly the batch
  // sample of each full column, all aligned with the sampled time column.
  lemma {:induction false} ReadingIsSample(bodies: seq<seq<Line>>, ids: seq<nat>, maximum: nat, domains: seq<real>,
                        values: map<nat, seq<real>>)
    requires Ready(bodies, ids) && WellFormed(bodies, ids) && maximum > 0
    requires var step := Step(|bodies[0]|, maximum);
             Reading(bodies, ids, step, Count(|bodies[0]|, step, maximum), domains, values)
    ensures domains == Sample(TimeColumn(bodies, ids), maximum)
    ensures forall k :: 0 <= k < |ids| ==> values[ids[k]] == Sample(FullColumn(bodies, ids, k), maximum)
    ensures forall k :: 0 <= k < |ids| ==> |values[ids[k]]| == |domains|
  {
    var n := |bodies[0]|;
    var step := Step(n, maximum);
    StrideFits(n, maximum);
    SampleIsStride(TimeColumn(bodies, ids), maximum);
    forall i | 0 <= i < Strided(n, step) ensures domains[i] == Stride(TimeColumn(bodies, ids), step)[i] {
      StridedInside(n, step, i);
    }
    forall k | 0 <= k < |ids| ensures values[ids[k]] == Sample(FullColumn(bodies, ids, k), maximum) {
      ChannelIsSample(bodies, ids, maximum, k, values[ids[k]]);
    }
  }

  lemma {:induction false} ChannelIsSample(bodies: seq<seq<Line>>, ids: seq<nat>, maximum: nat, k: nat,
          column: seq<real>)
    requires Ready(bodies, ids) && WellFormed(bodies, ids) && maximum > 0 && k < |ids|
    requires |column| == Strided(|bodies[0]|, Step(|bodies[0]|, maximum))
    requires ChannelRead(bodies, ids, Step(|bodies[0]|, maximum), k, column)
    ensures column == Sample(FullColumn(bodies, ids, k), maximum)
  {
    var n := |bodies[0]|;
    var step := Step(n, maximum);
    var full := FullColumn(bodies, ids, k);
    SampleIsStride(full, maximum);
    forall i | 0 <= i < |column| ensures column[i] == Stride(full, step)[i] {
      StridedInside(n, step, i);
      assert column[i] == Picked(RowsAt(bodies, i * step), ids[k]);
    }
  }

  // ---- the whole reading ----

  // The reading goes through exactly when the files are there, no row of the
  // first file and no first row of any file is malformed, the files have one
  // length and every taken row is sound.
  predicate Readable(files: seq<seq<Line>>, ids: seq<nat>, maximum: nat)
    requires Channels(ids) && maximum > 0 && forall j :: 0 <= j < |files| ==> Parsed(files[j])
  {
    FileCount(ids) <= |files| && FileCount(ids) > 0 && Malformed !in files[0]
    && (forall j :: 0 <= j < FileCount(ids) ==> First(Body(files[j])) != Some(Malformed))
    && Ready(Bodies(files, FileCount(ids)), ids)
    && Sound(Bodies(files, FileCount(ids)), ids, Step(NumericLines(files[0]), maximum), maximum)
  }

  lemma {:induction false} BodiesReady(files: seq<seq<Line>>, ids: seq<nat>)
    requires Channels(ids) && FileCount(ids) <= |files| && forall j :: 0 <= j < |files| ==> Parsed(files[j])
    ensures FileCount(ids) > 0 && Ready(Bodies(files, FileCount(ids)), ids)
  {
    FilesCover(ids);
    forall j | 0 <= j < FileCount(ids) ensures Parsed(Bodies(files, FileCount(ids))[j]) { NonBlanksParsed(files[j]); }
  }

  // Well-formed numbered files: every needed file is there, they have one
  // length and every row is sound.
  predicate WellNumbered(files: seq<seq<Line>>, ids: seq<nat>)
    requires Channels(ids) && forall j :: 0 <= j < |files| ==> Parsed(files[j])
  {
    FileCount(ids) <= |files| && Ready(Bodies(files, FileCount(ids)), ids)
    && WellFormed(Bodies(files, FileCount(ids)), ids)
  }

  // The batch form: the sample of the time column and of every selected
  // channel's full column.
  ghost predicate IsBatch(files: seq<seq<Line>>, ids: seq<nat>, maximum: nat, domains: seq<real>,
                          values: map<nat, seq<real>>)
    requires Channels(ids) && maximum > 0 && forall j :: 0 <= j < |files| ==> Parsed(files[j])
    requires WellNumbered(files, ids)
  {
    var bodies := Bodies(files, FileCount(ids));
    domains == Sample(TimeColumn(bodies, ids), maximum)
    && forall k :: 0 <= k < |ids| ==> ids[k] in values && values[ids[k]] == Sample(FullColumn(bodies, ids, k), maximum)
  }

  lemma {:induction false} SoundRows(bodies: seq<seq<Line>>, ids: seq<nat>, j: nat, r: nat)
    requires Ready(bodies, ids) && WellFormed(bodies, ids) && j < |bodies| && r < |bodies[j]|
    ensures bodies[j][r].Row?
  {
    assert RowSound(bodies, ids, r);
    assert RowsAt(bodies, r)[j] == bodies[j][r];
  }

  lemma {:induction false} WellFormedBody(files: seq<seq<Line>>, ids: seq<nat>, j: nat)
    requires Channels(ids) && (forall j :: 0 <= j < |files| ==> Parsed(files[j])) && WellNumbered(files, ids)
    requires j < FileCount(ids)
    ensures NumericLines(files[j]) == |Body(files[j])| && Malformed !in files[j]
    ensures First(Body(files[j])) != Some(Malformed)
  {
    var bodies: seq<seq<Line>> := Bodies(files, FileCount(ids));
    assert bodies[j] == Body(files[j]);
    forall r: nat | r < |Body(files[j])| ensures Body(files[j])[r].Row? { SoundRows(bodies, ids, j, r); }
    SamplesAreTheBody(files[j]);
  }

  lemma {:induction false} WellFormedFiles(files: seq<seq<Line>>, ids: seq<nat>, maximum: nat)
    requires Channels(ids) && maximum > 0 && forall j :: 0 <= j < |files| ==> Parsed(files[j])
    requires WellNumbered(files, ids)
    ensures Readable(files, ids, maximum)
  {
    BodiesReady(files, ids);
    forall j | 0 <= j < FileCount(ids) ensures First(Body(files[j])) != Some(Malformed) && Malformed !in files[j] {
      WellFormedBody(files, ids, j);
    }
    var bodies, step := Bodies(files, FileCount(ids)), Step(NumericLines(files[0]), maximum);
    WellFormedIsSound(bodies, ids, step, maximum);
    SoundMeansNoProblem(bodies, ids, step, maximum);
  }

  // Well-formed numbered files are read, and what the reading collects is the
  // batch form.
  lemma {:induction false} BatchForm(files: seq<seq<Line>>, ids: seq<nat>, maximum: nat, domains: seq<real>,
          values: map<nat, seq<real>>)
    requires Channels(ids) && maximum > 0 && forall j :: 0 <= j < |files| ==> Parsed(files[j])
    requires WellNumbered(files, ids)
    ensures Readable(files, ids, maximum)
    ensures var bodies, step := Bodies(files, FileCount(ids)), Step(NumericLines(files[0]), maximum);
            Reading(bodies, ids, step, Count(|bodies[0]|, step, maximum), domains, values) ==>
              IsBatch(files, ids, maximum, domains, values)
  {
    WellFormedFiles(files, ids, maximum);
    WellFormedBody(files, ids, 0);
    var bodies, step := Bodies(files, FileCount(ids)), Step(NumericLines(files[0]), maximum);
    if Reading(bodies, ids, step, Count(|bodies[0]|, step, maximum), domains, values) {
      ReadingIsSample(bodies, ids, maximum, domains, values);
    }
  }

  // The files opened together, row by row.
  method ScanParts(files: seq<seq<Line>>, parts: nat, ids: seq<nat>, step: nat, maximum: nat)
    returns (o: Outcome<(seq<real>, map<nat, seq<real>>)>)
    requires 0 < parts <= |files| && step > 0 && Ready(Bodies(files, parts), ids)
    ensures o.Ok? <==> (forall j :: 0 <= j < parts ==> First(Body(files[j])) != Some(Malformed))
                       && Sound(Bodies(files, parts), ids, step, maximum)
    ensures o.Ok? ==> Reading(Bodies(files, parts), ids, step, Count(|Bodies(files, parts)[0]|, step, maximum),
                              o.value.0, o.value.1)
  {
    ghost var bodies := Bodies(files, parts);
    SoundMeansNoProblem(bodies, ids, step, maximum);
    var streams := Open(files, parts);
    var buffered := FirstRows(streams);
    if buffered.Err? {
      return Err(buffered.reason);
    }
    o := ScanRows(streams, bodies, buffered.value, ids, step, maximum);
  }

  // ---- the reading in terms of the lines of the files ----

  lemma {:induction false} ReadableIsFit(files: seq<seq<Line>>, ids: seq<nat>, maximum: nat)
    requires Channels(ids) && maximum > 0 && forall j :: 0 <= j < |files| ==> Parsed(files[j])
    ensures Readable(files, ids, maximum) <==> Fit(files, ids, maximum)
  {
    FilesNeeded(ids);
    if FileCount(ids) <= |files| {
      BodiesReady(files, ids);
      StepDecimates(files[0], maximum);
      SoundIsFit(files, FileCount(ids), ids, Step(NumericLines(files[0]), maximum), maximum);
      FirstIsFit(files, FileCount(ids));
    }
  }

  lemma {:induction false} ReadingIsSampled(files: seq<seq<Line>>, ids: seq<nat>, maximum: nat, domains: seq<real>,
          values: map<nat, seq<real>>)
    requires Channels(ids) && maximum > 0 && forall j :: 0 <= j < |files| ==> Parsed(files[j])
    requires Readable(files, ids, maximum)
    requires var bodies, step := Bodies(files, FileCount(ids)), Step(NumericLines(files[0]), maximum);
             Reading(bodies, ids, step, Count(|bodies[0]|, step, maximum), domains, values)
    ensures exists parts: nat, step: nat ::
              Needed(ids, parts) && parts <= |files| && Decimates(RowCount(files[0]), maximum, step)
              && Sampled(files, parts, step, ids, maximum, domains, values)
  {
    var parts, step := FileCount(ids), Step(NumericLines(files[0]), maximum);
    FilesNeeded(ids);
    StepDecimates(files[0], maximum);
    SampledFromReading(files, parts, step, ids, maximum, domains, values);
  }

  // _read_legacy_out_sync from the row count on; on well-formed numbered files it
  // returns the batch form.
  method ReadLegacyOut(files: seq<seq<Line>>, ids: seq<nat>, maximum: nat)
    returns (o: Outcome<(seq<real>, map<nat, seq<real>>)>)
    requires Channels(ids) && maximum > 0 && forall j :: 0 <= j < |files| ==> Parsed(files[j])
    ensures o.Ok? <==> Readable(files, ids, maximum)
    ensures o.Ok? ==>
              var bodies, step := Bodies(files, FileCount(ids)), Step(NumericLines(files[0]), maximum);
              Reading(bodies, ids, step, Count(|bodies[0]|, step, maximum), o.value.0, o.value.1)
    ensures WellNumbered(files, ids) ==> o.Ok? && IsBatch(files, ids, maximum, o.value.0, o.value.1)
    ensures o.Ok? <==> Fit(files, ids, maximum)
    ensures o.Ok? ==> exists parts: nat, step: nat ::
              Needed(ids, parts) && parts <= |files| && Decimates(RowCount(files[0]), maximum, step)
              && Sampled(files, parts, step, ids, maximum, o.value.0, o.value.1)
  {
    ReadableIsFit(files, ids, maximum);
    FilesCover(ids);
    if WellNumbered(files, ids) { WellFormedFiles(files, ids, maximum); }
    if files == [] {
      return Err(NoFile);
    }
    var count := CountSamples(files[0]);
    if count.Err? {
      return Err(count.reason);
    }
    var parts := FileCount(ids);
    if |files| < parts {
      return Err(NoFile);
    }
    BodiesReady(files, ids);
    o := ScanParts(files, parts, ids, Step(count.value, maximum), maximum);
    if WellNumbered(files, ids) && o.Ok? { BatchForm(files, ids, maximum, o.value.0, o.value.1); }
    if o.Ok? { ReadingIsSampled(files, ids, maximum, o.value.0, o.value.1); }
  }
}
