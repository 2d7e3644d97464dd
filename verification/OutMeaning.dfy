// What the legacy reading returns, in terms of the lines of its files.
module OutMeaning {
  import opened Options
  import opened Division
  import opened OutReader
  import opened OutStreaming

  // ---- lines ----

  // How many lines are not blank.
  function Solid(lines: seq<Line>): nat {
    if lines == [] then 0 else (if lines[0] == Blank then 0 else 1) + Solid(lines[1..])
  }

  // The first line that is not blank is text.
  predicate Headed(lines: seq<Line>) {
    exists h :: 0 <= h < |lines| && lines[h] == Text && forall i :: 0 <= i < h ==> lines[i] == Blank
  }

  // Line m is data line r: r data lines come before it, and perhaps one line
  // of text.
  predicate DataLine(lines: seq<Line>, r: nat, m: nat) {
    m < |lines| && lines[m] != Blank && Solid(lines[..m]) == r + (if Headed(lines) then 1 else 0)
  }

  function DataLines(lines: seq<Line>): int { Solid(lines) - (if Headed(lines) then 1 else 0) }

  function RowCount(lines: seq<Line>): nat {
    if lines == [] then 0 else (if lines[0].Row? then 1 else 0) + RowCount(lines[1..])
  }

  // ---- what is asked of the files ----

  // The least number of files, ten channels each, that holds every channel.
  ghost predicate Needed(ids: seq<nat>, parts: nat) {
    parts > 0 && (forall k :: 0 <= k < |ids| ==> ids[k] <= 10 * parts)
    && (parts > 1 ==> exists k :: 0 <= k < |ids| && ids[k] > 10 * (parts - 1))
  }

  // The least stride that keeps at most maximum of n rows.
  predicate Decimates(n: nat, maximum: nat, step: nat) {
    step > 0 && n <= maximum * step && (step > 1 ==> maximum * (step - 1) < n)
  }

  // Data line r of this file is a row with this time.
  ghost predicate TimeAt(lines: seq<Line>, r: nat, time: real) {
    exists m: nat :: DataLine(lines, r, m) && lines[m].Row? && |lines[m].values| > 0 && lines[m].values[0] == time
  }

  // And with this value in this column.
  ghost predicate ValueAt(lines: seq<Line>, r: nat, column: nat, value: real) {
    exists m: nat ::
      DataLine(lines, r, m) && lines[m].Row? && |lines[m].values| > column && lines[m].values[column] == value
  }

  ghost predicate Timed(files: seq<seq<Line>>, parts: nat, r: nat, time: real)
    requires parts <= |files|
  {
    forall j :: 0 <= j < parts ==> TimeAt(files[j], r, time)
  }

  ghost predicate Holds(lines: seq<Line>, r: nat, column: nat) { exists value :: ValueAt(lines, r, column, value) }

  // Data line r of all files: one time, and a value for every channel.
  ghost predicate RowFits(files: seq<seq<Line>>, parts: nat, ids: seq<nat>, r: nat)
    requires parts <= |files| && Channels(ids) && forall k :: 0 <= k < |ids| ==> ids[k] <= 10 * parts
  {
    (exists time :: Timed(files, parts, r, time))
    && forall k :: 0 <= k < |ids| ==> Holds(files[(ids[k] - 1) / 10], r, (ids[k] - 1) % 10 + 1)
  }

  // No file's first data line is malformed.
  ghost predicate FirstFits(files: seq<seq<Line>>, parts: nat)
    requires parts <= |files|
  {
    forall j, m: nat :: 0 <= j < parts && DataLine(files[j], 0, m) ==> files[j][m] != Malformed
  }

  // All files have one number of data lines, and every sampled one fits.
  ghost predicate RowsFit(files: seq<seq<Line>>, parts: nat, ids: seq<nat>, step: nat, maximum: nat)
    requires 0 < parts <= |files| && Channels(ids) && forall k :: 0 <= k < |ids| ==> ids[k] <= 10 * parts
  {
    (forall j :: 0 <= j < parts ==> DataLines(files[j]) == DataLines(files[0]))
    && forall i: nat :: i < maximum && i * step < DataLines(files[0]) ==> RowFits(files, parts, ids, i * step)
  }

  // The files a reading goes through with.
  ghost predicate Fit(files: seq<seq<Line>>, ids: seq<nat>, maximum: nat)
    requires Channels(ids)
  {
    exists parts: nat, step: nat ::
      Needed(ids, parts) && parts <= |files| && Malformed !in files[0]
      && Decimates(RowCount(files[0]), maximum, step)
      && FirstFits(files, parts) && RowsFit(files, parts, ids, step, maximum)
  }

  // What it returns: every step-th data line, at most maximum of them; its
  // time in every file, and of each channel the value in the channel's own
  // file and column.
  ghost predicate Sampled(files: seq<seq<Line>>, parts: nat, step: nat, ids: seq<nat>, maximum: nat,
                          domains: seq<real>, values: map<nat, seq<real>>)
    requires Channels(ids) && 0 < parts <= |files| && forall k :: 0 <= k < |ids| ==> ids[k] <= 10 * parts
  {
    (forall i: nat :: i < |domains| <==> i < maximum && i * step < DataLines(files[0]))
    && (forall i, j :: 0 <= i < |domains| && 0 <= j < parts ==> TimeAt(files[j], i * step, domains[i]))
    && (forall id :: id in values <==> id in ids)
    && forall k :: 0 <= k < |ids| ==>
         |values[ids[k]]| == |domains|
         && forall i :: 0 <= i < |domains| ==>
              ValueAt(files[(ids[k] - 1) / 10], i * step, (ids[k] - 1) % 10 + 1, values[ids[k]][i])
  }

  // ---- data lines are the body ----

  lemma {:induction false} SolidIsNonBlank(lines: seq<Line>)
    ensures Solid(lines) == |NonBlanks(lines)|
  {
    if lines != [] { SolidIsNonBlank(lines[1..]); }
  }

  lemma {:induction false} SolidAt(lines: seq<Line>, m: nat)
    requires m < |lines| && lines[m] != Blank
    ensures Solid(lines[..m]) < |NonBlanks(lines)| && NonBlanks(lines)[Solid(lines[..m])] == lines[m]
  {
    if m > 0 {
      SolidAt(lines[1..], m - 1);
      assert lines[..m][1..] == lines[1..][..m - 1];
    }
  }

  lemma {:induction false} SolidFrom(lines: seq<Line>, n: nat) returns (m: nat)
    requires n < |NonBlanks(lines)|
    ensures m < |lines| && lines[m] != Blank && Solid(lines[..m]) == n && lines[m] == NonBlanks(lines)[n]
  {
    if lines[0] == Blank {
      m := SolidFrom(lines[1..], n);
      m := m + 1;
      assert lines[..m][1..] == lines[1..][..m - 1];
    } else if n == 0 {
      m := 0;
    } else {
      m := SolidFrom(lines[1..], n - 1);
      m := m + 1;
      assert lines[..m][1..] == lines[1..][..m - 1];
    }
  }

  lemma {:induction false} BlankPrefix(lines: seq<Line>, h: nat)
    requires h <= |lines| && forall i :: 0 <= i < h ==> lines[i] == Blank
    ensures NonBlanks(lines) == NonBlanks(lines[h..])
  {
    if h > 0 {
      BlankPrefix(lines[1..], h - 1);
      assert lines[1..][h - 1..] == lines[h..];
    }
  }

  lemma {:induction false} HeadedIsText(lines: seq<Line>)
    ensures Headed(lines) <==> NonBlanks(lines) != [] && NonBlanks(lines)[0] == Text
  {
    if Headed(lines) {
      var h :| 0 <= h < |lines| && lines[h] == Text && forall i :: 0 <= i < h ==> lines[i] == Blank;
      BlankPrefix(lines, h);
    }
    if NonBlanks(lines) != [] && NonBlanks(lines)[0] == Text {
      var m := SolidFrom(lines, 0);
      NothingBefore(lines, m);
    }
  }

  lemma {:induction false} NothingBefore(lines: seq<Line>, m: nat)
    requires m <= |lines| && Solid(lines[..m]) == 0
    ensures forall i :: 0 <= i < m ==> lines[i] == Blank
  {
    if m > 0 {
      assert lines[..m][1..] == lines[1..][..m - 1];
      NothingBefore(lines[1..], m - 1);
      assert forall i :: 0 < i < m ==> lines[i] == lines[1..][i - 1];
    }
  }

  lemma {:induction false} BodyLength(lines: seq<Line>)
    ensures DataLines(lines) == |Body(lines)|
  {
    SolidIsNonBlank(lines);
    HeadedIsText(lines);
  }

  lemma {:induction false} BodyAt(lines: seq<Line>, r: nat, m: nat)
    requires DataLine(lines, r, m)
    ensures r < |Body(lines)| && Body(lines)[r] == lines[m]
  {
    SolidAt(lines, m);
    HeadedIsText(lines);
  }

  lemma {:induction false} BodyFrom(lines: seq<Line>, r: nat) returns (m: nat)
    requires r < |Body(lines)|
    ensures DataLine(lines, r, m) && lines[m] == Body(lines)[r]
  {
    HeadedIsText(lines);
    m := SolidFrom(lines, r + if Headed(lines) then 1 else 0);
  }

  lemma {:induction false} TimeInBody(lines: seq<Line>, r: nat, time: real)
    ensures TimeAt(lines, r, time) <==>
            r < |Body(lines)| && Body(lines)[r].Row? && |Body(lines)[r].values| > 0 && Body(lines)[r].values[0] == time
  {
    if TimeAt(lines, r, time) {
      var m: nat :| DataLine(lines, r, m) && lines[m].Row? && |lines[m].values| > 0 && lines[m].values[0] == time;
      BodyAt(lines, r, m);
    } else if r < |Body(lines)| {
      var m := BodyFrom(lines, r);
    }
  }

  lemma {:induction false} ValueInBody(lines: seq<Line>, r: nat, column: nat, value: real)
    ensures ValueAt(lines, r, column, value) <==>
            r < |Body(lines)| && Body(lines)[r].Row? && |Body(lines)[r].values| > column
            && Body(lines)[r].values[column] == value
  {
    if ValueAt(lines, r, column, value) {
      var m: nat :|
        DataLine(lines, r, m) && lines[m].Row? && |lines[m].values| > column && lines[m].values[column] == value;
      BodyAt(lines, r, m);
    } else if r < |Body(lines)| {
      var m := BodyFrom(lines, r);
    }
  }

  // ---- counts ----

  lemma {:induction false} RowsCounted(lines: seq<Line>)
    ensures RowCount(lines) == NumericLines(lines)
  {
    if lines != [] { RowsCounted(lines[1..]); }
  }

  lemma {:induction false} StepDecimates(lines: seq<Line>, maximum: nat)
    requires maximum > 0
    ensures Decimates(RowCount(lines), maximum, Step(NumericLines(lines), maximum))
    ensures forall step :: Decimates(RowCount(lines), maximum, step) ==> step == Step(NumericLines(lines), maximum)
  {
    RowsCounted(lines);
    StrideFits(NumericLines(lines), maximum);
    forall step | Decimates(RowCount(lines), maximum, step) ensures step == Step(NumericLines(lines), maximum) {
      OneStride(NumericLines(lines), maximum, step, Step(NumericLines(lines), maximum));
    }
  }

  lemma {:induction false} OneStride(n: nat, maximum: nat, a: nat, b: nat)
    requires Decimates(n, maximum, a) && Decimates(n, maximum, b)
    ensures a == b
  {
    if a < b { MulMono(a, b - 1, maximum); }
    if b < a { MulMono(b, a - 1, maximum); }
  }

  lemma {:induction false} FilesNeeded(ids: seq<nat>)
    requires Channels(ids)
    ensures Needed(ids, FileCount(ids)) && forall parts :: Needed(ids, parts) ==> parts == FileCount(ids)
  {
    MaxIsThere(ids);
  }

  lemma {:induction false} MaxIsThere(ids: seq<nat>)
    ensures ids != [] ==> MaxId(ids) in ids
  {
    if ids != [] { MaxIsThere(ids[..|ids| - 1]); }
  }

  // ---- one row ----

  lemma {:induction false} RowInBodies(files: seq<seq<Line>>, parts: nat, r: nat, j: nat)
    requires j < parts <= |files| && Present(Bodies(files, parts), r)
    ensures r < |Body(files[j])| && RowsAt(Bodies(files, parts), r)[j] == Body(files[j])[r]
  {
    assert r < |Bodies(files, parts)[j]|;
  }

  lemma {:induction false} FittingRow(files: seq<seq<Line>>, parts: nat, ids: seq<nat>, r: nat)
    requires 0 < parts <= |files| && Ready(Bodies(files, parts), ids) && Present(Bodies(files, parts), r)
    requires (forall k :: 0 <= k < |ids| ==> ids[k] <= 10 * parts) && RowFits(files, parts, ids, r)
    ensures RowProblem(RowsAt(Bodies(files, parts), r), ids).None?
  {
    var rows := RowsAt(Bodies(files, parts), r);
    var time :| Timed(files, parts, r, time);
    forall j | 0 <= j < parts ensures rows[j].Row? && rows[j].values[0] == time {
      RowInBodies(files, parts, r, j);
      TimeInBody(files[j], r, time);
    }
    forall k | 0 <= k < |ids| ensures |rows[PartOf(ids[k])].values| > ColumnOf(ids[k]) {
      assert Holds(files[(ids[k] - 1) / 10], r, (ids[k] - 1) % 10 + 1);
      var value :| ValueAt(files[(ids[k] - 1) / 10], r, (ids[k] - 1) % 10 + 1, value);
      RowInBodies(files, parts, r, PartOf(ids[k]));
      ValueInBody(files[PartOf(ids[k])], r, ColumnOf(ids[k]), value);
    }
  }

  lemma {:induction false} SoundTimes(files: seq<seq<Line>>, parts: nat, ids: seq<nat>, r: nat, j: nat)
    requires 0 < parts <= |files| && Ready(Bodies(files, parts), ids) && j < parts
    requires RowSound(Bodies(files, parts), ids, r)
    ensures TimeAt(files[j], r, RowsAt(Bodies(files, parts), r)[0].values[0])
  {
    var rows := RowsAt(Bodies(files, parts), r);
    RowInBodies(files, parts, r, j);
    assert rows[0].Row? && rows[j].Row? && rows[j].values[0] == rows[0].values[0];
    assert |rows[j].values| > 0 by { assert Bodies(files, parts)[j][r] == rows[j]; }
    TimeInBody(files[j], r, rows[0].values[0]);
  }

  lemma {:induction false} SoundValues(files: seq<seq<Line>>, parts: nat, ids: seq<nat>, r: nat, k: nat)
    requires 0 < parts <= |files| && Ready(Bodies(files, parts), ids) && k < |ids|
    requires RowSound(Bodies(files, parts), ids, r)
    ensures (ids[k] - 1) / 10 < parts
    ensures ValueAt(files[(ids[k] - 1) / 10], r, (ids[k] - 1) % 10 + 1,
                    Picked(RowsAt(Bodies(files, parts), r), ids[k]))
  {
    RowInBodies(files, parts, r, PartOf(ids[k]));
    ValueInBody(files[PartOf(ids[k])], r, ColumnOf(ids[k]), Picked(RowsAt(Bodies(files, parts), r), ids[k]));
  }

  lemma {:induction false} RowFitsBody(files: seq<seq<Line>>, parts: nat, ids: seq<nat>, r: nat)
    requires 0 < parts <= |files| && Ready(Bodies(files, parts), ids) && Present(Bodies(files, parts), r)
    requires forall k :: 0 <= k < |ids| ==> ids[k] <= 10 * parts
    ensures RowFits(files, parts, ids, r) <==> RowProblem(RowsAt(Bodies(files, parts), r), ids).None?
  {
    if RowFits(files, parts, ids, r) { FittingRow(files, parts, ids, r); }
    if RowProblem(RowsAt(Bodies(files, parts), r), ids).None? {
      var time := RowsAt(Bodies(files, parts), r)[0].values[0];
      forall j | 0 <= j < parts ensures TimeAt(files[j], r, time) { SoundTimes(files, parts, ids, r, j); }
      assert Timed(files, parts, r, time);
      forall k | 0 <= k < |ids| ensures Holds(files[(ids[k] - 1) / 10], r, (ids[k] - 1) % 10 + 1) {
        SoundValues(files, parts, ids, r, k);
      }
    }
  }

  // ---- all rows ----

  // Row r is the i-th one taken.
  lemma {:induction false} TakenIsMultiple(r: nat, step: nat, maximum: nat) returns (i: nat)
    requires step > 0 && Taken(r, step, maximum)
    ensures i < maximum && i * step == r
  {
    i := r / step;
    assert r == step * i + r % step;
  }

  lemma {:induction false} MultipleIsTaken(i: nat, step: nat, maximum: nat)
    requires step > 0 && i < maximum
    ensures Taken(i * step, step, maximum)
  {
    assert i * step == step * i;
    QuotientIs(i * step, step, i);
    assert i * step == step * ((i * step) / step) + (i * step) % step;
  }

  lemma {:induction false} Lengths(files: seq<seq<Line>>, parts: nat)
    requires 0 < parts <= |files|
    ensures DataLines(files[0]) == |Bodies(files, parts)[0]|
    ensures (forall j :: 0 <= j < parts ==> DataLines(files[j]) == DataLines(files[0])) <==>
            forall j :: 0 <= j < parts ==> |Bodies(files, parts)[j]| == |Bodies(files, parts)[0]|
  {
    forall j | 0 <= j < parts ensures DataLines(files[j]) == |Bodies(files, parts)[j]| { BodyLength(files[j]); }
  }

  lemma {:induction false} SoundIsFit(files: seq<seq<Line>>, parts: nat, ids: seq<nat>, step: nat, maximum: nat)
    requires 0 < parts <= |files| && Ready(Bodies(files, parts), ids) && step > 0
    requires forall k :: 0 <= k < |ids| ==> ids[k] <= 10 * parts
    ensures Sound(Bodies(files, parts), ids, step, maximum) <==> RowsFit(files, parts, ids, step, maximum)
  {
    var bodies := Bodies(files, parts);
    Lengths(files, parts);
    if forall j :: 0 <= j < parts ==> |bodies[j]| == |bodies[0]| {
      forall r | 0 <= r < |bodies[0]|
        ensures Present(bodies, r)
        ensures RowFits(files, parts, ids, r) <==> RowProblem(RowsAt(bodies, r), ids).None?
      {
        assert Present(bodies, r);
        RowFitsBody(files, parts, ids, r);
      }
      if Sound(bodies, ids, step, maximum) {
        forall i: nat | i < maximum && i * step < |bodies[0]| ensures RowFits(files, parts, ids, i * step) {
          MultipleIsTaken(i, step, maximum);
        }
      }
      if RowsFit(files, parts, ids, step, maximum) {
        forall r | 0 <= r < |bodies[0]| && Taken(r, step, maximum) ensures RowProblem(RowsAt(bodies, r), ids).None? {
          var i := TakenIsMultiple(r, step, maximum);
          assert RowFits(files, parts, ids, i * step);
        }
      }
    }
  }

  lemma {:induction false} FirstIsFit(files: seq<seq<Line>>, parts: nat)
    requires parts <= |files|
    ensures FirstFits(files, parts) <==> forall j :: 0 <= j < parts ==> First(Body(files[j])) != Some(Malformed)
  {
    if FirstFits(files, parts) {
      forall j | 0 <= j < parts ensures First(Body(files[j])) != Some(Malformed) {
        if Body(files[j]) != [] { var m := BodyFrom(files[j], 0); }
      }
    }
    if forall j :: 0 <= j < parts ==> First(Body(files[j])) != Some(Malformed) {
      forall j, m: nat | 0 <= j < parts && DataLine(files[j], 0, m) ensures files[j][m] != Malformed {
        BodyAt(files[j], 0, m);
      }
    }
  }

  // How many rows are taken of n.
  lemma {:induction false} CountIs(n: nat, step: nat, maximum: nat, i: nat)
    requires step > 0
    ensures i < Count(n, step, maximum) <==> i < maximum && i * step < n
  {
    var q := Strided(n, step);
    assert n + step - 1 == step * q + (n + step - 1) % step;
    if i < q {
      StridedInside(n, step, i);
    } else {
      MulMono(q, i, step);
      assert q * step == step * q;
    }
  }

  lemma {:induction false} SampledFromReading(files: seq<seq<Line>>, parts: nat, step: nat, ids: seq<nat>,
          maximum: nat, domains: seq<real>, values: map<nat, seq<real>>)
    requires 0 < parts <= |files| && Ready(Bodies(files, parts), ids) && step > 0
    requires forall k :: 0 <= k < |ids| ==> ids[k] <= 10 * parts
    requires Reading(Bodies(files, parts), ids, step, Count(|Bodies(files, parts)[0]|, step, maximum), domains, values)
    ensures Sampled(files, parts, step, ids, maximum, domains, values)
  {
    var bodies := Bodies(files, parts);
    Lengths(files, parts);
    forall i: nat ensures i < |domains| <==> i < maximum && i * step < DataLines(files[0]) {
      CountIs(|bodies[0]|, step, maximum, i);
    }
    forall i, j | 0 <= i < |domains| && 0 <= j < parts ensures TimeAt(files[j], i * step, domains[i]) {
      SoundTimes(files, parts, ids, i * step, j);
    }
    forall k, i | 0 <= k < |ids| && 0 <= i < |domains|
      ensures ValueAt(files[(ids[k] - 1) / 10], i * step, (ids[k] - 1) % 10 + 1, values[ids[k]][i])
    {
      assert ChannelRead(bodies, ids, step, k, values[ids[k]]);
      SoundValues(files, parts, ids, i * step, k);
    }
  }
}
