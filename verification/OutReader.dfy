// Reading numbered legacy OUT files: ten channels to a file, a time column in
// each, streamed and decimated row by row.
module OutReader {
  import opened Options
  import opened Division
  import opened PyText

  // One line as the row parser classifies it: a Row has only finite numbers, a
  // Malformed line starts with a number but is no row, and Text does not start
  // with a number.
  datatype Line = Blank | Text | Malformed | Row(values: seq<real>)

  datatype Reason = NoFile | MalformedRow | DifferentLengths | UnexpectedText | TimesDiffer | MissingData

  datatype Outcome<+T> = Ok(value: T) | Err(reason: Reason)

  // A parsed row has at least its first number.
  predicate Parsed(lines: seq<Line>) {
    forall k :: 0 <= k < |lines| && lines[k].Row? ==> |lines[k].values| > 0
  }

  function NonBlanks(lines: seq<Line>): seq<Line> {
    if lines == [] then []
    else (if lines[0].Blank? then [] else [lines[0]]) + NonBlanks(lines[1..])
  }

  // The data lines: everything that is not blank, without one leading line of
  // text.
  function Body(lines: seq<Line>): seq<Line> {
    var all := NonBlanks(lines);
    if all != [] && all[0].Text? then all[1..] else all
  }

  function First(lines: seq<Line>): Option<Line> { if lines == [] then None else Some(lines[0]) }

  function Rest(lines: seq<Line>): seq<Line> { if lines == [] then [] else lines[1..] }

  class OutFile {
    const lines: seq<Line>
    var pos: nat

    ghost predicate Valid()
      reads this
    {
      pos <= |lines|
    }

    // The nonblank lines still to come.
    ghost function Ahead(): seq<Line>
      requires Valid()
      reads this
    {
      NonBlanks(lines[pos..])
    }

    constructor (lines: seq<Line>)
      ensures this.lines == lines && Valid() && Ahead() == NonBlanks(lines)
    {
      this.lines := lines;
      pos := 0;
    }

    // _legacy_next_nonblank; None is the end of the file.
    method NextNonblank() returns (line: Option<Line>)
      requires Valid()
      modifies this
      ensures Valid() && line == First(old(Ahead())) && Ahead() == Rest(old(Ahead()))
    {
      while pos < |lines|
        invariant Valid() && Ahead() == old(Ahead())
      {
        var current := lines[pos];
        assert lines[pos..][0] == current && lines[pos..][1..] == lines[pos + 1..];
        pos := pos + 1;
        if !current.Blank? {
          return Some(current);
        }
      }
      return None;
    }

    // _legacy_first_numeric_row: skips one line of text, and refuses a first
    // row that is malformed.
    method FirstNumericRow() returns (r: Outcome<Option<Line>>)
      requires Valid() && Ahead() == NonBlanks(lines)
      modifies this
      ensures Valid()
      ensures r == if First(Body(lines)) == Some(Malformed) then Err(MalformedRow) else Ok(First(Body(lines)))
      ensures Ahead() == Rest(Body(lines))
    {
      var line := NextNonblank();
      if line == Some(Text) {
        line := NextNonblank();
      }
      if line == Some(Malformed) {
        return Err(MalformedRow);
      }
      return Ok(line);
    }
  }

  // ---- decimation ----

  // How many rows of n a stride of step keeps.
  function Strided(n: nat, step: nat): nat
    requires step > 0
  {
    (n + step - 1) / step
  }

  function Step(samples: nat, maximum: nat): (step: nat)
    requires maximum > 0
    ensures step > 0
  {
    var s := (samples + maximum - 1) / maximum;
    if s < 1 then 1 else s
  }

  function Min(a: nat, b: nat): nat { if a < b then a else b }

  lemma {:induction false} StridedInside(n: nat, step: nat, i: nat)
    requires step > 0 && i < Strided(n, step)
    ensures i * step < n
  {
    var q := (n + step - 1) / step;
    assert n + step - 1 == step * q + (n + step - 1) % step;
    MulMono(i + 1, q, step);
  }

  lemma {:induction false} StrideOverflows(n: nat, maximum: nat, step: nat)
    requires step > 0 && maximum * step < n
    ensures Strided(n, step) > maximum
  {
    var q := (n + step - 1) / step;
    assert n + step - 1 == step * q + (n + step - 1) % step;
    if q <= maximum { MulMono(q, maximum, step); }
  }

  // The stride chosen from the row count is the least that keeps at most the
  // allowed number of rows, so cutting the result off at that number never loses a strided row.
  lemma {:induction false} StrideFits(n: nat, maximum: nat)
    requires maximum > 0
    ensures Strided(n, Step(n, maximum)) <= maximum
    ensures n <= maximum ==> Step(n, maximum) == 1
    ensures Step(n, maximum) > 1 ==> Strided(n, Step(n, maximum) - 1) > maximum
    ensures n <= maximum * Step(n, maximum)
    ensures Step(n, maximum) > 1 ==> maximum * (Step(n, maximum) - 1) < n
  {
    var step := Step(n, maximum);
    assert n + maximum - 1 == maximum * ((n + maximum - 1) / maximum) + (n + maximum - 1) % maximum;
    assert n <= maximum * step;
    if step > 1 {
      assert maximum * (step - 1) < n by { assert maximum * (step - 1) == maximum * step - maximum; }
      StrideOverflows(n, maximum, step - 1);
    }
    assert maximum * step == step * maximum;
    QuotientAtMost(n + step - 1, step, maximum);
    if n <= maximum { QuotientAtMost(n + maximum - 1, maximum, 1); }
  }

  // Every step-th value, from the first on.
  function Stride(values: seq<real>, step: nat): (r: seq<real>)
    requires step > 0
    ensures |r| == Strided(|values|, step)
  {
    seq(Strided(|values|, step), i requires 0 <= i < Strided(|values|, step) =>
      StridedInside(|values|, step, i); values[i * step])
  }

  // _sample: the batch form.
  function Sample(values: seq<real>, maximum: nat): seq<real>
    requires maximum > 0
  {
    if |values| <= maximum then values
    else
      var strided := Stride(values, Step(|values|, maximum));
      strided[..Min(maximum, |strided|)]
  }

  // Both forms of _sample are the stride chosen from the row count.
  lemma {:induction false} SampleIsStride(values: seq<real>, maximum: nat)
    requires maximum > 0
    ensures Sample(values, maximum) == Stride(values, Step(|values|, maximum))
  {
    StrideFits(|values|, maximum);
    if |values| <= maximum {
      QuotientIs(|values|, 1, |values|);
      assert forall i :: 0 <= i < |values| ==> values[i * 1] == values[i];
    }
  }

  // ---- one row across the files ----

  // The file and column that hold a channel; column 0 is the time.
  function PartOf(id: nat): nat
    requires id > 0
  {
    (id - 1) / 10
  }

  function ColumnOf(id: nat): nat
    requires id > 0
  {
    (id - 1) % 10 + 1
  }

  // The identifiers the metadata check lets through: distinct and positive.
  predicate Channels(ids: seq<nat>) {
    (forall k :: 0 <= k < |ids| ==> ids[k] > 0) && forall j, k :: 0 <= j < k < |ids| ==> ids[j] != ids[k]
  }

  predicate Covers(parts: nat, ids: seq<nat>)
    requires Channels(ids)
  {
    parts > 0 && forall k :: 0 <= k < |ids| ==> PartOf(ids[k]) < parts
  }

  // Why one sampled row cannot be read, if it cannot.
  function RowProblem(rows: seq<Line>, ids: seq<nat>): Option<Reason>
    requires Parsed(rows) && Channels(ids) && Covers(|rows|, ids)
  {
    if Malformed in rows then Some(MalformedRow)
    else if exists j :: 0 <= j < |rows| && !rows[j].Row? then Some(UnexpectedText)
    else if exists j :: 0 <= j < |rows| && rows[j].values[0] != rows[0].values[0] then Some(TimesDiffer)
    else if exists k :: 0 <= k < |ids| && |rows[PartOf(ids[k])].values| <= ColumnOf(ids[k]) then Some(MissingData)
    else None
  }

  function Picked(rows: seq<Line>, id: nat): real
    requires id > 0 && PartOf(id) < |rows| && rows[PartOf(id)].Row? && ColumnOf(id) < |rows[PartOf(id)].values|
  {
    rows[PartOf(id)].values[ColumnOf(id)]
  }

  predicate Rows(rows: seq<Line>) { forall j :: 0 <= j < |rows| ==> rows[j].Row? }

  // The body of the row loop for a sampled row.
  method ReadRow(rows: seq<Line>, ids: seq<nat>) returns (r: Outcome<(real, seq<real>)>)
    requires Parsed(rows) && Channels(ids) && Covers(|rows|, ids)
    ensures r.Err? <==> RowProblem(rows, ids).Some?
    ensures r.Err? ==> Some(r.reason) == RowProblem(rows, ids)
    ensures r == Err(MalformedRow) <==> Malformed in rows
    ensures r == Err(UnexpectedText) <==> Malformed !in rows && exists j :: 0 <= j < |rows| && !rows[j].Row?
    ensures r == Err(TimesDiffer) <==>
            Rows(rows) && exists j :: 0 <= j < |rows| && rows[j].values[0] != rows[0].values[0]
    ensures r == Err(MissingData) <==>
            Rows(rows) && (forall j :: 0 <= j < |rows| ==> rows[j].values[0] == rows[0].values[0])
            && exists k :: 0 <= k < |ids| && |rows[(ids[k] - 1) / 10].values| <= (ids[k] - 1) % 10 + 1
    ensures r.Ok? ==> r.value.0 == rows[0].values[0] && |r.value.1| == |ids|
    ensures r.Ok? ==> forall k :: 0 <= k < |ids| ==> r.value.1[k] == Picked(rows, ids[k])
  {
    var text := false;
    for j := 0 to |rows|
      invariant Malformed !in rows[..j]
      invariant text <==> exists i :: 0 <= i < j && !rows[i].Row?
    {
      if rows[j].Malformed? {
        assert rows[j] == Malformed;
        return Err(MalformedRow);
      }
      text := text || !rows[j].Row?;
    }
    assert rows[..|rows|] == rows;
    if text {
      return Err(UnexpectedText);
    }
    var time := rows[0].values[0];
    for j := 1 to |rows|
      invariant forall i :: 0 <= i < j ==> rows[i].values[0] == time
    {
      if rows[j].values[0] != time {
        return Err(TimesDiffer);
      }
    }
    var picked := [];
    for k := 0 to |ids|
      invariant |picked| == k
      invariant forall i ::
        0 <= i < k ==> |rows[PartOf(ids[i])].values| > ColumnOf(ids[i]) && picked[i] == Picked(rows, ids[i])
    {
      if |rows[PartOf(ids[k])].values| <= ColumnOf(ids[k]) {
        return Err(MissingData);
      }
      picked := picked + [Picked(rows, ids[k])];
    }
    return Ok((time, picked));
  }

  // ---- all rows ----

  predicate Ready(bodies: seq<seq<Line>>, ids: seq<nat>) {
    Channels(ids) && Covers(|bodies|, ids) && forall j :: 0 <= j < |bodies| ==> Parsed(bodies[j])
  }

  predicate Present(bodies: seq<seq<Line>>, r: nat) { forall j :: 0 <= j < |bodies| ==> r < |bodies[j]| }

  function RowsAt(bodies: seq<seq<Line>>, r: nat): (rows: seq<Line>)
    requires Present(bodies, r)
    ensures |rows| == |bodies|
  {
    seq(|bodies|, j requires 0 <= j < |bodies| => bodies[j][r])
  }

  // Rows are taken at multiples of the step until enough are taken.
  predicate Taken(r: nat, step: nat, maximum: nat)
    requires step > 0
  {
    r % step == 0 && r / step < maximum
  }

  // The first thing wrong from row r on.
  function Problem(bodies: seq<seq<Line>>, ids: seq<nat>, step: nat, maximum: nat, r: nat): Option<Reason>
    requires Ready(bodies, ids) && step > 0
    decreases |bodies[0]| - r
  {
    if |bodies[0]| <= r then
      if exists j :: 0 <= j < |bodies| && r < |bodies[j]| then Some(DifferentLengths) else None
    else if !Present(bodies, r) then Some(DifferentLengths)
    else if Taken(r, step, maximum) && RowProblem(RowsAt(bodies, r), ids).Some? then RowProblem(RowsAt(bodies, r), ids)
    else Problem(bodies, ids, step, maximum, r + 1)
  }

  // What a reading needs: files of one length whose taken rows are sound.
  predicate Sound(bodies: seq<seq<Line>>, ids: seq<nat>, step: nat, maximum: nat)
    requires Ready(bodies, ids) && step > 0
  {
    (forall j :: 0 <= j < |bodies| ==> |bodies[j]| == |bodies[0]|)
    && forall r :: 0 <= r < |bodies[0]| && Taken(r, step, maximum) ==> RowProblem(RowsAt(bodies, r), ids).None?
  }

  lemma {:induction false} ProblemFrom(bodies: seq<seq<Line>>, ids: seq<nat>, step: nat, maximum: nat, r: nat)
    requires Ready(bodies, ids) && step > 0 && r <= |bodies[0]|
    requires forall j :: 0 <= j < |bodies| ==> r <= |bodies[j]|
    ensures Problem(bodies, ids, step, maximum, r).None? <==>
            ((forall j :: 0 <= j < |bodies| ==> |bodies[j]| == |bodies[0]|)
             && forall k ::
                  r <= k < |bodies[0]| && Taken(k, step, maximum) ==> RowProblem(RowsAt(bodies, k), ids).None?)
    decreases |bodies[0]| - r
  {
    if r < |bodies[0]| {
      if Present(bodies, r) {
        ProblemFrom(bodies, ids, step, maximum, r + 1);
      } else {
        var j :| 0 <= j < |bodies| && |bodies[j]| <= r;
        assert |bodies[j]| != |bodies[0]|;
      }
    }
  }

  // Nothing is wrong exactly when the files have one length and every taken
  // row is sound.
  lemma {:induction false} SoundMeansNoProblem(bodies: seq<seq<Line>>, ids: seq<nat>, step: nat, maximum: nat)
    requires Ready(bodies, ids) && step > 0
    ensures Problem(bodies, ids, step, maximum, 0).None? <==> Sound(bodies, ids, step, maximum)
  {
    ProblemFrom(bodies, ids, step, maximum, 0);
  }

  // The number of rows taken among the first r.
  function Count(r: nat, step: nat, maximum: nat): nat
    requires step > 0
  {
    Min(Strided(r, step), maximum)
  }

  lemma {:induction false} StridedIs(n: nat, step: nat, q: nat)
    requires step > 0 && step * q < n + step <= step * q + step
    ensures Strided(n, step) == q
  {
    QuotientIs(n + step - 1, step, q);
  }

  lemma {:induction false} StridedGrows(r: nat, step: nat, q: nat, m: nat)
    requires step > 0 && r == step * q + m && m < step
    ensures Strided(r, step) == q + if m == 0 then 0 else 1
    ensures Strided(r + 1, step) == q + 1
  {
    var next := q + 1;
    assert step * next == step * q + step;
    StridedIs(r + 1, step, next);
    StridedIs(r, step, if m == 0 then q else next);
  }

  lemma {:induction false} CountGrows(r: nat, step: nat, maximum: nat)
    requires step > 0
    ensures Taken(r, step, maximum) <==> r % step == 0 && Count(r, step, maximum) < maximum
    ensures Count(r + 1, step, maximum) == Count(r, step, maximum) + if Taken(r, step, maximum) then 1 else 0
    ensures Taken(r, step, maximum) ==> r == Count(r, step, maximum) * step
  {
    var q, m := r / step, r % step;
    assert r == step * q + m;
    StridedGrows(r, step, q, m);
    assert step * q == q * step;
  }

  // ---- files and samples ----

  function MaxId(ids: seq<nat>): (m: nat)
    ensures forall k :: 0 <= k < |ids| ==> ids[k] <= m
  {
    if ids == [] then 0 else
      var m := MaxId(ids[..|ids| - 1]);
      if m < ids[|ids| - 1] then ids[|ids| - 1] else m
  }

  // How many numbered files the selected channels need.
  function FileCount(ids: seq<nat>): nat { if ids == [] then 1 else (MaxId(ids) + 9) / 10 }

  function NumericLines(lines: seq<Line>): nat {
    if lines == [] then 0 else (if lines[0].Row? then 1 else 0) + NumericLines(lines[1..])
  }
}
