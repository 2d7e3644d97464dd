// The streaming reader over several OUT files, and the batch form it equals.
module OutStreaming {
  import opened Options
  import opened OutReader

  function RowOf(body: seq<Line>, r: nat): Option<Line> { if r < |body| then Some(body[r]) else None }

  function Drop(body: seq<Line>, r: nat): seq<Line> { body[Min(r, |body|)..] }

  // Every stream has delivered r of its rows.
  ghost predicate At(streams: seq<OutFile>, bodies: seq<seq<Line>>, r: nat)
    reads streams
  {
    |streams| == |bodies|
    && forall j :: 0 <= j < |streams| ==> streams[j].Valid() && streams[j].Ahead() == Drop(bodies[j], r)
  }

  predicate Distinct(streams: seq<OutFile>) { forall i, j :: 0 <= i < j < |streams| ==> streams[i] != streams[j] }

  lemma {:induction false} DropStep(body: seq<Line>, r: nat)
    ensures First(Drop(body, r)) == RowOf(body, r) && Rest(Drop(body, r)) == Drop(body, r + 1)
  {
  }

  method NextRows(streams: seq<OutFile>, ghost bodies: seq<seq<Line>>, ghost r: nat) returns (rows: seq<Option<Line>>)
    requires At(streams, bodies, r) && Distinct(streams)
    modifies streams
    ensures At(streams, bodies, r + 1) && |rows| == |bodies|
    ensures forall j :: 0 <= j < |rows| ==> rows[j] == RowOf(bodies[j], r)
  {
    rows := [];
    for j := 0 to |streams|
      invariant |rows| == j
      invariant forall i :: 0 <= i < |streams| ==> streams[i].Valid()
      invariant forall i :: j <= i < |streams| ==> streams[i].Ahead() == Drop(bodies[i], r)
      invariant forall i :: 0 <= i < j ==> streams[i].Ahead() == Drop(bodies[i], r + 1)
      invariant forall i :: 0 <= i < j ==> rows[i] == RowOf(bodies[i], r)
    {
      DropStep(bodies[j], r);
      var row := streams[j].NextNonblank();
      rows := rows + [row];
    }
  }

  method Open(files: seq<seq<Line>>, parts: nat) returns (streams: seq<OutFile>)
    requires parts <= |files|
    ensures |streams| == parts && Distinct(streams) && fresh(streams)
    ensures forall i :: 0 <= i < parts ==>
              streams[i].Valid() && streams[i].lines == files[i] && streams[i].Ahead() == NonBlanks(files[i])
  {
    streams := [];
    for j := 0 to parts
      invariant |streams| == j && Distinct(streams) && fresh(streams)
      invariant forall i :: 0 <= i < j ==>
        streams[i].Valid() && streams[i].lines == files[i] && streams[i].Ahead() == NonBlanks(files[i])
    {
      var stream := new OutFile(files[j]);
      streams := streams + [stream];
    }
  }

  // buffered: the first row of every stream.
  method FirstRows(streams: seq<OutFile>) returns (r: Outcome<seq<Option<Line>>>)
    requires Distinct(streams)
    requires forall i :: 0 <= i < |streams| ==> streams[i].Valid() && streams[i].Ahead() == NonBlanks(streams[i].lines)
    modifies streams
    ensures r.Err? <==> exists j :: 0 <= j < |streams| && First(Body(streams[j].lines)) == Some(Malformed)
    ensures r.Err? ==> r.reason == MalformedRow
    ensures r.Ok? ==> |r.value| == |streams|
    ensures r.Ok? ==> forall i :: 0 <= i < |streams| ==>
              streams[i].Valid() && streams[i].Ahead() == Rest(Body(streams[i].lines))
              && r.value[i] == First(Body(streams[i].lines))
  {
    var buffered := [];
    for j := 0 to |streams|
      invariant |buffered| == j
      invariant forall i :: 0 <= i < |streams| ==> streams[i].Valid()
      invariant forall i :: j <= i < |streams| ==> streams[i].Ahead() == NonBlanks(streams[i].lines)
      invariant forall i :: 0 <= i < j ==> streams[i].Ahead() == Rest(Body(streams[i].lines))
      invariant forall i :: 0 <= i < j ==>
        First(Body(streams[i].lines)) != Some(Malformed) && buffered[i] == First(Body(streams[i].lines))
    {
      var first := streams[j].FirstNumericRow();
      if first.Err? {
        return Err(first.reason);
      }
      buffered := buffered + [first.value];
    }
    return Ok(buffered);
  }

  function Bodies(files: seq<seq<Line>>, parts: nat): (r: seq<seq<Line>>)
    requires parts <= |files|
    ensures |r| == parts
  {
    seq(parts, j requires 0 <= j < parts => Body(files[j]))
  }

  // ---- what has been collected ----

  predicate RowSound(bodies: seq<seq<Line>>, ids: seq<nat>, r: nat)
    requires Ready(bodies, ids)
  {
    Present(bodies, r) && RowProblem(RowsAt(bodies, r), ids).None?
  }

  ghost predicate TimesRead(bodies: seq<seq<Line>>, ids: seq<nat>, step: nat, domains: seq<real>)
    requires Ready(bodies, ids)
  {
    forall i :: 0 <= i < |domains| ==>
      RowSound(bodies, ids, i * step) && domains[i] == RowsAt(bodies, i * step)[0].values[0]
  }

  ghost predicate ChannelRead(bodies: seq<seq<Line>>, ids: seq<nat>, step: nat, k: nat, column: seq<real>)
    requires Ready(bodies, ids) && k < |ids|
  {
    forall i :: 0 <= i < |column| ==>
      RowSound(bodies, ids, i * step) && column[i] == Picked(RowsAt(bodies, i * step), ids[k])
  }

  // count rows, step apart, have been collected for the time and every channel.
  ghost predicate Reading(bodies: seq<seq<Line>>, ids: seq<nat>, step: nat, count: nat, domains: seq<real>,
                          values: map<nat, seq<real>>)
    requires Ready(bodies, ids)
  {
    |domains| == count && TimesRead(bodies, ids, step, domains)
    && (forall id :: id in values <==> id in ids)
    && forall k :: 0 <= k < |ids| ==> |values[ids[k]]| == count && ChannelRead(bodies, ids, step, k, values[ids[k]])
  }

  // One more value for every selected channel.
  method AppendPicked(values: map<nat, seq<real>>, ids: seq<nat>, picked: seq<real>) returns (r: map<nat, seq<real>>)
    requires Channels(ids) && |picked| == |ids| && forall id :: id in values <==> id in ids
    ensures forall id :: id in r <==> id in ids
    ensures forall k :: 0 <= k < |ids| ==> r[ids[k]] == values[ids[k]] + [picked[k]]
  {
    r := values;
    for k := 0 to |ids|
      invariant forall id :: id in r <==> id in ids
      invariant forall i :: 0 <= i < |ids| ==> r[ids[i]] == values[ids[i]] + if i < k then [picked[i]] else []
    {
      r := r[ids[k] := r[ids[k]] + [picked[k]]];
    }
  }

  lemma {:induction false} TimesGrow(bodies: seq<seq<Line>>, ids: seq<nat>, step: nat, domains: seq<real>,
          time: real, r: nat)
    requires Ready(bodies, ids) && TimesRead(bodies, ids, step, domains) && r == |domains| * step
    requires RowSound(bodies, ids, r) && time == RowsAt(bodies, r)[0].values[0]
    ensures TimesRead(bodies, ids, step, domains + [time])
  {
  }

  lemma {:induction false} ChannelGrows(bodies: seq<seq<Line>>, ids: seq<nat>, step: nat, k: nat, column: seq<real>,
          x: real, r: nat)
    requires Ready(bodies, ids) && k < |ids| && ChannelRead(bodies, ids, step, k, column) && r == |column| * step
    requires RowSound(bodies, ids, r) && x == Picked(RowsAt(bodies, r), ids[k])
    ensures ChannelRead(bodies, ids, step, k, column + [x])
  {
  }

  lemma {:induction false} ReadingGrows(bodies: seq<seq<Line>>, ids: seq<nat>, step: nat, domains: seq<real>,
                     values: map<nat, seq<real>>, time: real, picked: seq<real>, more: map<nat, seq<real>>, r: nat)
    requires Ready(bodies, ids) && Reading(bodies, ids, step, |domains|, domains, values) && |picked| == |ids|
    requires r == |domains| * step && RowSound(bodies, ids, r) && time == RowsAt(bodies, r)[0].values[0]
    requires forall k :: 0 <= k < |ids| ==> picked[k] == Picked(RowsAt(bodies, r), ids[k])
    requires forall id :: id in more <==> id in ids
    requires forall k :: 0 <= k < |ids| ==> more[ids[k]] == values[ids[k]] + [picked[k]]
    ensures Reading(bodies, ids, step, |domains| + 1, domains + [time], more)
  {
    TimesGrow(bodies, ids, step, domains, time, r);
    forall k | 0 <= k < |ids| ensures ChannelRead(bodies, ids, step, k, more[ids[k]]) {
      ChannelGrows(bodies, ids, step, k, values[ids[k]], picked[k], r);
    }
  }

  // ---- the row loop ----

  predicate SameRows(rows: seq<Option<Line>>, bodies: seq<seq<Line>>, r: nat) {
    |rows| == |bodies| && forall j :: 0 <= j < |rows| ==> rows[j] == RowOf(bodies[j], r)
  }

  function Lines(rows: seq<Option<Line>>): (r: seq<Line>)
    requires forall j :: 0 <= j < |rows| ==> rows[j].Some?
    ensures |r| == |rows|
  {
    seq(|rows|, j requires 0 <= j < |rows| => rows[j].value)
  }

  lemma {:induction false} LinesAreRows(rows: seq<Option<Line>>, bodies: seq<seq<Line>>, r: nat)
    requires SameRows(rows, bodies, r) && forall j :: 0 <= j < |rows| ==> rows[j].Some?
    ensures Present(bodies, r) && Lines(rows) == RowsAt(bodies, r)
  {
    forall j | 0 <= j < |rows| ensures r < |bodies[j]| && Lines(rows)[j] == RowsAt(bodies, r)[j] {
      assert rows[j] == RowOf(bodies[j], r);
    }
  }

  // One taken row, appended to what has been collected.
  method TakeRow(ghost bodies: seq<seq<Line>>, ghost r: nat, ghost step: nat, rows: seq<Line>, ids: seq<nat>,
                 domains: seq<real>, values: map<nat, seq<real>>)
    returns (o: Outcome<(seq<real>, map<nat, seq<real>>)>)
    requires Ready(bodies, ids) && Present(bodies, r) && rows == RowsAt(bodies, r) && r == |domains| * step
    requires Reading(bodies, ids, step, |domains|, domains, values)
    ensures o.Err? <==> RowProblem(RowsAt(bodies, r), ids).Some?
    ensures o.Err? ==> Some(o.reason) == RowProblem(RowsAt(bodies, r), ids)
    ensures o.Ok? ==> Reading(bodies, ids, step, |domains| + 1, o.value.0, o.value.1)
  {
    var parsed := ReadRow(rows, ids);
    if parsed.Err? {
      return Err(parsed.reason);
    }
    var more := AppendPicked(values, ids, parsed.value.1);
    ReadingGrows(bodies, ids, step, domains, values, parsed.value.0, parsed.value.1, more, r);
    return Ok((domains + [parsed.value.0], more));
  }

  // One turn of the row loop: lengths, then the row itself when it is taken.
  method ScanRow(ghost bodies: seq<seq<Line>>, index: nat, rows: seq<Option<Line>>, ids: seq<nat>, step: nat,
                 maximum: nat, domains: seq<real>, values: map<nat, seq<real>>)
    returns (o: Outcome<(seq<real>, map<nat, seq<real>>)>)
    requires Ready(bodies, ids) && step > 0 && SameRows(rows, bodies, index) && rows[0].Some?
    requires Reading(bodies, ids, step, Count(index, step, maximum), domains, values)
    ensures o.Err? ==> Some(o.reason) == Problem(bodies, ids, step, maximum, index)
    ensures o.Ok? ==> Problem(bodies, ids, step, maximum, index) == Problem(bodies, ids, step, maximum, index + 1)
    ensures o.Ok? ==> Reading(bodies, ids, step, Count(index + 1, step, maximum), o.value.0, o.value.1)
  {
    if exists j :: 0 <= j < |rows| && rows[j].None? {
      return Err(DifferentLengths);
    }
    LinesAreRows(rows, bodies, index);
    CountGrows(index, step, maximum);
    if index % step == 0 && |domains| < maximum {
      o := TakeRow(bodies, index, step, Lines(rows), ids, domains, values);
    } else {
      o := Ok((domains, values));
    }
  }

  lemma {:induction false} AtTheEnd(bodies: seq<seq<Line>>, rows: seq<Option<Line>>, index: nat, ids: seq<nat>,
                                    step: nat, maximum: nat)
    requires Ready(bodies, ids) && step > 0 && SameRows(rows, bodies, index) && rows[0].None?
    ensures |bodies[0]| <= index
    ensures Problem(bodies, ids, step, maximum, index)
         == if exists j :: 0 <= j < |rows| && rows[j].Some? then Some(DifferentLengths) else None
  {
    forall j | 0 <= j < |rows| ensures rows[j].Some? <==> index < |bodies[j]| {
      assert rows[j] == RowOf(bodies[j], index);
    }
  }

  lemma {:induction false} RowsRemain(bodies: seq<seq<Line>>, rows: seq<Option<Line>>, index: nat)
    requires |bodies| > 0 && SameRows(rows, bodies, index) && rows[0].Some?
    ensures index < |bodies[0]|
  {
    assert rows[0] == RowOf(bodies[0], index);
  }

  method ScanRows(streams: seq<OutFile>, ghost bodies: seq<seq<Line>>, buffered: seq<Option<Line>>, ids: seq<nat>,
                  step: nat, maximum: nat)
    returns (o: Outcome<(seq<real>, map<nat, seq<real>>)>)
    requires Ready(bodies, ids) && step > 0 && Distinct(streams)
    requires At(streams, bodies, 1) && SameRows(buffered, bodies, 0)
    modifies streams
    ensures o.Err? <==> Problem(bodies, ids, step, maximum, 0).Some?
    ensures o.Err? ==> Some(o.reason) == Problem(bodies, ids, step, maximum, 0)
    ensures o.Ok? ==> Reading(bodies, ids, step, Count(|bodies[0]|, step, maximum), o.value.0, o.value.1)
  {
    var rows, index := buffered, 0;
    ghost var problem := Problem(bodies, ids, step, maximum, 0);
    var domains: seq<real> := [];
    var values: map<nat, seq<real>> := map id | id in ids :: [];
    while rows[0].Some?
      invariant index <= |bodies[0]| && At(streams, bodies, index + 1) && SameRows(rows, bodies, index)
      invariant Problem(bodies, ids, step, maximum, index) == problem
      invariant Reading(bodies, ids, step, Count(index, step, maximum), domains, values)
      decreases |bodies[0]| - index
    {
      RowsRemain(bodies, rows, index);
      var taken := ScanRow(bodies, index, rows, ids, step, maximum, domains, values);
      if taken.Err? {
        return taken;
      }
      domains, values := taken.value.0, taken.value.1;
      index := index + 1;
      rows := NextRows(streams, bodies, index);
    }
    AtTheEnd(bodies, rows, index, ids, step, maximum);
    if exists j :: 0 <= j < |rows| && rows[j].Some? {
      return Err(DifferentLengths);
    }
    return Ok((domains, values));
  }
}
