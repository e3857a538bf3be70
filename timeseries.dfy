/**
 * The time-series pass shared by parse_path_file and parse_look_file. A raw Unity log interleaves clock
 * lines (starting with '-') with sample lines naming a tracked object ("First Person Controller" for
 * the path log, "Main Camera" for the look log) followed by ten comma-separated numbers. Every sample
 * becomes a row: its time relative to the first clock line, the numbers the log kind reports, the
 * navigation room the position falls in, a counter of room changes, and the number of items clicked or
 * placed so far, read by merging the summary log's event times into the pass.
 */
module TimeSeries {
  import opened Common
  import opened Text
  import opened Tables
  import opened Regions
  import SummaryLog

  /** Which of the two raw logs is read: the path log reports the position, the look log the rotation. */
  datatype Variant = PathLog | LookLog

  const ControllerMarker: string := "First Person Controller"
  const ControllerTestMarker: string := "First Person Controller Test"
  const CameraMarker: string := "Main Camera"

  /**
   * Where the numbers of a sample line start, or None when the line is not a sample. A path sample names
   * the controller (its test-scene variant has a longer name); a look sample names the camera.
   */
  function SampleOffset(line: string, variant: Variant): (r: Option<nat>)
    ensures variant == PathLog ==>
      (r.Some? <==> Contains(line, ControllerMarker)) &&
      (r.Some? ==> r.value == if Contains(line, ControllerTestMarker) then 29 else 24)
    ensures variant == LookLog ==> (r.Some? <==> Contains(line, CameraMarker)) && (r.Some? ==> r.value == 12)
  {
    match variant
    case PathLog =>
      if !Contains(line, ControllerMarker) then None
      else if Contains(line, ControllerTestMarker) then Some(29)
      else Some(24)
    case LookLog =>
      if Contains(line, CameraMarker) then Some(12) else None
  }

  /** A raw log line the pass can read: not empty, and a sample carries at least ten numbers. */
  predicate LogLineWellFormed(line: string, variant: Variant)
  {
    |line| > 0 &&
    (SampleOffset(line, variant).Some? ==> |Split(Drop(line, SampleOffset(line, variant).value), ',')| >= 10)
  }

  /** Every line of a raw log is readable. */
  predicate LogWellFormed(lines: seq<string>, variant: Variant)
  {
    lines == [] || (LogWellFormed(lines[..|lines| - 1], variant) && LogLineWellFormed(lines[|lines| - 1], variant))
  }

  lemma {:induction false} LogPrefixWellFormed(lines: seq<string>, variant: Variant, k: nat)
    requires LogWellFormed(lines, variant) && k <= |lines|
    ensures LogWellFormed(lines[..k], variant)
  {
    if k < |lines| {
      assert lines[..k] == lines[..|lines| - 1][..k];
      LogPrefixWellFormed(lines[..|lines| - 1], variant, k);
    } else {
      assert lines[..k] == lines;
    }
  }

  /** The ten numbers of a sample line, decoded by `floatOf`. */
  function SampleVector(line: string, offset: nat, floatOf: string -> real): (v: seq<real>)
    requires |Split(Drop(line, offset), ',')| >= 10
    ensures |v| == 10
  {
    var fields := Split(Drop(line, offset), ',');
    seq(10, k requires 0 <= k < 10 => floatOf(fields[k]))
  }

  /** The numbers a row reports: the position (x, y, z) for a path log, the rotation quaternion for a look log. */
  function Reported(v: seq<real>, variant: Variant): (r: seq<real>)
    requires |v| == 10
    ensures variant == PathLog ==> r == v[0..3]
    ensures variant == LookLog ==> r == v[3..7]
  {
    match variant
    case PathLog => v[0..3]
    case LookLog => v[3..7]
  }

  /** Python's `s[0:n]`, which stops at the end of a shorter list. */
  function Take(s: seq<real>, n: nat): (r: seq<real>)
    ensures |r| == Min(|s|, n) && r == s[..|r|]
  {
    if |s| <= n then s else s[..n]
  }

  /**
   * One output row. The distance column is left out (it is a function of `position` and
   * `previousPosition`), and so are the constant subject and trial columns and the look log's Euler angles.
   */
  datatype Row = Row(time: int, reported: seq<real>, position: seq<real>, previousPosition: seq<real>,
                     roomByOrder: nat, roomByColor: string, itemsClicked: int, timeSinceLast: int)

  /** The change a summary event makes to the item counter under a test schema: "placed" first, then "picked". */
  function TestDelta(eventType: string): (d: int)
    ensures d == 1 <==> Contains(Lower(eventType), "placed")
    ensures d == -1 <==> !Contains(Lower(eventType), "placed") && Contains(Lower(eventType), "picked")
  {
    if Contains(Lower(eventType), "placed") then 1
    else if Contains(Lower(eventType), "picked") then -1
    else 0
  }

  /** The change consuming summary event `c` makes to the item counter. */
  function Delta(schema: SummaryLog.Schema, eventTypes: seq<string>, c: nat): int
    requires schema == SummaryLog.TestSchema ==> c < |eventTypes|
  {
    if schema == SummaryLog.TestSchema then TestDelta(eventTypes[c])
    else if schema == SummaryLog.StudyPractice then 1
    else 0
  }

  /** The item counter after the first `c` summary events have been consumed. */
  function Net(schema: SummaryLog.Schema, eventTypes: seq<string>, c: nat): int
    requires schema == SummaryLog.TestSchema ==> c <= |eventTypes|
  {
    if c == 0 then 0 else Net(schema, eventTypes, c - 1) + Delta(schema, eventTypes, c - 1)
  }

  /**
   * The counter after `c` events: `c` clicks for a study/practice log, none for an unknown log, and for a
   * test log the placements minus the pick-ups, so never more than `c` away from 0.
   */
  lemma {:induction false} NetBySchema(schema: SummaryLog.Schema, eventTypes: seq<string>, c: nat)
    requires schema == SummaryLog.TestSchema ==> c <= |eventTypes|
    ensures schema == SummaryLog.StudyPractice ==> Net(schema, eventTypes, c) == c
    ensures schema == SummaryLog.Unknown ==> Net(schema, eventTypes, c) == 0
    ensures -(c as int) <= Net(schema, eventTypes, c) <= c
  {
    if c > 0 {
      NetBySchema(schema, eventTypes, c - 1);
      assert -1 <= Delta(schema, eventTypes, c - 1) <= 1;
    }
  }

  /**
   * The pass's loop state: the clock origin t0 (0 while unset), the latest clock value tn, the previous
   * sample's time and vector ([] before the first sample), the sample count, the summary cursor, the
   * item counter, the previous room (None before the first sample), the room-change counter and the rows.
   */
  datatype PassState = PassState(t0: int, tn: int, prevT: int, prevV: seq<real>, count: nat, cursor: nat,
                                 itemsClicked: int, prevColor: Option<string>, contextNumber: nat, rows: seq<Row>)

  const Start := PassState(0, 0, 0, [], 0, 0, 0, None, 0, [])

  /** The clock part of a line: the first clock line sets t0, later ones set tn. */
  function Clock(st: PassState, line: string, clockOf: string -> int): (next: PassState)
    requires |line| > 0
    ensures next.rows == st.rows && next.count == st.count && next.cursor == st.cursor
    ensures next.itemsClicked == st.itemsClicked && next.prevT == st.prevT && next.prevV == st.prevV
    ensures next.prevColor == st.prevColor && next.contextNumber == st.contextNumber
  {
    if st.t0 == 0 && line[0] == '-' then st.(t0 := clockOf(SummaryLog.ClockText(line)))
    else if st.t0 != 0 && line[0] == '-' then st.(tn := clockOf(SummaryLog.ClockText(line)))
    else st
  }

  /** The summary cursor takes the next event when the sample is at or after the event's time. */
  predicate Consumes(st: PassState, t: int, summary: SummaryLog.Summary)
  {
    st.cursor < |summary.times| && t >= summary.times[st.cursor]
  }

  /** The time of the sample about to be read: 0 for the first, tn - t0 afterwards. */
  function SampleTime(st: PassState): int
  {
    if st.count == 0 then 0 else st.tn - st.t0
  }

  /** The sample part of a line: one row, or an IndexError when a test summary has fewer events than times. */
  function Sample(st: PassState, v: seq<real>, variant: Variant, summary: SummaryLog.Summary): Result<PassState>
    requires |v| == 10
  {
    var t := SampleTime(st);
    var prevT := if st.count == 0 then 0 else st.prevT;
    var count := if st.count == 0 then st.count + 1 else st.count;
    var prevV := if st.prevV == [] then v else st.prevV;
    var consume := Consumes(st, t, summary);
    if consume && summary.schema == SummaryLog.TestSchema && st.cursor >= |summary.eventTypes| then Err(IndexError)
    else
      var items := if consume then st.itemsClicked + Delta(summary.schema, summary.eventTypes, st.cursor)
                   else st.itemsClicked;
      var cursor := if consume then st.cursor + 1 else st.cursor;
      var color := NavRoomByLocation(v[0], v[2]).1;
      var previous := if st.prevColor.None? then color else st.prevColor.value;
      var order := if previous != color then st.contextNumber + 1 else st.contextNumber;
      var row := Row(t, Reported(v, variant), v[0..3], Take(prevV, 3), order, color, items, t - prevT);
      Ok(st.(prevT := t, prevV := v, count := count, cursor := cursor, itemsClicked := items,
             prevColor := Some(color), contextNumber := order, rows := st.rows + [row]))
  }

  /** One raw log line. */
  function Step(st: PassState, line: string, variant: Variant, summary: SummaryLog.Summary, clockOf: string -> int,
                floatOf: string -> real): Result<PassState>
    requires LogLineWellFormed(line, variant)
  {
    var clocked := Clock(st, line, clockOf);
    match SampleOffset(line, variant)
    case None => Ok(clocked)
    case Some(offset) => Sample(clocked, SampleVector(line, offset, floatOf), variant, summary)
  }

  /** The loop over the raw log's lines; an IndexError ends it. */
  function Run(lines: seq<string>, variant: Variant, summary: SummaryLog.Summary, clockOf: string -> int,
               floatOf: string -> real): Result<PassState>
    requires LogWellFormed(lines, variant)
  {
    if lines == [] then Ok(Start)
    else
      match Run(lines[..|lines| - 1], variant, summary, clockOf, floatOf)
      case Err(f) => Err(f)
      case Ok(st) => Step(st, lines[|lines| - 1], variant, summary, clockOf, floatOf)
  }

  /** parse_path_file / parse_look_file, as a function of the raw log and the parsed summary log. */
  function ParseTimeSeries(lines: seq<string>, variant: Variant, summary: SummaryLog.Summary, clockOf: string -> int,
                           floatOf: string -> real): Result<seq<Row>>
    requires LogWellFormed(lines, variant)
  {
    match Run(lines, variant, summary, clockOf, floatOf)
    case Err(f) => Err(f)
    case Ok(st) => Ok(st.rows)
  }

  /** The body of the pass's loop for one line: the clock update, then the sample if the line is one. */
  method ProcessLine(st: PassState, line: string, variant: Variant, summary: SummaryLog.Summary, clockOf: string -> int,
                     floatOf: string -> real) returns (r: Result<PassState>)
    requires LogLineWellFormed(line, variant)
    ensures r == Step(st, line, variant, summary, clockOf, floatOf)
  {
    var t0, tn := st.t0, st.tn;
    if t0 == 0 && line[0] == '-' {
      t0 := clockOf(SummaryLog.ClockText(line));
    } else if t0 != 0 && line[0] == '-' {
      tn := clockOf(SummaryLog.ClockText(line));
    }
    var clocked := st.(t0 := t0, tn := tn);
    var offset := SampleOffset(line, variant);
    if offset.None? {
      return Ok(clocked);
    }
    var v := SampleVector(line, offset.value, floatOf);
    r := ProcessSample(clocked, v, variant, summary);
  }

  /** The item counter after consuming summary event `cursor`. */
  method CountEvent(schema: SummaryLog.Schema, eventTypes: seq<string>, cursor: nat, itemsClicked: int)
    returns (items: int)
    requires schema == SummaryLog.TestSchema ==> cursor < |eventTypes|
    ensures items == itemsClicked + Delta(schema, eventTypes, cursor)
  {
    items := itemsClicked;
    if schema == SummaryLog.TestSchema {
      var eventType := Lower(eventTypes[cursor]);
      if Contains(eventType, "placed") {
        items := items + 1;
      } else if Contains(eventType, "picked") {
        items := items - 1;
      }
    } else if schema == SummaryLog.StudyPractice {
      items := items + 1;
    }
  }

  /** The sample part of the loop body, with the source's local variables. */
  method ProcessSample(st: PassState, v: seq<real>, variant: Variant, summary: SummaryLog.Summary)
    returns (r: Result<PassState>)
    requires |v| == 10
    ensures r == Sample(st, v, variant, summary)
  {
    var prevT, prevV, count := st.prevT, st.prevV, st.count;
    var cursor, itemsClicked, previousColor, contextNumber := st.cursor, st.itemsClicked, st.prevColor, st.contextNumber;
    var t := st.tn - st.t0;
    if count == 0 {
      t := 0;
      prevT := 0;
      count := count + 1;
    }
    var timeSinceLast := t - prevT;
    if prevV == [] {
      prevV := v;
    }
    assert t == SampleTime(st);
    ghost var consume := Consumes(st, t, summary);
    if cursor < |summary.times| && t >= summary.times[cursor] {
      if summary.schema == SummaryLog.TestSchema && cursor >= |summary.eventTypes| {
        return Err(IndexError);
      }
      itemsClicked := CountEvent(summary.schema, summary.eventTypes, cursor, itemsClicked);
      cursor := cursor + 1;
    }
    assert itemsClicked == if consume then st.itemsClicked + Delta(summary.schema, summary.eventTypes, st.cursor)
                           else st.itemsClicked;
    var roomByColor := NavRoomByLocation(v[0], v[2]).1;
    previousColor, contextNumber := NextContext(previousColor, contextNumber, roomByColor);
    var row := Row(t, Reported(v, variant), v[0..3], Take(prevV, 3), contextNumber, roomByColor, itemsClicked,
                   timeSinceLast);
    r := Ok(PassState(st.t0, st.tn, t, v, count, cursor, itemsClicked, previousColor, contextNumber, st.rows + [row]));
  }

  /** The room-change counter of one sample: it goes up when the room differs from the previous sample's. */
  method NextContext(previousColor: Option<string>, contextNumber: nat, roomByColor: string)
    returns (previousColor': Option<string>, contextNumber': nat)
    ensures previousColor' == Some(roomByColor)
    ensures contextNumber' == if previousColor.Some? && previousColor.value != roomByColor then contextNumber + 1
                              else contextNumber
  {
    previousColor', contextNumber' := previousColor, contextNumber;
    if previousColor'.None? {
      previousColor' := Some(roomByColor);
    }
    if previousColor'.value != roomByColor {
      contextNumber' := contextNumber' + 1;
    }
    previousColor' := Some(roomByColor);
  }

  /** The pass itself: one loop over the raw log's lines. */
  method ParseTimeSeriesFile(lines: seq<string>, variant: Variant, summary: SummaryLog.Summary, clockOf: string -> int,
                             floatOf: string -> real) returns (r: Result<seq<Row>>)
    requires LogWellFormed(lines, variant)
    ensures r == ParseTimeSeries(lines, variant, summary, clockOf, floatOf)
  {
    var st := Start;
    for i := 0 to |lines|
      invariant LogWellFormed(lines[..i], variant)
      invariant Run(lines[..i], variant, summary, clockOf, floatOf) == Ok(st)
    {
      assert lines[..i + 1][..i] == lines[..i];
      LogPrefixWellFormed(lines, variant, i + 1);
      var next := ProcessLine(st, lines[i], variant, summary, clockOf, floatOf);
      if next.Err? {
        assert Run(lines[..i + 1], variant, summary, clockOf, floatOf).Err?;
        RunStaysFailed(lines, variant, summary, clockOf, floatOf, i + 1);
        return Err(next.fault);
      }
      st := next.value;
    }
    assert lines[..|lines|] == lines;
    r := Ok(st.rows);
  }

  /** Once the pass has failed on a prefix it fails on the whole log, with the same fault. */
  lemma {:induction false} RunStaysFailed(lines: seq<string>, variant: Variant, summary: SummaryLog.Summary, clockOf: string -> int,
                                          floatOf: string -> real, k: nat)
    requires LogWellFormed(lines, variant) && k <= |lines|
    requires LogWellFormed(lines[..k], variant) && Run(lines[..k], variant, summary, clockOf, floatOf).Err?
    ensures Run(lines, variant, summary, clockOf, floatOf) == Run(lines[..k], variant, summary, clockOf, floatOf)
  {
    if k < |lines| {
      var prefix := lines[..|lines| - 1];
      assert prefix[..k] == lines[..k];
      LogPrefixWellFormed(lines, variant, |lines| - 1);
      RunStaysFailed(prefix, variant, summary, clockOf, floatOf, k);
    } else {
      assert lines[..k] == lines;
    }
  }

  /**
   * What the rows of a pass satisfy: the first row has time 0, no elapsed time, room order 0 and itself
   * as previous position; every row's colour is the navigation room of its (x, z); and each later row's
   * elapsed time, previous position and room order follow from the row before it (the order goes up by
   * one exactly when the colour changes).
   */
  predicate RowsChained(rows: seq<Row>)
  {
    (|rows| > 0 ==>
      rows[0].time == 0 && rows[0].timeSinceLast == 0 && rows[0].roomByOrder == 0 &&
      rows[0].previousPosition == rows[0].position) &&
    (forall k :: 0 <= k < |rows| ==>
      |rows[k].position| == 3 && rows[k].roomByColor == NavRoomByLocation(rows[k].position[0], rows[k].position[2]).1) &&
    (forall k :: 0 < k < |rows| ==>
      rows[k].timeSinceLast == rows[k].time - rows[k - 1].time &&
      rows[k].previousPosition == rows[k - 1].position &&
      rows[k].roomByOrder == rows[k - 1].roomByOrder + (if rows[k].roomByColor == rows[k - 1].roomByColor then 0 else 1))
  }

  /**
   * The loop state agrees with the rows written so far, and the summary cursor has consumed no more
   * events than there are times or samples; the item counter is the net effect of the consumed events.
   */
  predicate Tracks(st: PassState, summary: SummaryLog.Summary)
  {
    (st.rows == [] <==> st.count == 0) &&
    (st.rows == [] ==> st.prevV == [] && st.prevColor == None && st.contextNumber == 0 && st.cursor == 0) &&
    (st.rows != [] ==>
      |st.prevV| == 10 && st.rows[|st.rows| - 1].time == st.prevT &&
      st.rows[|st.rows| - 1].position == st.prevV[0..3] && st.prevColor == Some(st.rows[|st.rows| - 1].roomByColor) &&
      st.rows[|st.rows| - 1].roomByOrder == st.contextNumber && st.rows[|st.rows| - 1].itemsClicked == st.itemsClicked) &&
    st.cursor <= |st.rows| && st.cursor <= |summary.times| &&
    (summary.schema == SummaryLog.TestSchema ==> st.cursor <= |summary.eventTypes|) &&
    st.itemsClicked == Net(summary.schema, summary.eventTypes, st.cursor)
  }

  /**
   * One sample appends exactly one row and moves the cursor by at most one event, and only when the
   * sample's time has reached that event's time; the state keeps tracking the rows.
   */
  lemma SampleKeeps(st: PassState, v: seq<real>, variant: Variant, summary: SummaryLog.Summary)
    requires |v| == 10 && Tracks(st, summary) && RowsChained(st.rows)
    requires Sample(st, v, variant, summary).Ok?
    ensures var next := Sample(st, v, variant, summary).value;
      Tracks(next, summary) && RowsChained(next.rows) &&
      |next.rows| == |st.rows| + 1 && next.rows[..|st.rows|] == st.rows &&
      (next.cursor == st.cursor || (next.cursor == st.cursor + 1 && Consumes(st, SampleTime(st), summary)))
  {
    SampleTracks(st, v, variant, summary);
    SampleChains(st, v, variant, summary);
  }

  lemma SampleTracks(st: PassState, v: seq<real>, variant: Variant, summary: SummaryLog.Summary)
    requires |v| == 10 && Tracks(st, summary)
    requires Sample(st, v, variant, summary).Ok?
    ensures var next := Sample(st, v, variant, summary).value;
      Tracks(next, summary) &&
      (next.cursor == st.cursor || (next.cursor == st.cursor + 1 && Consumes(st, SampleTime(st), summary)))
  {
    var next := Sample(st, v, variant, summary).value;
    if Consumes(st, SampleTime(st), summary) {
      assert next.itemsClicked == Net(summary.schema, summary.eventTypes, st.cursor + 1);
    }
  }

  lemma SampleChains(st: PassState, v: seq<real>, variant: Variant, summary: SummaryLog.Summary)
    requires |v| == 10 && Tracks(st, summary) && RowsChained(st.rows)
    requires Sample(st, v, variant, summary).Ok?
    ensures var next := Sample(st, v, variant, summary).value;
      RowsChained(next.rows) && |next.rows| == |st.rows| + 1 && next.rows[..|st.rows|] == st.rows
  {
    var next := Sample(st, v, variant, summary).value;
    var row := next.rows[|st.rows|];
    assert next.rows == st.rows + [row];
    ChainExtends(st.rows, row);
  }

  /** A row that continues the last one keeps the rows chained. */
  lemma ChainExtends(rows: seq<Row>, row: Row)
    requires RowsChained(rows)
    requires |row.position| == 3 && row.roomByColor == NavRoomByLocation(row.position[0], row.position[2]).1
    requires |rows| == 0 ==>
      row.time == 0 && row.timeSinceLast == 0 && row.roomByOrder == 0 && row.previousPosition == row.position
    requires |rows| > 0 ==>
      var last := rows[|rows| - 1];
      row.timeSinceLast == row.time - last.time && row.previousPosition == last.position &&
      row.roomByOrder == last.roomByOrder + (if row.roomByColor == last.roomByColor then 0 else 1)
    ensures RowsChained(rows + [row])
  {
    var next := rows + [row];
    forall k | 0 < k < |next|
      ensures next[k].timeSinceLast == next[k].time - next[k - 1].time &&
        next[k].previousPosition == next[k - 1].position &&
        next[k].roomByOrder == next[k - 1].roomByOrder + (if next[k].roomByColor == next[k - 1].roomByColor then 0 else 1)
    {
      if k < |rows| {
        assert next[k] == rows[k] && next[k - 1] == rows[k - 1];
      }
    }
  }

  /** One raw log line keeps the state tracking the rows; only a sample line writes a row or moves the cursor. */
  lemma StepKeeps(st: PassState, line: string, variant: Variant, summary: SummaryLog.Summary, clockOf: string -> int,
                  floatOf: string -> real)
    requires LogLineWellFormed(line, variant) && Tracks(st, summary) && RowsChained(st.rows)
    requires Step(st, line, variant, summary, clockOf, floatOf).Ok?
    ensures var next := Step(st, line, variant, summary, clockOf, floatOf).value;
      Tracks(next, summary) && RowsChained(next.rows) &&
      (SampleOffset(line, variant).None? ==> next.rows == st.rows && next.cursor == st.cursor) &&
      (SampleOffset(line, variant).Some? ==> |next.rows| == |st.rows| + 1 && next.rows[..|st.rows|] == st.rows) &&
      st.cursor <= next.cursor <= st.cursor + 1
  {
    var clocked := Clock(st, line, clockOf);
    if SampleOffset(line, variant).Some? {
      SampleKeeps(clocked, SampleVector(line, SampleOffset(line, variant).value, floatOf), variant, summary);
    }
  }

  /** A line ends the pass with an IndexError exactly when it is a sample that reaches a test event beyond the event list. */
  lemma StepFails(st: PassState, line: string, variant: Variant, summary: SummaryLog.Summary, clockOf: string -> int,
                  floatOf: string -> real)
    requires LogLineWellFormed(line, variant)
    ensures var clocked := Clock(st, line, clockOf);
      Step(st, line, variant, summary, clockOf, floatOf).Err? <==>
        SampleOffset(line, variant).Some? && Consumes(clocked, SampleTime(clocked), summary) &&
        summary.schema == SummaryLog.TestSchema && clocked.cursor >= |summary.eventTypes|
    ensures Step(st, line, variant, summary, clockOf, floatOf).Err? ==>
      Step(st, line, variant, summary, clockOf, floatOf).fault == IndexError
  {
  }

  /** Every state the pass reaches tracks its rows. */
  lemma {:induction false} RunKeeps(lines: seq<string>, variant: Variant, summary: SummaryLog.Summary,
                                    clockOf: string -> int, floatOf: string -> real)
    requires LogWellFormed(lines, variant)
    requires Run(lines, variant, summary, clockOf, floatOf).Ok?
    ensures var st := Run(lines, variant, summary, clockOf, floatOf).value;
      Tracks(st, summary) && RowsChained(st.rows)
  {
    if lines != [] {
      var prefix := lines[..|lines| - 1];
      RunKeeps(prefix, variant, summary, clockOf, floatOf);
      StepKeeps(Run(prefix, variant, summary, clockOf, floatOf).value, lines[|lines| - 1], variant, summary, clockOf, floatOf);
    }
  }

  /**
   * The rows of a completed pass: chained as RowsChained says, and the last row's item counter is the net
   * effect of the first `c` summary events for some `c` no larger than the number of rows or of summary
   * times: `c` itself for a study/practice log, 0 for an unknown one. Row by row, there is one row per
   * sample line, in order, holding that line's position (x, y, z) and reported numbers; each row consumes the next summary event exactly when its time has reached
   * it, and carries the net effect of the events consumed so far; and each row after the first is timed
   * by the last clock value read up to its line once the origin was fixed, minus that origin.
   */
  lemma TimeSeriesRows(lines: seq<string>, variant: Variant, summary: SummaryLog.Summary, clockOf: string -> int,
                       floatOf: string -> real)
    requires LogWellFormed(lines, variant)
    requires ParseTimeSeries(lines, variant, summary, clockOf, floatOf).Ok?
    ensures var rows := ParseTimeSeries(lines, variant, summary, clockOf, floatOf).value;
      RowsChained(rows) &&
      (|rows| > 0 ==>
        exists c: nat ::
          c <= |rows| && c <= |summary.times| &&
          (summary.schema == SummaryLog.TestSchema ==> c <= |summary.eventTypes|) &&
          rows[|rows| - 1].itemsClicked == Net(summary.schema, summary.eventTypes, c) &&
          (summary.schema == SummaryLog.StudyPractice ==> rows[|rows| - 1].itemsClicked == c) &&
          (summary.schema == SummaryLog.Unknown ==> rows[|rows| - 1].itemsClicked == 0))
    ensures var rows := ParseTimeSeries(lines, variant, summary, clockOf, floatOf).value;
      exists ps: seq<nat>, cs: seq<nat> ::
        SamplePositions(lines, variant, ps) && CountTrace(rows, cs, summary) && TimeTrace(lines, clockOf, rows, ps) &&
        ValueTrace(lines, variant, floatOf, rows, ps)
  {
    RunKeeps(lines, variant, summary, clockOf, floatOf);
    var st := Run(lines, variant, summary, clockOf, floatOf).value;
    NetBySchema(summary.schema, summary.eventTypes, st.cursor);
    var ps, cs := RunTrace(lines, variant, summary, clockOf, floatOf);
    assert SamplePositions(lines, variant, ps) && CountTrace(st.rows, cs, summary) && TimeTrace(lines, clockOf, st.rows, ps) &&
      ValueTrace(lines, variant, floatOf, st.rows, ps);
  }

  /**
   * The clock value the pass holds as tn after the clock lines `cs`: the last one, provided an earlier
   * clock line had already fixed the origin; 0 otherwise (a clock line read while t0 is unset only tries
   * to set t0).
   */
  function Latest(cs: seq<int>): int
  {
    if cs == [] || SummaryLog.Origin(cs[..|cs| - 1]) == 0 then 0 else cs[|cs| - 1]
  }

  /** While no origin is fixed, tn has never been set. */
  lemma LatestUnset(cs: seq<int>)
    requires SummaryLog.Origin(cs) == 0
    ensures Latest(cs) == 0
  {
    if cs != [] {
      assert cs == cs[..|cs| - 1] + [cs[|cs| - 1]];
    }
  }

  /** The pass's t0 and tn are the origin and the latest clock value of the clock lines read so far. */
  lemma {:induction false} RunClock(lines: seq<string>, variant: Variant, summary: SummaryLog.Summary,
                                    clockOf: string -> int, floatOf: string -> real)
    requires LogWellFormed(lines, variant)
    requires Run(lines, variant, summary, clockOf, floatOf).Ok?
    ensures var st := Run(lines, variant, summary, clockOf, floatOf).value;
      var cs := SummaryLog.ClockValues(lines, clockOf);
      st.t0 == SummaryLog.Origin(cs) && st.tn == Latest(cs)
  {
    if lines != [] {
      var prefix := lines[..|lines| - 1];
      var line := lines[|lines| - 1];
      RunClock(prefix, variant, summary, clockOf, floatOf);
      var cs := SummaryLog.ClockValues(prefix, clockOf);
      if SummaryLog.Origin(cs) == 0 {
        LatestUnset(cs);
      }
      if SummaryLog.IsClockLine(line) {
        var c := clockOf(SummaryLog.ClockText(line));
        assert SummaryLog.ClockValues(lines, clockOf) == cs + [c];
        assert (cs + [c])[..|cs|] == cs;
      }
    }
  }

  /** Whether the pass writes a row for `line`. */
  predicate IsSampleLine(line: string, variant: Variant)
  {
    SampleOffset(line, variant).Some?
  }

  /**
   * `ps` lists, in increasing order, exactly the positions in `lines` of the sample lines: the lines the
   * pass writes rows for.
   */
  predicate SamplePositions(lines: seq<string>, variant: Variant, ps: seq<nat>)
  {
    (forall k :: 0 <= k < |ps| ==> ps[k] < |lines| && IsSampleLine(lines[ps[k]], variant)) &&
    (forall i, j :: 0 <= i < j < |ps| ==> ps[i] < ps[j]) &&
    (forall i :: 0 <= i < |lines| && IsSampleLine(lines[i], variant) ==> i in ps)
  }

  /** The summary cursor before row `k` is written, given the cursor after each row. */
  function CursorBefore(cs: seq<nat>, k: nat): nat
    requires k <= |cs|
  {
    if k == 0 then 0 else cs[k - 1]
  }

  /**
   * A row written with the summary cursor at `before` leaves it at `after`: it takes the next event
   * exactly when there is one and the row's time has reached its time, and the row's item counter is the
   * net effect of the events consumed so far.
   */
  predicate CountStep(row: Row, before: nat, after: nat, summary: SummaryLog.Summary)
  {
    after == before + (if before < |summary.times| && row.time >= summary.times[before] then 1 else 0) &&
    (summary.schema == SummaryLog.TestSchema ==> after <= |summary.eventTypes|) &&
    row.itemsClicked == Net(summary.schema, summary.eventTypes, after)
  }

  /** `cs[k]` is the number of summary events consumed once row `k` is written. */
  predicate CountTrace(rows: seq<Row>, cs: seq<nat>, summary: SummaryLog.Summary)
  {
    |cs| == |rows| &&
    forall k {:trigger rows[k]} :: 0 <= k < |cs| ==> CountStep(rows[k], CursorBefore(cs, k), cs[k], summary)
  }

  /** The time `t` is the one the clock lines up to and including line `p` give: the latest value minus the origin. */
  predicate ClockedBy(t: int, lines: seq<string>, p: nat, clockOf: string -> int)
  {
    p < |lines| &&
    var cs := SummaryLog.ClockValues(lines[..p + 1], clockOf);
    t == Latest(cs) - SummaryLog.Origin(cs)
  }

  /** A row timed by the clock lines up to and including line `p`. */
  predicate TimedBy(row: Row, lines: seq<string>, p: nat, clockOf: string -> int)
  {
    ClockedBy(row.time, lines, p, clockOf)
  }

  /** Every row after the first is timed by the clock lines up to and including its sample line. */
  predicate TimeTrace(lines: seq<string>, clockOf: string -> int, rows: seq<Row>, ps: seq<nat>)
  {
    |ps| == |rows| &&
    forall k :: 0 < k < |ps| ==> TimedBy(rows[k], lines, ps[k], clockOf)
  }

  /**
   * A row read from sample line `line`: its position is the line's first three numbers (x, y, z) and it
   * reports the numbers the log kind reports.
   */
  predicate ReadFrom(row: Row, line: string, variant: Variant, floatOf: string -> real)
  {
    LogLineWellFormed(line, variant) && IsSampleLine(line, variant) &&
    var v := SampleVector(line, SampleOffset(line, variant).value, floatOf);
    row.position == v[0..3] && row.reported == Reported(v, variant)
  }

  /** Every row is read from the sample line at its position. */
  predicate ValueTrace(lines: seq<string>, variant: Variant, floatOf: string -> real, rows: seq<Row>, ps: seq<nat>)
  {
    |ps| == |rows| &&
    forall k {:trigger rows[k]} :: 0 <= k < |ps| ==> ps[k] < |lines| && ReadFrom(rows[k], lines[ps[k]], variant, floatOf)
  }

  /** The per-row cursors start at 0 or 1, move by at most one event per row and never pass the summary times. */
  lemma {:induction false} CountTraceBounds(rows: seq<Row>, cs: seq<nat>, summary: SummaryLog.Summary, k: nat)
    requires CountTrace(rows, cs, summary) && k < |cs|
    ensures k == 0 ==> cs[0] <= 1
    ensures k > 0 ==> cs[k - 1] <= cs[k] <= cs[k - 1] + 1
    ensures cs[k] <= |summary.times| && cs[k] <= k + 1
  {
    assert CountStep(rows[k], CursorBefore(cs, k), cs[k], summary);
    if k > 0 {
      CountTraceBounds(rows, cs, summary, k - 1);
    }
  }

  /** A line that is not a sample keeps the positions. */
  lemma PositionsKeep(prefix: seq<string>, line: string, variant: Variant, ps: seq<nat>)
    requires SamplePositions(prefix, variant, ps) && !IsSampleLine(line, variant)
    ensures SamplePositions(prefix + [line], variant, ps)
  {
    var lines := prefix + [line];
    forall k | 0 <= k < |ps|
      ensures lines[ps[k]] == prefix[ps[k]]
    {
    }
    forall i | 0 <= i < |lines| && IsSampleLine(lines[i], variant)
      ensures i in ps
    {
      assert lines[i] == prefix[i];
    }
  }

  /** A sample line appended to the log extends the positions by its own index. */
  lemma PositionsExtend(prefix: seq<string>, line: string, variant: Variant, ps: seq<nat>)
    requires SamplePositions(prefix, variant, ps) && IsSampleLine(line, variant)
    ensures SamplePositions(prefix + [line], variant, ps + [|prefix|])
  {
    var lines, ps' := prefix + [line], ps + [|prefix|];
    forall k | 0 <= k < |ps'|
      ensures ps'[k] < |lines| && IsSampleLine(lines[ps'[k]], variant)
    {
      if k < |ps| {
        assert ps'[k] == ps[k] && lines[ps[k]] == prefix[ps[k]];
      }
    }
    forall i | 0 <= i < |lines| && IsSampleLine(lines[i], variant)
      ensures i in ps'
    {
      if i < |prefix| {
        assert lines[i] == prefix[i] && i in ps;
      }
    }
  }

  /** Appending a line keeps the rows already read from their lines. */
  lemma ValueKeeps(prefix: seq<string>, line: string, variant: Variant, floatOf: string -> real, rows: seq<Row>,
                   ps: seq<nat>)
    requires ValueTrace(prefix, variant, floatOf, rows, ps)
    ensures ValueTrace(prefix + [line], variant, floatOf, rows, ps)
  {
    var lines := prefix + [line];
    forall k | 0 <= k < |ps|
      ensures ps[k] < |lines| && ReadFrom(rows[k], lines[ps[k]], variant, floatOf)
    {
      assert ReadFrom(rows[k], prefix[ps[k]], variant, floatOf);
      assert lines[ps[k]] == prefix[ps[k]];
    }
  }

  /** A row read from the appended line extends the value trace. */
  lemma ValueExtends(prefix: seq<string>, line: string, variant: Variant, floatOf: string -> real, rows: seq<Row>,
                     ps: seq<nat>, row: Row)
    requires ValueTrace(prefix, variant, floatOf, rows, ps) && ReadFrom(row, line, variant, floatOf)
    ensures ValueTrace(prefix + [line], variant, floatOf, rows + [row], ps + [|prefix|])
  {
    ValueKeeps(prefix, line, variant, floatOf, rows, ps);
    var lines, ps', rows' := prefix + [line], ps + [|prefix|], rows + [row];
    forall k | 0 <= k < |ps'|
      ensures ps'[k] < |lines| && ReadFrom(rows'[k], lines[ps'[k]], variant, floatOf)
    {
      if k < |ps| {
        assert ps'[k] == ps[k] && rows'[k] == rows[k];
        assert ReadFrom(rows[k], lines[ps[k]], variant, floatOf);
      } else {
        assert lines[ps'[k]] == line && rows'[k] == row;
      }
    }
  }

  /** A new row whose cursor moves as a sample moves it extends the count trace. */
  lemma CountExtends(rows: seq<Row>, cs: seq<nat>, summary: SummaryLog.Summary, row: Row, c: nat)
    requires CountTrace(rows, cs, summary) && CountStep(row, CursorBefore(cs, |cs|), c, summary)
    ensures CountTrace(rows + [row], cs + [c], summary)
  {
    var rows', cs' := rows + [row], cs + [c];
    forall k | 0 <= k < |cs'|
      ensures CountStep(rows'[k], CursorBefore(cs', k), cs'[k], summary)
    {
      assert CursorBefore(cs', k) == CursorBefore(cs, k);
      if k < |cs| {
        assert cs'[k] == cs[k] && rows'[k] == rows[k];
      }
    }
  }

  /** Appending a line keeps the times of the rows already written. */
  lemma TimeKeeps(prefix: seq<string>, line: string, clockOf: string -> int, rows: seq<Row>, ps: seq<nat>)
    requires TimeTrace(prefix, clockOf, rows, ps)
    ensures TimeTrace(prefix + [line], clockOf, rows, ps)
  {
    var lines := prefix + [line];
    forall k | 0 < k < |ps|
      ensures TimedBy(rows[k], lines, ps[k], clockOf)
    {
      assert lines[..ps[k] + 1] == prefix[..ps[k] + 1];
    }
  }

  /** A row written for the appended line, and timed by the whole log so far, extends the time trace. */
  lemma TimeExtends(prefix: seq<string>, line: string, clockOf: string -> int, rows: seq<Row>, ps: seq<nat>, row: Row)
    requires TimeTrace(prefix, clockOf, rows, ps)
    requires |rows| > 0 ==> TimedBy(row, prefix + [line], |prefix|, clockOf)
    ensures TimeTrace(prefix + [line], clockOf, rows + [row], ps + [|prefix|])
  {
    TimeKeeps(prefix, line, clockOf, rows, ps);
    var ps', rows' := ps + [|prefix|], rows + [row];
    forall k | 0 < k < |ps'|
      ensures TimedBy(rows'[k], prefix + [line], ps'[k], clockOf)
    {
      if k < |ps| {
        assert ps'[k] == ps[k] && rows'[k] == rows[k];
      }
    }
  }

  /**
   * A sample line appends one row, read from the line, that moves the cursor as CountStep says and,
   * unless it is the first row, is timed by the clocks the state holds after the line.
   */
  lemma StepRow(st: PassState, line: string, variant: Variant, summary: SummaryLog.Summary, clockOf: string -> int,
                floatOf: string -> real)
    requires LogLineWellFormed(line, variant) && Tracks(st, summary) && RowsChained(st.rows)
    requires SampleOffset(line, variant).Some? && Step(st, line, variant, summary, clockOf, floatOf).Ok?
    ensures var next := Step(st, line, variant, summary, clockOf, floatOf).value;
      |next.rows| == |st.rows| + 1 && next.rows == st.rows + [next.rows[|st.rows|]] &&
      CountStep(next.rows[|st.rows|], st.cursor, next.cursor, summary) &&
      ReadFrom(next.rows[|st.rows|], line, variant, floatOf) &&
      (|st.rows| > 0 ==> next.rows[|st.rows|].time == next.tn - next.t0)
  {
    StepKeeps(st, line, variant, summary, clockOf, floatOf);
    var next := Step(st, line, variant, summary, clockOf, floatOf).value;
    var row := next.rows[|st.rows|];
    assert next.rows == st.rows + [row];
  }

  /** The clocks of the whole log so far give the time at its last line. */
  lemma ClockedByWholeLog(lines: seq<string>, clockOf: string -> int)
    requires |lines| > 0
    ensures var clocks := SummaryLog.ClockValues(lines, clockOf);
      ClockedBy(Latest(clocks) - SummaryLog.Origin(clocks), lines, |lines| - 1, clockOf)
  {
    TakeWhole(lines, |lines|);
  }

  lemma TakeWhole<T>(s: seq<T>, n: nat)
    requires n == |s|
    ensures s[..n] == s
  {
  }

  /** The traces of a prefix of the log, carried across one more line that is not a sample. */
  lemma TraceKeep(prefix: seq<string>, line: string, variant: Variant, summary: SummaryLog.Summary,
                  clockOf: string -> int, floatOf: string -> real, st: PassState, next: PassState, ps: seq<nat>,
                  cs: seq<nat>)
    requires |line| > 0 && !IsSampleLine(line, variant) && next == Clock(st, line, clockOf)
    requires SamplePositions(prefix, variant, ps) && CountTrace(st.rows, cs, summary)
    requires TimeTrace(prefix, clockOf, st.rows, ps) && st.cursor == CursorBefore(cs, |cs|)
    requires ValueTrace(prefix, variant, floatOf, st.rows, ps)
    ensures SamplePositions(prefix + [line], variant, ps) && CountTrace(next.rows, cs, summary)
    ensures TimeTrace(prefix + [line], clockOf, next.rows, ps) && next.cursor == CursorBefore(cs, |cs|)
    ensures ValueTrace(prefix + [line], variant, floatOf, next.rows, ps)
  {
    PositionsKeep(prefix, line, variant, ps);
    TimeKeeps(prefix, line, clockOf, st.rows, ps);
    ValueKeeps(prefix, line, variant, floatOf, st.rows, ps);
  }

  /** The traces of a prefix of the log, carried across one more sample line: it adds its own row. */
  lemma TraceExtend(prefix: seq<string>, line: string, variant: Variant, summary: SummaryLog.Summary,
                    clockOf: string -> int, floatOf: string -> real, st: PassState, next: PassState, ps: seq<nat>,
                    cs: seq<nat>)
    requires IsSampleLine(line, variant) && |next.rows| == |st.rows| + 1
    requires next.rows == st.rows + [next.rows[|st.rows|]]
    requires CountStep(next.rows[|st.rows|], st.cursor, next.cursor, summary)
    requires |st.rows| > 0 ==> next.rows[|st.rows|].time == next.tn - next.t0
    requires ClockedBy(next.tn - next.t0, prefix + [line], |prefix|, clockOf)
    requires ReadFrom(next.rows[|st.rows|], line, variant, floatOf)
    requires SamplePositions(prefix, variant, ps) && CountTrace(st.rows, cs, summary)
    requires TimeTrace(prefix, clockOf, st.rows, ps) && st.cursor == CursorBefore(cs, |cs|)
    requires ValueTrace(prefix, variant, floatOf, st.rows, ps)
    ensures SamplePositions(prefix + [line], variant, ps + [|prefix|])
    ensures CountTrace(next.rows, cs + [next.cursor], summary)
    ensures TimeTrace(prefix + [line], clockOf, next.rows, ps + [|prefix|])
    ensures next.cursor == CursorBefore(cs + [next.cursor], |cs| + 1)
    ensures ValueTrace(prefix + [line], variant, floatOf, next.rows, ps + [|prefix|])
  {
    var row := next.rows[|st.rows|];
    ValueExtends(prefix, line, variant, floatOf, st.rows, ps, row);
    TimeExtends(prefix, line, clockOf, st.rows, ps, row);
    PositionsExtend(prefix, line, variant, ps);
    CountExtends(st.rows, cs, summary, row, next.cursor);
  }

  /** The traces of a prefix of the log, carried across one more line. */
  lemma TraceStep(prefix: seq<string>, line: string, variant: Variant, summary: SummaryLog.Summary,
                  clockOf: string -> int, floatOf: string -> real, st: PassState, ps: seq<nat>, cs: seq<nat>)
    returns (ps': seq<nat>, cs': seq<nat>)
    requires LogLineWellFormed(line, variant) && Tracks(st, summary) && RowsChained(st.rows)
    requires Step(st, line, variant, summary, clockOf, floatOf).Ok?
    requires SamplePositions(prefix, variant, ps) && CountTrace(st.rows, cs, summary)
    requires TimeTrace(prefix, clockOf, st.rows, ps) && st.cursor == CursorBefore(cs, |cs|)
    requires ValueTrace(prefix, variant, floatOf, st.rows, ps)
    requires var next := Step(st, line, variant, summary, clockOf, floatOf).value;
      ClockedBy(next.tn - next.t0, prefix + [line], |prefix|, clockOf)
    ensures var next := Step(st, line, variant, summary, clockOf, floatOf).value;
      SamplePositions(prefix + [line], variant, ps') && CountTrace(next.rows, cs', summary) &&
      TimeTrace(prefix + [line], clockOf, next.rows, ps') && next.cursor == CursorBefore(cs', |cs'|) &&
      ValueTrace(prefix + [line], variant, floatOf, next.rows, ps')
  {
    var next := Step(st, line, variant, summary, clockOf, floatOf).value;
    if !IsSampleLine(line, variant) {
      TraceKeep(prefix, line, variant, summary, clockOf, floatOf, st, next, ps, cs);
      ps', cs' := ps, cs;
    } else {
      StepRow(st, line, variant, summary, clockOf, floatOf);
      TraceExtend(prefix, line, variant, summary, clockOf, floatOf, st, next, ps, cs);
      ps', cs' := ps + [|prefix|], cs + [next.cursor];
    }
  }

  /**
   * A completed prefix of the pass, row by row: the positions of the sample lines, the numbers each row
   * reads from its line, the cursor after each row, and each row's time from the clocks; the pass's
   * cursor is the last row's.
   */
  lemma {:induction false} RunTrace(lines: seq<string>, variant: Variant, summary: SummaryLog.Summary,
                                    clockOf: string -> int, floatOf: string -> real)
    returns (ps: seq<nat>, cs: seq<nat>)
    requires LogWellFormed(lines, variant)
    requires Run(lines, variant, summary, clockOf, floatOf).Ok?
    ensures var st := Run(lines, variant, summary, clockOf, floatOf).value;
      SamplePositions(lines, variant, ps) && CountTrace(st.rows, cs, summary) &&
      TimeTrace(lines, clockOf, st.rows, ps) && st.cursor == CursorBefore(cs, |cs|) &&
      ValueTrace(lines, variant, floatOf, st.rows, ps)
  {
    if lines == [] {
      ps, cs := [], [];
    } else {
      var prefix := lines[..|lines| - 1];
      var line := lines[|lines| - 1];
      assert lines == prefix + [line];
      ps, cs := RunTrace(prefix, variant, summary, clockOf, floatOf);
      RunKeeps(prefix, variant, summary, clockOf, floatOf);
      RunClock(lines, variant, summary, clockOf, floatOf);
      ClockedByWholeLog(lines, clockOf);
      ps, cs := TraceStep(prefix, line, variant, summary, clockOf, floatOf,
                          Run(prefix, variant, summary, clockOf, floatOf).value, ps, cs);
    }
  }

  /** The room order never decreases along the rows. */
  lemma {:induction false} RoomOrderNeverDecreases(rows: seq<Row>, i: nat, j: nat)
    requires RowsChained(rows) && i <= j < |rows|
    ensures rows[i].roomByOrder <= rows[j].roomByOrder
  {
    if i < j {
      RoomOrderNeverDecreases(rows, i, j - 1);
    }
  }
}
