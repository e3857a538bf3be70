/**
 * parse_test_vr_file: the VR test reconciler. The VR test summary log lists placement and pick-up
 * events. Each item is reported once, when it is first met: a forward scan over the later events finds
 * how often the item was moved again (half a replacement per event) and its last event, which gives the
 * reported time. The reported position, though, is read from the first event's location, with the last
 * event's location only deciding which coordinates to take.
 */
module VrReconcile {
  import opened Common
  import opened Text
  import opened Tables
  import opened Regions
  import opened ContextOrder
  import opened TestReconcile
  import SummaryLog

  /** One output row of the VR reconciler (the constant subject and trial columns are left out). */
  datatype RowVr = RowVr(itemId: string, xPlaced: real, yPlaced: real, xExpected: int, yExpected: int,
                         orderClickedStudy: Option<nat>, expectedRoomByOrder: nat, expectedRoomByColor: string,
                         actualRoomByOrder: nat, actualRoomByColor: string, replacements: real, timePlaced: int)

  /** How many of the positions `lo` to `hi` (exclusive) of `xs` hold `x`. */
  function Occurrences(xs: seq<string>, x: string, lo: nat, hi: nat): nat
    requires hi <= |xs|
    decreases hi - lo
  {
    if lo >= hi then 0 else (if xs[lo] == x then 1 else 0) + Occurrences(xs, x, lo + 1, hi)
  }

  /**
   * The forward scan over the test events from position `i` on: the position of the last event for
   * `item` (still `last` when there is none) and the number of such events, added to `matches`. Reading
   * past the label list when the times list is longer raises an IndexError.
   */
  function Scan(test: SummaryLog.Summary, item: string, i: nat, last: nat, matches: nat): (r: Result<(nat, nat)>)
    requires last < |test.times| && last < |test.objectTypes|
    ensures r.Ok? ==> r.value.0 < |test.times| && r.value.0 < |test.objectTypes| && r.value.1 >= matches
    ensures r.Err? ==> r.fault == IndexError
    decreases |test.times| - i
  {
    if i >= |test.times| then Ok((last, matches))
    else if i >= |test.objectTypes| then Err(IndexError)
    else if test.objectTypes[i] == item then Scan(test, item, i + 1, i, matches + 1)
    else Scan(test, item, i + 1, last, matches)
  }

  /**
   * The scan fails exactly when it has positions to visit and the times list is longer than the label
   * list; otherwise it counts the later events for `item` and ends at the last of them.
   */
  lemma {:induction false} ScanResult(test: SummaryLog.Summary, item: string, i: nat, last: nat, matches: nat)
    requires last < |test.times| && last < |test.objectTypes| && last < i
    ensures Scan(test, item, i, last, matches).Err? <==> i < |test.times| && |test.objectTypes| < |test.times|
    ensures Scan(test, item, i, last, matches).Ok? && i <= |test.times| <= |test.objectTypes| ==>
      var r := Scan(test, item, i, last, matches).value;
      r.1 == matches + Occurrences(test.objectTypes, item, i, |test.times|) &&
      r.0 < |test.times| &&
      (r.0 == last || (i <= r.0 && test.objectTypes[r.0] == item)) &&
      forall p :: Max(i, r.0 + 1) <= p < |test.times| ==> test.objectTypes[p] != item
    decreases |test.times| - i
  {
    if i < |test.times| && i < |test.objectTypes| {
      if test.objectTypes[i] == item {
        ScanResult(test, item, i + 1, i, matches + 1);
      } else {
        ScanResult(test, item, i + 1, last, matches);
      }
    }
  }

  /** x and y of the placement: from the first event's location, taking the coordinate layout of the last event's. */
  function PlacedPoint(loc: seq<real>, lastLoc: seq<real>): (r: Result<(real, real)>)
    ensures r.Err? && r.fault == LogParseError <==> |lastLoc| != 2 && |lastLoc| != 3
    ensures r.Err? && r.fault == IndexError <==> (|lastLoc| == 2 && |loc| < 2) || (|lastLoc| == 3 && |loc| < 3)
    ensures r.Ok? && |lastLoc| == 2 ==> |loc| >= 2 && r.value == (loc[0], loc[1])
    ensures r.Ok? && |lastLoc| == 3 ==> |loc| >= 3 && r.value == (loc[0], loc[2])
  {
    if |lastLoc| == 2 then (if |loc| < 2 then Err(IndexError) else Ok((loc[0], loc[1])))
    else if |lastLoc| == 3 then (if |loc| < 3 then Err(IndexError) else Ok((loc[0], loc[2])))
    else Err(LogParseError)
  }

  /** The replacement count the reconciler reports for `moves` later events: it adds 0.5 per event. */
  function Replacements(moves: nat): real
  {
    if moves == 0 then 0.0 else Replacements(moves - 1) + 0.5
  }

  /** Every later event counts half a replacement: an item picked up and placed again counts one. */
  lemma {:induction false} ReplacementsAreHalfMoves(moves: nat)
    ensures Replacements(moves) == moves as real / 2.0
  {
    if moves > 0 {
      ReplacementsAreHalfMoves(moves - 1);
    }
  }

  /**
   * The row for item `item` placed at `point`, moved `moves` more times and last placed at time `time`,
   * once its two room colours are known to have a visit order.
   */
  function RowOf(item: string, studyTypes: seq<string>, mapping: map<string, nat>, point: (real, real), moves: nat,
                 time: int): RowVr
    requires item in StudyLabels && ExpectedRoomOfIndex(IndexOf(StudyLabels, item)) in mapping
    requires NavRoomByLocation(point.0, point.1).1 in mapping
  {
    var expected := ExpectedRoomOfIndex(IndexOf(StudyLabels, item));
    var actual := NavRoomByLocation(point.0, point.1).1;
    LabelsAreStripped(item, false);
    var loc := GetLocationByName(item, false);
    RowVr(item, point.0, point.1, loc.0, loc.1, FirstIndex(studyTypes, item),
          mapping[expected], expected, mapping[actual], actual, Replacements(moves), time)
  }

  /**
   * The row for the item first met at position `k`, or the error the source raises on the way: the scan's
   * IndexError, a ValueError for an item that is not a navigation label, the LogParseError or IndexError
   * of an unusable location, and a KeyError for a room colour without a visit order.
   */
  function VrItem(test: SummaryLog.Summary, study: SummaryLog.Summary, mapping: map<string, nat>, k: nat): Result<RowVr>
    requires test.Parallel() && k < ZipLength(test)
  {
    var item := test.objectTypes[k];
    match Scan(test, item, k + 1, k, 0)
    case Err(f) => Err(f)
    case Ok(scan) =>
      if item !in StudyLabels then Err(ValueError)
      else
        match PlacedPoint(test.locations[k], test.locations[scan.0])
        case Err(f) => Err(f)
        case Ok(point) =>
          if ExpectedRoomOfIndex(IndexOf(StudyLabels, item)) !in mapping then Err(KeyError)
          else if NavRoomByLocation(point.0, point.1).1 !in mapping then Err(KeyError)
          else Ok(RowOf(item, study.objectTypes, mapping, point, scan.1, test.times[scan.0]))
  }

  /** `x` is among the first `k` elements of `xs`. */
  predicate Occurs(xs: seq<string>, x: string, k: nat)
    requires k <= |xs|
  {
    k > 0 && (xs[k - 1] == x || Occurs(xs, x, k - 1))
  }

  /** Occurs is membership in the prefix. */
  lemma {:induction false} OccursInPrefix(xs: seq<string>, x: string, k: nat)
    requires k <= |xs|
    ensures Occurs(xs, x, k) <==> x in xs[..k]
  {
    if k > 0 {
      OccursInPrefix(xs, x, k - 1);
      assert xs[..k] == xs[..k - 1] + [xs[k - 1]];
    }
  }

  /**
   * The outer loop over the first `k` test events, given the outcome `item(j)` of processing the item first
   * met at position `j`: an item already met is skipped, the first error ends the loop.
   */
  function Collect(types: seq<string>, item: nat -> Result<RowVr>, k: nat): Result<seq<RowVr>>
    requires k <= |types|
  {
    if k == 0 then Ok([])
    else
      match Collect(types, item, k - 1)
      case Err(f) => Err(f)
      case Ok(rows) =>
        if Occurs(types, types[k - 1], k - 1) then Ok(rows)
        else
          match item(k - 1)
          case Err(f) => Err(f)
          case Ok(row) => Ok(rows + [row])
  }

  /** The outcome of processing each position of the test log as a first encounter. */
  function ItemAt(test: SummaryLog.Summary, study: SummaryLog.Summary, mapping: map<string, nat>): nat -> Result<RowVr>
  {
    (j: nat) => if test.Parallel() && j < ZipLength(test) then VrItem(test, study, mapping, j) else Err(IndexError)
  }

  lemma ItemAtIs(test: SummaryLog.Summary, study: SummaryLog.Summary, mapping: map<string, nat>, k: nat)
    requires test.Parallel() && k < ZipLength(test)
    ensures ItemAt(test, study, mapping)(k) == VrItem(test, study, mapping, k)
  {
  }

  /** parse_test_vr_file, as a function of the parsed test and study summary logs. */
  function TestVrRows(test: SummaryLog.Summary, study: SummaryLog.Summary): Result<seq<RowVr>>
    requires test.Parallel() && StudyNamed(study)
  {
    Collect(test.objectTypes, ItemAt(test, study, OrderMap(Colors(study))), ZipLength(test))
  }

  /** The reconciler: the colour map, then the loop over the test events with the already-processed list. */
  method ParseTestVrFile(test: SummaryLog.Summary, study: SummaryLog.Summary) returns (r: Result<seq<RowVr>>)
    requires test.Parallel() && StudyNamed(study)
    ensures r == TestVrRows(test, study)
  {
    var mapping := ContextColorOrderMapping(study);
    r := ReconcileVr(test, study, mapping);
  }

  /** The loop over the test events, with the study log's colour map already built. */
  method ReconcileVr(test: SummaryLog.Summary, study: SummaryLog.Summary, mapping: map<string, nat>)
    returns (r: Result<seq<RowVr>>)
    requires test.Parallel()
    ensures r == Collect(test.objectTypes, ItemAt(test, study, mapping), ZipLength(test))
  {
    var alreadyProcessed: seq<string> := [];
    var rows: seq<RowVr> := [];
    var count := 0;
    var n := ZipLength(test);
    for k := 0 to n
      invariant count == k
      invariant forall x :: x in alreadyProcessed <==> Occurs(test.objectTypes, x, k)
      invariant Collect(test.objectTypes, ItemAt(test, study, mapping), k) == Ok(rows)
    {
      var next;
      alreadyProcessed, next := VisitEvent(test, study, mapping, k, alreadyProcessed, rows);
      count := count + 1;
      if next.Err? {
        CollectStaysFailed(test.objectTypes, ItemAt(test, study, mapping), k + 1, n);
        return Err(next.fault);
      }
      rows := next.value;
    }
    r := Ok(rows);
  }

  /** One round of the outer loop: skip an item already processed, or process it and record it. */
  method VisitEvent(test: SummaryLog.Summary, study: SummaryLog.Summary, mapping: map<string, nat>, k: nat,
                    alreadyProcessed: seq<string>, rows: seq<RowVr>)
    returns (processed: seq<string>, r: Result<seq<RowVr>>)
    requires test.Parallel() && k < ZipLength(test)
    requires forall x :: x in alreadyProcessed <==> Occurs(test.objectTypes, x, k)
    requires Collect(test.objectTypes, ItemAt(test, study, mapping), k) == Ok(rows)
    ensures r.Ok? ==> forall x :: x in processed <==> Occurs(test.objectTypes, x, k + 1)
    ensures r == Collect(test.objectTypes, ItemAt(test, study, mapping), k + 1)
  {
    var item := test.objectTypes[k];
    if item in alreadyProcessed {
      CollectSkips(test.objectTypes, ItemAt(test, study, mapping), k);
      return alreadyProcessed, Ok(rows);
    }
    processed, r := FirstEncounter(test, study, mapping, k, alreadyProcessed, rows);
  }

  /** The round of the outer loop for an item met for the first time. */
  method FirstEncounter(test: SummaryLog.Summary, study: SummaryLog.Summary, mapping: map<string, nat>, k: nat,
                        alreadyProcessed: seq<string>, rows: seq<RowVr>)
    returns (processed: seq<string>, r: Result<seq<RowVr>>)
    requires test.Parallel() && k < ZipLength(test) && !Occurs(test.objectTypes, test.objectTypes[k], k)
    requires forall x :: x in alreadyProcessed <==> Occurs(test.objectTypes, x, k)
    requires Collect(test.objectTypes, ItemAt(test, study, mapping), k) == Ok(rows)
    ensures r.Ok? ==> forall x :: x in processed <==> Occurs(test.objectTypes, x, k + 1)
    ensures r == Collect(test.objectTypes, ItemAt(test, study, mapping), k + 1)
  {
    var row := ProcessVrItem(test, study, mapping, k);
    ItemAtIs(test, study, mapping, k);
    CollectAppends(test.objectTypes, ItemAt(test, study, mapping), k);
    if row.Err? {
      return alreadyProcessed, Err(row.fault);
    }
    processed := alreadyProcessed + [test.objectTypes[k]];
    ProcessedGrows(test.objectTypes, alreadyProcessed, k);
    r := Ok(rows + [row.value]);
  }

  /** The body of the outer loop for the item first met at position `k`: the scan, the checks, then the row. */
  method ProcessVrItem(test: SummaryLog.Summary, study: SummaryLog.Summary, mapping: map<string, nat>, k: nat)
    returns (r: Result<RowVr>)
    requires test.Parallel() && k < ZipLength(test)
    ensures r == VrItem(test, study, mapping, k)
  {
    var item := test.objectTypes[k];
    var scan, matches := ScanLaterEvents(test, item, k);
    if scan.Err? {
      return Err(scan.fault);
    }
    var (last, replacements) := scan.value;
    if item !in StudyLabels {
      return Err(ValueError);
    }
    var expected := ExpectedRoomByColor(IndexOf(StudyLabels, item));
    var lastLoc, loc := test.locations[last], test.locations[k];
    var point := PlacedCoordinates(loc, lastLoc);
    if point.Err? {
      return Err(point.fault);
    }
    var (x, y) := point.value;
    var actual := NavRoomByLocation(x, y).1;
    if expected !in mapping || actual !in mapping {
      return Err(KeyError);
    }
    var row := PlacementRow(item, study.objectTypes, mapping, x, y, expected, actual, replacements, test.times[last], matches);
    r := Ok(row);
  }

  /** The inner loop over the later events: the last event for `item` and half a replacement per event. */
  method ScanLaterEvents(test: SummaryLog.Summary, item: string, k: nat) returns (r: Result<(nat, real)>, ghost matches: nat)
    requires k < |test.times| && k < |test.objectTypes|
    ensures r.Err? <==> Scan(test, item, k + 1, k, 0).Err?
    ensures r.Err? ==> r.fault == IndexError
    ensures r.Ok? ==> Scan(test, item, k + 1, k, 0) == Ok((r.value.0, matches)) && r.value.1 == Replacements(matches)
  {
    var last: nat := k;
    var replacements := 0.0;
    matches := 0;
    for i := k + 1 to |test.times|
      invariant last < |test.times| && last < |test.objectTypes|
      invariant replacements == Replacements(matches)
      invariant Scan(test, item, i, last, matches) == Scan(test, item, k + 1, k, 0)
    {
      if i >= |test.objectTypes| {
        return Err(IndexError), matches;
      }
      if test.objectTypes[i] == item {
        last := i;
        replacements := replacements + 0.5;
        matches := matches + 1;
      }
    }
    r := Ok((last, replacements));
  }

  /** x from the first event, y from its second or third coordinate as the last event's location has two or three. */
  method PlacedCoordinates(loc: seq<real>, lastLoc: seq<real>) returns (r: Result<(real, real)>)
    ensures r == PlacedPoint(loc, lastLoc)
  {
    if |lastLoc| == 2 {
      if |loc| < 2 {
        return Err(IndexError);
      }
      r := Ok((loc[0], loc[1]));
    } else if |lastLoc| == 3 {
      if |loc| < 3 {
        return Err(IndexError);
      }
      r := Ok((loc[0], loc[2]));
    } else {
      r := Err(LogParseError);
    }
  }

  /** The row the reconciler appends once it knows where the item went, its two rooms and how often it moved. */
  method PlacementRow(item: string, studyTypes: seq<string>, mapping: map<string, nat>, x: real, y: real,
                      expected: string, actual: string, replacements: real, time: int, ghost moves: nat)
    returns (row: RowVr)
    requires item in StudyLabels && expected == ExpectedRoomOfIndex(IndexOf(StudyLabels, item)) && expected in mapping
    requires actual == NavRoomByLocation(x, y).1 && actual in mapping
    requires replacements == Replacements(moves)
    ensures row == RowOf(item, studyTypes, mapping, (x, y), moves, time)
  {
    var order := OrderClickedStudy(studyTypes, item);
    LabelsAreStripped(item, false);
    var expectedLoc := GetLocationByName(item, false);
    row := RowVr(item, x, y, expectedLoc.0, expectedLoc.1, order, mapping[expected], expected, mapping[actual], actual,
                 replacements, time);
  }

  /** Recording the item at position `k` keeps the processed list equal to the items met so far. */
  lemma ProcessedGrows(types: seq<string>, processed: seq<string>, k: nat)
    requires k < |types|
    requires forall x :: x in processed <==> Occurs(types, x, k)
    ensures forall x :: x in processed + [types[k]] <==> Occurs(types, x, k + 1)
  {
  }

  /** An item met before is skipped. */
  lemma CollectSkips(types: seq<string>, item: nat -> Result<RowVr>, k: nat)
    requires k < |types| && Occurs(types, types[k], k) && Collect(types, item, k).Ok?
    ensures Collect(types, item, k + 1) == Collect(types, item, k)
  {
  }

  /** An item met for the first time adds its row, or ends the loop with its error. */
  lemma CollectAppends(types: seq<string>, item: nat -> Result<RowVr>, k: nat)
    requires k < |types| && !Occurs(types, types[k], k) && Collect(types, item, k).Ok?
    ensures item(k).Ok? ==> Collect(types, item, k + 1) == Ok(Collect(types, item, k).value + [item(k).value])
    ensures item(k).Err? ==> Collect(types, item, k + 1) == Err(item(k).fault)
  {
  }

  /** Once the outer loop has failed it stays failed, with the same fault. */
  lemma {:induction false} CollectStaysFailed(types: seq<string>, item: nat -> Result<RowVr>, k: nat, n: nat)
    requires k <= n <= |types| && Collect(types, item, k).Err?
    ensures Collect(types, item, n) == Collect(types, item, k)
    decreases n - k
  {
    if k < n {
      CollectStaysFailed(types, item, k, n - 1);
    }
  }

  // ----- What the reconciler reports -----

  /** A successfully processed item's row is RowOf its scan and its placement point. */
  lemma VrItemIsRowOf(test: SummaryLog.Summary, study: SummaryLog.Summary, mapping: map<string, nat>, k: nat)
    requires test.Parallel() && k < ZipLength(test) && VrItem(test, study, mapping, k).Ok?
    ensures var item := test.objectTypes[k];
      var scan := Scan(test, item, k + 1, k, 0);
      scan.Ok? && item in StudyLabels &&
      var point := PlacedPoint(test.locations[k], test.locations[scan.value.0]);
      point.Ok? &&
      ExpectedRoomOfIndex(IndexOf(StudyLabels, item)) in mapping && NavRoomByLocation(point.value.0, point.value.1).1 in mapping &&
      VrItem(test, study, mapping, k).value ==
        RowOf(item, study.objectTypes, mapping, point.value, scan.value.1, test.times[scan.value.0])
  {
  }

  /**
   * The rooms of a row: the item is a navigation label; the expected room is the one its label belongs to
   * and holds its expected navigation coordinates; the actual room is the room of the placement point;
   * both visit orders come from the study map; the click order is the item's first study click; and an
   * item placed exactly at its expected coordinates is reported in its expected room.
   */
  lemma RowOfRooms(item: string, studyTypes: seq<string>, mapping: map<string, nat>, point: (real, real), moves: nat,
                   time: int)
    requires item in StudyLabels && ExpectedRoomOfIndex(IndexOf(StudyLabels, item)) in mapping
    requires NavRoomByLocation(point.0, point.1).1 in mapping
    ensures var row := RowOf(item, studyTypes, mapping, point, moves, time);
      var i := IndexOf(StudyLabels, item);
      row.itemId == item && row.xPlaced == point.0 && row.yPlaced == point.1 &&
      row.replacements == Replacements(moves) && row.timePlaced == time &&
      row.expectedRoomByColor == ExpectedRoomOfIndex(i) &&
      row.xExpected == StudyRealX[i] && row.yExpected == StudyRealY[i] &&
      row.expectedRoomByColor == NavRoomByLocation(row.xExpected as real, row.yExpected as real).1 &&
      row.actualRoomByColor == NavRoomByLocation(row.xPlaced, row.yPlaced).1 &&
      row.expectedRoomByColor in mapping && row.expectedRoomByOrder == mapping[row.expectedRoomByColor] &&
      row.actualRoomByColor in mapping && row.actualRoomByOrder == mapping[row.actualRoomByColor] &&
      row.orderClickedStudy == FirstIndex(studyTypes, item) &&
      (row.xPlaced == row.xExpected as real && row.yPlaced == row.yExpected as real ==>
        row.actualRoomByColor == row.expectedRoomByColor && row.actualRoomByOrder == row.expectedRoomByOrder)
  {
    var i := IndexOf(StudyLabels, item);
    LabelsAreStripped(item, false);
    ExpectedLocationsLieInExpectedRooms(i);
  }

  /**
   * The scan from the item first met at `k`: when it succeeds the times list is no longer than the label
   * list, it ends at the item's last event and counts the item's later events.
   */
  lemma LastEvent(test: SummaryLog.Summary, item: string, k: nat)
    requires k < |test.times| && k < |test.objectTypes| && test.objectTypes[k] == item
    requires Scan(test, item, k + 1, k, 0).Ok?
    ensures |test.times| <= |test.objectTypes|
    ensures var scan := Scan(test, item, k + 1, k, 0).value;
      scan.1 == Occurrences(test.objectTypes, item, k + 1, |test.times|) &&
      k <= scan.0 < |test.times| && test.objectTypes[scan.0] == item &&
      forall p :: scan.0 < p < |test.times| ==> test.objectTypes[p] != item
  {
    ScanResult(test, item, k + 1, k, 0);
  }

  /**
   * The events behind a row: half a replacement per later event of the item, the time of its last event,
   * x from the first event, and y from the first event's second or third coordinate as the last event's
   * location has two or three.
   */
  lemma VrItemEvents(test: SummaryLog.Summary, study: SummaryLog.Summary, mapping: map<string, nat>, k: nat)
    requires test.Parallel() && k < ZipLength(test) && VrItem(test, study, mapping, k).Ok?
    ensures Scan(test, test.objectTypes[k], k + 1, k, 0).Ok?
    ensures var row := VrItem(test, study, mapping, k).value;
      var item := test.objectTypes[k];
      var scan := Scan(test, item, k + 1, k, 0).value;
      row.itemId == item &&
      row.replacements == Replacements(scan.1) &&
      row.timePlaced == test.times[scan.0] &&
      (|test.locations[scan.0]| == 2 || |test.locations[scan.0]| == 3) &&
      row.xPlaced == test.locations[k][0] &&
      (|test.locations[scan.0]| == 2 ==> row.yPlaced == test.locations[k][1]) &&
      (|test.locations[scan.0]| == 3 ==> row.yPlaced == test.locations[k][2])
  {
    VrItemIsRowOf(test, study, mapping, k);
  }

  /**
   * Why processing an item fails: an IndexError when the scan runs past the label list or the first
   * location is too short, a ValueError for an item that is not a navigation label, a LogParseError when
   * the last event's location has neither two nor three coordinates, a KeyError for a room without a
   * visit order.
   */
  lemma VrItemFaults(test: SummaryLog.Summary, study: SummaryLog.Summary, mapping: map<string, nat>, k: nat)
    requires test.Parallel() && k < ZipLength(test) && VrItem(test, study, mapping, k).Err?
    ensures var f := VrItem(test, study, mapping, k).fault;
      var item := test.objectTypes[k];
      var scan := Scan(test, item, k + 1, k, 0);
      (scan.Err? <==> k + 1 < |test.times| && |test.objectTypes| < |test.times|) &&
      (scan.Err? ==> f == IndexError) &&
      (f == ValueError ==> scan.Ok? && item !in StudyLabels) &&
      (f == LogParseError ==> scan.Ok? && |test.locations[scan.value.0]| != 2 && |test.locations[scan.value.0]| != 3) &&
      (f == KeyError ==>
        scan.Ok? && item in StudyLabels &&
        var point := PlacedPoint(test.locations[k], test.locations[scan.value.0]);
        point.Ok? &&
        (ExpectedRoomOfIndex(IndexOf(StudyLabels, item)) !in mapping || NavRoomByLocation(point.value.0, point.value.1).1 !in mapping))
  {
    ScanResult(test, test.objectTypes[k], k + 1, k, 0);
  }

  /**
   * Any three events for one item, whatever their event types: two toggles after the first, so one
   * replacement, timed at the last event.
   */
  lemma PutBackOnce(test: SummaryLog.Summary, study: SummaryLog.Summary, mapping: map<string, nat>, item: string)
    requires test.Parallel() && |test.times| == 3 && test.objectTypes == [item, item, item]
    requires VrItem(test, study, mapping, 0).Ok?
    ensures VrItem(test, study, mapping, 0).value.replacements == 1.0
    ensures VrItem(test, study, mapping, 0).value.timePlaced == test.times[2]
  {
    VrItemEvents(test, study, mapping, 0);
    assert Scan(test, item, 3, 2, 2) == Ok((2, 2));
    assert Scan(test, item, 1, 0, 0) == Ok((2, 2));
    assert Replacements(2) == 1.0 by {
      assert Replacements(1) == 0.5;
    }
  }

  /** When the test log has more times than labels, the very first item already raises an IndexError. */
  lemma MoreTimesThanLabels(test: SummaryLog.Summary, study: SummaryLog.Summary)
    requires test.Parallel() && StudyNamed(study)
    requires 0 < ZipLength(test) && |test.objectTypes| < |test.times|
    ensures TestVrRows(test, study) == Err(IndexError)
  {
    var mapping := OrderMap(Colors(study));
    var item := ItemAt(test, study, mapping);
    ScanResult(test, test.objectTypes[0], 1, 0, 0);
    ItemAtIs(test, study, mapping, 0);
    assert item(0) == Err(IndexError);
    assert Collect(test.objectTypes, item, 1) == Err(IndexError);
    CollectStaysFailed(test.objectTypes, item, 1, ZipLength(test));
  }

  // ----- Which items are reported -----

  /** The positions among the first `k` at which an item is met for the first time, in order. */
  function FirstPositions(types: seq<string>, k: nat): (fp: seq<nat>)
    requires k <= |types|
    ensures forall j :: 0 <= j < |fp| ==> fp[j] < k
  {
    if k == 0 then []
    else FirstPositions(types, k - 1) + (if Occurs(types, types[k - 1], k - 1) then [] else [k - 1])
  }

  /** Each row of the outer loop is the outcome of processing one first-encounter position, in order. */
  lemma {:induction false} CollectRows(types: seq<string>, item: nat -> Result<RowVr>, k: nat)
    requires k <= |types| && Collect(types, item, k).Ok?
    ensures |Collect(types, item, k).value| == |FirstPositions(types, k)|
    ensures forall j :: 0 <= j < |FirstPositions(types, k)| ==>
      item(FirstPositions(types, k)[j]) == Ok(Collect(types, item, k).value[j])
  {
    if k > 0 {
      CollectRows(types, item, k - 1);
    }
  }

  /** The first-encounter positions are increasing, and each holds an item not met before it. */
  lemma {:induction false} FirstPositionsAreFirst(types: seq<string>, k: nat)
    requires k <= |types|
    ensures forall j :: 0 <= j < |FirstPositions(types, k)| ==>
      FirstPositions(types, k)[j] < k && !Occurs(types, types[FirstPositions(types, k)[j]], FirstPositions(types, k)[j])
    ensures forall i, j :: 0 <= i < j < |FirstPositions(types, k)| ==> FirstPositions(types, k)[i] < FirstPositions(types, k)[j]
  {
    if k > 0 {
      FirstPositionsAreFirst(types, k - 1);
    }
  }

  /** Every position holding an item not met before it is a first-encounter position. */
  lemma {:induction false} FirstPositionsComplete(types: seq<string>, k: nat, p: nat)
    requires p < k <= |types| && !Occurs(types, types[p], p)
    ensures p in FirstPositions(types, k)
  {
    if p < k - 1 {
      FirstPositionsComplete(types, k - 1, p);
    }
  }

  /** An element at a position below `k` occurs among the first `k`. */
  lemma {:induction false} OccursAt(xs: seq<string>, p: nat, k: nat)
    requires p < k <= |xs|
    ensures Occurs(xs, xs[p], k)
  {
    if p < k - 1 {
      OccursAt(xs, p, k - 1);
    }
  }

  /** Some position holding the same element occurs before `k`. */
  lemma {:induction false} OccursWitness(xs: seq<string>, x: string, k: nat) returns (q: nat)
    requires k <= |xs| && Occurs(xs, x, k)
    ensures q < k && xs[q] == x
  {
    if xs[k - 1] == x {
      q := k - 1;
    } else {
      q := OccursWitness(xs, x, k - 1);
    }
  }

  /** Every element has a first occurrence: a position with the same element and none before it. */
  lemma {:induction false} EarliestOccurrence(xs: seq<string>, p: nat) returns (q: nat)
    requires p < |xs|
    ensures q <= p && xs[q] == xs[p] && !Occurs(xs, xs[q], q)
    decreases p
  {
    if Occurs(xs, xs[p], p) {
      var r := OccursWitness(xs, xs[p], p);
      q := EarliestOccurrence(xs, r);
    } else {
      q := p;
    }
  }

  /** Two first-encounter positions hold different items. */
  lemma FirstPositionsDistinct(types: seq<string>, k: nat, i: nat, j: nat)
    requires k <= |types| && i < j < |FirstPositions(types, k)|
    ensures types[FirstPositions(types, k)[i]] != types[FirstPositions(types, k)[j]]
  {
    FirstPositionsAreFirst(types, k);
    var fp := FirstPositions(types, k);
    if types[fp[i]] == types[fp[j]] {
      OccursAt(types, fp[i], fp[j]);
      assert false;
    }
  }

  /** Row `j` of the VR reconciler is the row of the `j`th item met, processed where it is first met. */
  lemma VrRowIsFirstEncounter(test: SummaryLog.Summary, study: SummaryLog.Summary, j: nat)
    requires test.Parallel() && StudyNamed(study) && TestVrRows(test, study).Ok? && j < |TestVrRows(test, study).value|
    ensures j < |FirstPositions(test.objectTypes, ZipLength(test))|
    ensures var p := FirstPositions(test.objectTypes, ZipLength(test))[j];
      p < ZipLength(test) && !Occurs(test.objectTypes, test.objectTypes[p], p) &&
      VrItem(test, study, OrderMap(Colors(study)), p) == Ok(TestVrRows(test, study).value[j]) &&
      TestVrRows(test, study).value[j].itemId == test.objectTypes[p]
  {
    var mapping := OrderMap(Colors(study));
    var n := ZipLength(test);
    CollectRows(test.objectTypes, ItemAt(test, study, mapping), n);
    FirstPositionsAreFirst(test.objectTypes, n);
    var p := FirstPositions(test.objectTypes, n)[j];
    ItemAtIs(test, study, mapping, p);
    VrItemEvents(test, study, mapping, p);
  }

  /** The VR reconciler reports each item at most once. */
  lemma VrRowIdsDistinct(test: SummaryLog.Summary, study: SummaryLog.Summary, i: nat, j: nat)
    requires test.Parallel() && StudyNamed(study) && TestVrRows(test, study).Ok?
    requires i < j < |TestVrRows(test, study).value|
    ensures TestVrRows(test, study).value[i].itemId != TestVrRows(test, study).value[j].itemId
  {
    VrRowIsFirstEncounter(test, study, i);
    VrRowIsFirstEncounter(test, study, j);
    FirstPositionsDistinct(test.objectTypes, ZipLength(test), i, j);
  }

  /** The VR reconciler reports every item of the test events it reads. */
  lemma VrEveryItemReported(test: SummaryLog.Summary, study: SummaryLog.Summary, p: nat)
    requires test.Parallel() && StudyNamed(study) && TestVrRows(test, study).Ok? && p < ZipLength(test)
    ensures exists j :: 0 <= j < |TestVrRows(test, study).value| && TestVrRows(test, study).value[j].itemId == test.objectTypes[p]
  {
    var n := ZipLength(test);
    var q := EarliestOccurrence(test.objectTypes, p);
    FirstPositionsComplete(test.objectTypes, n, q);
    var fp := FirstPositions(test.objectTypes, n);
    var j :| 0 <= j < |fp| && fp[j] == q;
    CollectRows(test.objectTypes, ItemAt(test, study, OrderMap(Colors(study))), n);
    VrRowIsFirstEncounter(test, study, j);
  }
}
