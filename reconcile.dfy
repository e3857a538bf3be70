/**
 * The two test reconcilers. parse_test_2d_file reads the sixteen placements of the 2D test image;
 * parse_test_vr_file reads the placement events of the VR test summary log. Both report, per item, where
 * it was placed and where it belongs, the room it belongs in and the room it was placed in (by colour,
 * and by the order in which the subject first visited that room during study), and the position at
 * which the item was clicked during study. The VR reconciler also counts how often an item was moved.
 */
module TestReconcile {
  import opened Common
  import opened Text
  import opened Tables
  import opened Regions
  import opened ContextOrder
  import SummaryLog

  /** The study position at which `name` was first clicked: the search loop that breaks on the first hit. */
  method OrderClickedStudy(objectTypes: seq<string>, name: string) returns (order: Option<nat>)
    ensures order == FirstIndex(objectTypes, name)
  {
    order := None;
    var i := 0;
    while i < |objectTypes|
      invariant 0 <= i <= |objectTypes|
      invariant name !in objectTypes[..i]
    {
      if objectTypes[i] == name {
        order := Some(i);
        assert FirstIndex(objectTypes, name) == Some(i) by {
          assert objectTypes[..i + 1] == objectTypes[..i] + [name];
        }
        return;
      }
      assert objectTypes[..i + 1] == objectTypes[..i] + [objectTypes[i]];
      i := i + 1;
    }
    assert objectTypes[..i] == objectTypes;
  }

  /** The colour of the room item `index` belongs in: the loop over ContextItemIndices that breaks on the first hit. */
  method ExpectedRoomByColor(index: nat) returns (color: string)
    requires index < ItemCount
    ensures color == ExpectedRoomOfIndex(index)
  {
    ghost var c := ExpectedRoomOfIndex(index);
    var g := 0;
    while g < |ContextItemIndices|
      invariant 0 <= g <= |ContextItemIndices|
      invariant forall h :: 0 <= h < g ==> index !in ContextItemIndices[h]
      invariant exists h :: g <= h < |ContextItemIndices| && index in ContextItemIndices[h]
    {
      if index in ContextItemIndices[g] {
        return ContextLabels[g];
      }
      g := g + 1;
    }
    assert false;
  }

  // ----- The 2D test file -----

  /** One output row of the 2D reconciler (the constant subject and trial columns are left out). */
  datatype Row2d = Row2d(itemId: string, xPlaced: int, yPlaced: int, xExpected: int, yExpected: int,
                         orderClickedStudy: Option<nat>, expectedRoomByOrder: nat, expectedRoomByColor: string,
                         actualRoomByOrder: nat, actualRoomByColor: string)

  /** The number of lines a complete 2D test file has: the skipped preamble and one line per item. */
  const Lines2d: nat := TestSkipLines + ItemCount

  /** A placement line `label,_,_,x,y,...` names a 2D-test item (list.index fails on any other label). */
  predicate Placement2dWellFormed(line: string)
  {
    var fields := Split(line, ',');
    |fields| >= 5 && fields[0] in TestLabels
  }

  /** The room colour the item of a placement line belongs in. */
  function ExpectedColor2d(line: string): string
    requires Placement2dWellFormed(line)
  {
    ExpectedRoomOfIndex(IndexOf(TestLabels, Split(line, ',')[0]))
  }

  /** The room colour, in 2D-test space, of the point where a placement line put its item. */
  function ActualColor2d(line: string, intOf: string -> int): string
    requires Placement2dWellFormed(line)
  {
    var fields := Split(line, ',');
    Test2dRoomByLocation(intOf(fields[3]) as real, intOf(fields[4]) as real).1
  }

  /** A placement line the reconciler reads without failing: both of its colours have a visit order. */
  predicate Placement2dReadable(line: string, mapping: map<string, nat>, intOf: string -> int)
  {
    Placement2dWellFormed(line) && ExpectedColor2d(line) in mapping && ActualColor2d(line, intOf) in mapping
  }

  /** Every placement line present in the file is readable. */
  predicate File2dReadable(lines: seq<string>, mapping: map<string, nat>, intOf: string -> int)
  {
    forall i :: TestSkipLines <= i < Lines2d && i < |lines| ==> Placement2dReadable(lines[i], mapping, intOf)
  }

  /** The row for placement line `line`, reported under the label of position `j` of the test table. */
  function Row2dOf(line: string, j: nat, objectTypes: seq<string>, mapping: map<string, nat>, intOf: string -> int): Row2d
    requires j < ItemCount && Placement2dReadable(line, mapping, intOf)
  {
    var fields := Split(line, ',');
    var x := intOf(fields[3]);
    var y := intOf(fields[4]);
    var index := IndexOf(TestLabels, fields[0]);
    var expected := ExpectedColor2d(line);
    var actual := ActualColor2d(line, intOf);
    LabelsAreStripped(fields[0], true);
    var loc := GetLocationByName(fields[0], true);
    Row2d(TestLabels[j], x, y, loc.0, loc.1, FirstIndex(objectTypes, StudyLabels[index]),
          mapping[expected], expected, mapping[actual], actual)
  }

  /** The study summary log names only navigation items and its colours number every room a placement needs. */
  predicate Inputs2dReadable(lines: seq<string>, study: SummaryLog.Summary, intOf: string -> int)
  {
    StudyNamed(study) && File2dReadable(lines, OrderMap(Colors(study)), intOf)
  }

  /** The rows for the first `j` placement lines. */
  function Rows2dUpTo(lines: seq<string>, j: nat, objectTypes: seq<string>, mapping: map<string, nat>,
                      intOf: string -> int): (rows: seq<Row2d>)
    requires j <= ItemCount && (j == 0 || TestSkipLines + j <= |lines|) && File2dReadable(lines, mapping, intOf)
    ensures |rows| == j
  {
    if j == 0 then []
    else Rows2dUpTo(lines, j - 1, objectTypes, mapping, intOf) +
         [Row2dOf(lines[TestSkipLines + j - 1], j - 1, objectTypes, mapping, intOf)]
  }

  /** parse_test_2d_file: a LogParseError when the file stops before its sixteenth placement line. */
  function Test2dRows(lines: seq<string>, study: SummaryLog.Summary, intOf: string -> int): (r: Result<seq<Row2d>>)
    requires Inputs2dReadable(lines, study, intOf)
    ensures r.Err? <==> |lines| < Lines2d
    ensures r.Err? ==> r.fault == LogParseError
    ensures r.Ok? ==> |r.value| == ItemCount
  {
    if |lines| < Lines2d then Err(LogParseError)
    else Ok(Rows2dUpTo(lines, ItemCount, study.objectTypes, OrderMap(Colors(study)), intOf))
  }

  /** The reconciler: the colour map, then one row per placement line, in the source's loop. */
  method ParseTest2dFile(lines: seq<string>, study: SummaryLog.Summary, intOf: string -> int)
    returns (r: Result<seq<Row2d>>)
    requires Inputs2dReadable(lines, study, intOf)
    ensures r == Test2dRows(lines, study, intOf)
  {
    var mapping := ContextColorOrderMapping(study);
    var rows: seq<Row2d> := [];
    for j := 0 to |TestLabels|
      invariant j == 0 || TestSkipLines + j <= |lines|
      invariant rows == Rows2dUpTo(lines, j, study.objectTypes, mapping, intOf)
    {
      if TestSkipLines + j >= |lines| {
        return Err(LogParseError);
      }
      var line := lines[TestSkipLines + j];
      var row := Placement2dRow(line, j, study.objectTypes, mapping, intOf);
      rows := rows + [row];
    }
    r := Ok(rows);
  }

  /** The body of the reconciler's loop for placement line `line`. */
  method Placement2dRow(line: string, j: nat, objectTypes: seq<string>, mapping: map<string, nat>, intOf: string -> int)
    returns (row: Row2d)
    requires j < ItemCount && Placement2dReadable(line, mapping, intOf)
    ensures row == Row2dOf(line, j, objectTypes, mapping, intOf)
  {
    var fields := Split(line, ',');
    var x := intOf(fields[3]);
    var y := intOf(fields[4]);
    var objectTypeTest := fields[0];
    var index := IndexOf(TestLabels, objectTypeTest);
    var order := OrderClickedStudy(objectTypes, StudyLabels[index]);
    var expected := ExpectedRoomByColor(index);
    var actual := Test2dRoomByLocation(x as real, y as real).1;
    LabelsAreStripped(objectTypeTest, true);
    var loc := GetLocationByName(objectTypeTest, true);
    row := Row2d(TestLabels[j], x, y, loc.0, loc.1, order, mapping[expected], expected, mapping[actual], actual);
  }

  /**
   * What a 2D row reports: it is filed under the test table's label `j`; its expected coordinates are the
   * table coordinates of the label on the line, and they lie in the room the label belongs in; both
   * rooms are numbered by the study map; and an item placed exactly at its expected coordinates is
   * reported in its expected room, with the same visit order.
   */
  lemma Placement2dRowFacts(line: string, j: nat, objectTypes: seq<string>, mapping: map<string, nat>, intOf: string -> int)
    requires j < ItemCount && Placement2dReadable(line, mapping, intOf)
    ensures var row := Row2dOf(line, j, objectTypes, mapping, intOf);
      var i := IndexOf(TestLabels, Split(line, ',')[0]);
      row.itemId == TestLabels[j] &&
      row.xExpected == TestRealX[i] && row.yExpected == TestRealY[i] &&
      row.expectedRoomByColor == ExpectedRoomOfIndex(i) &&
      row.expectedRoomByColor == Test2dRoomByLocation(row.xExpected as real, row.yExpected as real).1 &&
      row.actualRoomByColor == Test2dRoomByLocation(row.xPlaced as real, row.yPlaced as real).1 &&
      row.expectedRoomByOrder == mapping[row.expectedRoomByColor] &&
      row.actualRoomByOrder == mapping[row.actualRoomByColor] &&
      row.orderClickedStudy == FirstIndex(objectTypes, StudyLabels[i]) &&
      (row.xPlaced == row.xExpected && row.yPlaced == row.yExpected ==>
        row.actualRoomByColor == row.expectedRoomByColor && row.actualRoomByOrder == row.expectedRoomByOrder)
  {
    var i := IndexOf(TestLabels, Split(line, ',')[0]);
    LabelsAreStripped(Split(line, ',')[0], true);
    ExpectedLocationsLieInExpectedRooms(i);
  }

  /** Row `j` of a complete 2D file is the row of its placement line `TestSkipLines + j`. */
  lemma {:induction false} Rows2dAt(lines: seq<string>, n: nat, objectTypes: seq<string>, mapping: map<string, nat>,
                                    intOf: string -> int, j: nat)
    requires n <= ItemCount && (n == 0 || TestSkipLines + n <= |lines|) && File2dReadable(lines, mapping, intOf) && j < n
    ensures Rows2dUpTo(lines, n, objectTypes, mapping, intOf)[j] ==
      Row2dOf(lines[TestSkipLines + j], j, objectTypes, mapping, intOf)
  {
    if j < n - 1 {
      Rows2dAt(lines, n - 1, objectTypes, mapping, intOf, j);
    }
  }

  /** parse_test_2d_file's rows, one per table label, as Placement2dRowFacts describes. */
  lemma Test2dRowAt(lines: seq<string>, study: SummaryLog.Summary, intOf: string -> int, j: nat)
    requires Inputs2dReadable(lines, study, intOf) && |lines| >= Lines2d && j < ItemCount
    ensures Test2dRows(lines, study, intOf).Ok?
    ensures Test2dRows(lines, study, intOf).value[j] ==
      Row2dOf(lines[TestSkipLines + j], j, study.objectTypes, OrderMap(Colors(study)), intOf)
  {
    Rows2dAt(lines, ItemCount, study.objectTypes, OrderMap(Colors(study)), intOf, j);
  }
}
