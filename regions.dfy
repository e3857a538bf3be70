/**
 * Classifying points into the coloured rooms of the two coordinate spaces, and looking up an item's
 * expected coordinates by name.
 */
module Regions {
  import opened Tables
  import opened Text

  /** point_is_in_rectangle: strictly inside, on both axes. */
  predicate PointIsInRectangle(px: real, py: real, r: Rect)
  {
    r.x < px < r.x + r.w && r.y < py < r.y + r.h
  }

  /** The index of the first rectangle, from position `k` on, that contains the point; -1 when none does. */
  function FirstContaining(rects: seq<Rect>, px: real, py: real, k: nat): (i: int)
    requires k <= |rects|
    ensures i == -1 || k <= i < |rects|
    decreases |rects| - k
  {
    if k == |rects| then -1
    else if PointIsInRectangle(px, py, rects[k]) then k
    else FirstContaining(rects, px, py, k + 1)
  }

  /** The scan finds the first containing rectangle from `k` on, and -1 exactly when there is none. */
  lemma {:induction false} FirstContainingIsFirst(rects: seq<Rect>, px: real, py: real, k: nat)
    requires k <= |rects|
    ensures var i := FirstContaining(rects, px, py, k);
      (i >= 0 ==> PointIsInRectangle(px, py, rects[i]) && forall j :: k <= j < i ==> !PointIsInRectangle(px, py, rects[j])) &&
      (i == -1 <==> forall j :: k <= j < |rects| ==> !PointIsInRectangle(px, py, rects[j]))
    decreases |rects| - k
  {
    if k < |rects| && !PointIsInRectangle(px, py, rects[k]) {
      FirstContainingIsFirst(rects, px, py, k + 1);
    }
  }

  /** `context_labels[index]` with Python's negative indexing: index -1 is the last label, "yellow". */
  function ContextLabelAt(index: int): string
    requires -1 <= index < |ContextLabels|
  {
    if index == -1 then ContextLabels[|ContextLabels| - 1] else ContextLabels[index]
  }

  /**
   * The room lookup shared by both spaces: the first rectangle containing the point, with its colour.
   * No match gives index -1 and, through negative indexing, the colour "yellow" (not a "none" label).
   */
  function RoomByLocation(rects: seq<Rect>, px: real, py: real): (r: (int, string))
    requires |rects| == |ContextLabels|
    ensures -1 <= r.0 < |rects|
  {
    var i := FirstContaining(rects, px, py, 0);
    (i, ContextLabelAt(i))
  }

  /**
   * The room is the first rectangle that contains the point, with that room's colour; index -1 and
   * "yellow" exactly when no rectangle contains it; the colour is always one of the context labels.
   */
  lemma RoomByLocationIsFirstMatch(rects: seq<Rect>, px: real, py: real)
    requires |rects| == |ContextLabels|
    ensures var r := RoomByLocation(rects, px, py);
      (r.0 >= 0 ==> PointIsInRectangle(px, py, rects[r.0]) && r.1 == ContextLabels[r.0]) &&
      (r.0 >= 0 ==> forall j :: 0 <= j < r.0 ==> !PointIsInRectangle(px, py, rects[j])) &&
      (r.0 == -1 <==> forall j :: 0 <= j < |rects| ==> !PointIsInRectangle(px, py, rects[j])) &&
      (r.0 == -1 ==> r.1 == "yellow") &&
      r.1 in ContextLabels
  {
    FirstContainingIsFirst(rects, px, py, 0);
  }

  /** test2d_get_room_by_location: the room of a point in 2D test-image space. */
  function Test2dRoomByLocation(px: real, py: real): (r: (int, string))
  {
    RoomByLocation(TestContextBoundaries, px, py)
  }

  /** nav_get_room_by_location: the room of an (x, z) point in navigation space. */
  function NavRoomByLocation(px: real, py: real): (r: (int, string))
  {
    RoomByLocation(StudyContextBoundaries, px, py)
  }

  /** In navigation space, a point inside a room's rectangle is classified as that room. */
  lemma NavRoomOfPointInside(px: real, py: real, i: nat)
    requires i < |StudyContextBoundaries| && PointIsInRectangle(px, py, StudyContextBoundaries[i])
    ensures NavRoomByLocation(px, py) == (i, ContextLabels[i])
  {
  }

  /** In 2D test-image space, a point inside a room's quadrant is classified as that room. */
  lemma Test2dRoomOfPointInside(px: real, py: real, i: nat)
    requires i < |TestContextBoundaries| && PointIsInRectangle(px, py, TestContextBoundaries[i])
    ensures Test2dRoomByLocation(px, py) == (i, ContextLabels[i])
  {
  }

  /**
   * In navigation space a point is in no room exactly when it lies outside the square the four rooms
   * tile, or on one of the two walls between them (x = 27.5 or z = 37.5); it is then reported with
   * index -1 and colour "yellow", the same colour as the yellow room itself.
   */
  lemma NavOutsideRoomsIsYellow(px: real, py: real)
    ensures NavRoomByLocation(px, py).0 == -1 <==>
      px <= -12.5 || px >= 67.5 || py <= -2.5 || py >= 77.5 || px == 27.5 || py == 37.5
    ensures NavRoomByLocation(px, py).0 == -1 ==> NavRoomByLocation(px, py).1 == "yellow"
  {
    RoomByLocationIsFirstMatch(StudyContextBoundaries, px, py);
    var r := StudyContextBoundaries;
    assert r[0] == Rect(-12.5, 37.5, 40.0, 40.0) && r[1] == Rect(27.5, 37.5, 40.0, 40.0);
    assert r[2] == Rect(-12.5, -2.5, 40.0, 40.0) && r[3] == Rect(27.5, -2.5, 40.0, 40.0);
  }

  /**
   * In 2D test-image space a point is in no quadrant exactly when it lies outside the 750 by 750 square
   * or on one of the axes; it is then reported with index -1 and colour "yellow".
   */
  lemma Test2dOutsideRoomsIsYellow(px: real, py: real)
    ensures Test2dRoomByLocation(px, py).0 == -1 <==>
      px <= -375.0 || px >= 375.0 || py <= -375.0 || py >= 375.0 || px == 0.0 || py == 0.0
    ensures Test2dRoomByLocation(px, py).0 == -1 ==> Test2dRoomByLocation(px, py).1 == "yellow"
  {
    RoomByLocationIsFirstMatch(TestContextBoundaries, px, py);
    var r := TestContextBoundaries;
    assert r[0] == Rect(-375.0, 0.0, 375.0, 375.0) && r[1] == Rect(0.0, 0.0, 375.0, 375.0);
    assert r[2] == Rect(-375.0, -375.0, 375.0, 375.0) && r[3] == Rect(0.0, -375.0, 375.0, 375.0);
  }

  /** Whether `name`, after `strip()`, is one of the labels of the chosen space. */
  predicate IsLabel(name: string, test2d: bool)
  {
    Strip(name) in (if test2d then TestLabels else StudyLabels)
  }

  /** get_location_by_name: the expected coordinates of an item, by its (stripped) name. */
  function GetLocationByName(name: string, test2d: bool): (loc: (int, int))
    requires IsLabel(name, test2d)
  {
    if test2d then LocationIn(TestLabels, TestRealX, TestRealY, Strip(name))
    else LocationIn(StudyLabels, StudyRealX, StudyRealY, Strip(name))
  }

  /** The coordinates listed for the first occurrence of `name` in a label table. */
  function LocationIn(labels: seq<string>, xs: seq<int>, ys: seq<int>, name: string): (loc: (int, int))
    requires |labels| == |xs| == |ys| && name in labels
  {
    var i := IndexOf(labels, name);
    (xs[i], ys[i])
  }

  /** Item `i`'s expected coordinates in the chosen space. */
  function ExpectedLocation(i: nat, test2d: bool): (int, int)
    requires i < ItemCount
  {
    if test2d then (TestRealX[i], TestRealY[i]) else (StudyRealX[i], StudyRealY[i])
  }

  /** The coordinates an item is looked up to are those its stripped name is listed with in the chosen table. */
  lemma GetLocationByNameIsListed(name: string, test2d: bool) returns (i: nat)
    requires IsLabel(name, test2d)
    ensures i < ItemCount && (if test2d then TestLabels else StudyLabels)[i] == Strip(name)
    ensures GetLocationByName(name, test2d) == ExpectedLocation(i, test2d)
  {
    i := IndexOf(if test2d then TestLabels else StudyLabels, Strip(name));
  }

  /** Every label of both tables is its own strip, so looking one up never fails. */
  lemma LabelsAreStripped(name: string, test2d: bool)
    requires name in (if test2d then TestLabels else StudyLabels)
    ensures Strip(name) == name && IsLabel(name, test2d)
  {
    if test2d {
      LabelEnds(name, TestLabels);
    } else {
      LabelEnds(name, StudyLabels);
    }
    StripUnchanged(name);
  }

  /** No label of either table is empty or starts or ends with white space. */
  lemma LabelEnds(name: string, labels: seq<string>)
    requires labels == TestLabels || labels == StudyLabels
    requires name in labels
    ensures |name| > 0 && !IsSpace(name[0]) && !IsSpace(name[|name| - 1])
  {
    var i :| 0 <= i < |labels| && labels[i] == name;
  }

  /** The room a label's item belongs to: the first group of ContextItemIndices holding its index. */
  function ExpectedRoomOfIndex(index: nat): (c: string)
    requires index < ItemCount
    ensures c in ContextLabels
    ensures exists g :: 0 <= g < |ContextItemIndices| && index in ContextItemIndices[g] && c == ContextLabels[g]
  {
    if index in ContextItemIndices[0] then ContextLabels[0]
    else if index in ContextItemIndices[1] then ContextLabels[1]
    else if index in ContextItemIndices[2] then ContextLabels[2]
    else assert index in ContextItemIndices[3]; ContextLabels[3]
  }

  /**
   * The tables agree with each other: every item's expected navigation coordinates lie inside the room
   * ContextItemIndices assigns it to, and the same holds for its expected 2D-test coordinates.
   */
  lemma ExpectedLocationsLieInExpectedRooms(i: nat)
    requires i < ItemCount
    ensures NavRoomByLocation(StudyRealX[i] as real, StudyRealY[i] as real).1 == ExpectedRoomOfIndex(i)
    ensures Test2dRoomByLocation(TestRealX[i] as real, TestRealY[i] as real).1 == ExpectedRoomOfIndex(i)
    ensures NavRoomByLocation(StudyRealX[i] as real, StudyRealY[i] as real).0 != -1
  {
    ExpectedNavLocations(i);
    ExpectedTestLocations(i);
  }

  lemma ExpectedNavLocations(i: nat)
    requires i < ItemCount
    ensures NavRoomByLocation(StudyRealX[i] as real, StudyRealY[i] as real).1 == ExpectedRoomOfIndex(i)
    ensures NavRoomByLocation(StudyRealX[i] as real, StudyRealY[i] as real).0 != -1
  {
  }

  lemma ExpectedTestLocations(i: nat)
    requires i < ItemCount
    ensures Test2dRoomByLocation(TestRealX[i] as real, TestRealY[i] as real).1 == ExpectedRoomOfIndex(i)
  {
  }
}
