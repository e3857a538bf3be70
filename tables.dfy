/**
 * The fixed configuration of the study: the sixteen items under their 2D-test and navigation names,
 * their expected coordinates in both spaces, the four coloured rooms of each space and the items
 * that belong to each room.
 */
module Tables {

  /** An axis-aligned rectangle: lower-left corner (x, y), width w, height h. */
  datatype Rect = Rect(x: real, y: real, w: real, h: real)

  /** Lines of a 2D-test results file that come before the first item line. */
  const TestSkipLines: nat := 124

  const TestLabels: seq<string> := ["purse", "crown", "basketball", "boot", "emerald", "clover", "bandana",
    "guitar", "fire extinguisher", "hammer", "lemon", "ice cube", "bottle", "ketchup", "boxing gloves", "crab"]
  const TestRealX: seq<int> := [-210, -163, -163, 211, -163, 352, 71, -117, 71, 258, -304, -304, -70, 305, 305, 305]
  const TestRealY: seq<int> := [-211, -304, -70, -258, 164, -211, -211, 258, 258, 258, -117, 258, 70, 211, -70, 70]
  /** The four rooms of the 2D test image: four equal quadrants of a 750 x 750 square. */
  const TestContextBoundaries: seq<Rect> := [Rect(-375.0, 0.0, 375.0, 375.0), Rect(0.0, 0.0, 375.0, 375.0),
    Rect(-375.0, -375.0, 375.0, 375.0), Rect(0.0, -375.0, 375.0, 375.0)]

  const StudyLabels: seq<string> := ["PurseCube", "CrownCube", "BasketballCube", "BootCube", "EmeraldCube",
    "CloverCube", "BandanaCube", "GuitarCube", "FireExtCube", "HammerCube", "LemonCube", "IceCubeCube",
    "BottleCube", "KetchupCube", "BoxingGloveCube", "CrabCube"]
  const StudyRealX: seq<int> := [5, 10, 10, 50, 10, 65, 35, 15, 35, 55, -5, -5, 20, 60, 60, 60]
  const StudyRealY: seq<int> := [15, 5, 30, 10, 55, 15, 15, 65, 65, 65, 25, 65, 45, 60, 30, 45]
  /** The four rooms of the navigation space, in (x, z) coordinates. */
  const StudyContextBoundaries: seq<Rect> := [Rect(-12.5, 37.5, 40.0, 40.0), Rect(27.5, 37.5, 40.0, 40.0),
    Rect(-12.5, -2.5, 40.0, 40.0), Rect(27.5, -2.5, 40.0, 40.0)]

  const ContextLabels: seq<string> := ["red", "green", "blue", "yellow"]
  /** Item indices (into the label tables) that belong to each room, in the order of ContextLabels. */
  const ContextItemIndices: seq<seq<nat>> := [[4, 7, 11, 12], [8, 9, 13, 15], [0, 1, 2, 10], [3, 5, 6, 14]]

  /** Room-crossing item pairs; declared with the tables but read by no operation of the core. */
  const TriplesLabels: seq<string> := ["red->green", "green->yellow", "yellow->blue", "blue->red"]
  const ContextCrossingTriplesIndices: seq<(nat, nat)> := [(7, 8), (15, 14), (6, 0), (2, 4)]
  const NoncontextCrossingTriplesIndices: seq<(nat, nat)> := [(11, 7), (13, 15), (5, 6), (1, 2)]

  /** The number of items, len(study_labels). */
  const ItemCount: nat := 16
}
