# Holodeck log-parsing core, modelled in Dafny

The Holodeck experiment has participants study sixteen items placed in four coloured rooms of a virtual
environment. They are then tested on where the items belong, once in a 2D image and once back in the
virtual environment. The helper library `Holodeck_HelperFunctions.py` turns the experiment's raw logs into
tables. This project models that library's core:

- **Fixed tables** (`Tables`). The item labels under their 2D-test and navigation names, the items'
  expected coordinates, the room rectangles, the room colours and each room's items.
- **Region classification** (`Regions`). The first room rectangle that strictly contains a point. A point
  in no room is reported as index -1 with the colour at Python index -1, "yellow". The expected location
  of an item name, and the room colour of an item index.
- **The summary-log parser** (`SummaryLog`). It detects the schema from the clicked and placed markers and
  skips the header line. Clock lines give times relative to the first nonzero clock. Record lines give
  event type, item and location under the schema. The incomplete-accounting warning is a flag.
- **The path and look time-series pass** (`TimeSeries`). One step function and one loop serve both log
  variants. The pass reads the clock and samples behind the controller or camera marker. It advances a
  cursor over the summary events to count items placed or clicked. It numbers the rooms in the order they
  are entered and emits one row per sample.
- **The room-colour visit order** (`ContextOrder`). The mapping from colour to visit order that both test
  reconcilers build from the study summary: a colour gets the number of colour changes seen when it first
  appears.
- **The 2D test reconciler** (`TestReconcile`). It skips the preamble, reads one placement line per item
  and raises `LogParseError` on a short file. For each item it reports where the item was placed, where it
  belonged, and the room order and colour of both.
- **The VR test reconciler** (`VrReconcile`). On an item's first event, it scans the later events of that
  item. Each later event is half a replacement, and the last one gives the placement time. Each item is
  reported once, in order of first appearance.
- **File cataloguing** (`Timestamps`, `Catalog`, `Trials`, `Individuals`):
  - `extract_date_time_from_filename_custom`, which decodes the two file-name timestamp formats.
  - The classification of file names into raw logs, summary logs, 2D test results and the rest.
  - Grouping by subject id and phase keyword.
  - The stable sort of each phase list by timestamp, and the index-zip of the lists into trials.
  - The `Trial` and `Individual` records: completeness, the date check and the trial-number requirement.
  - The final catalog of individuals, excluded files and non-matching files.

Where the source loops and updates variables, the model has a `method` with a loop. Each such method is
proved equal to a specification function or predicate. The properties are lemmas about those functions.

Uncaught Python exceptions are modelled as `Err` values with a `Fault` that names the exception:
`IndexError`, `ValueError`, `KeyError`, `TypeError`, or the module's own `LogParseError`. This covers:

- a log file name without a subject id;
- a grouped file name without a timestamp;
- a summary cursor that runs past the event list in the time-series pass;
- the VR forward scan that runs past the label list;
- a VR location of the wrong length;
- a short 2D results file.

The model follows the code in these places:

- **Every matching keyword group.** A raw or summary log whose name mentions several phase keywords is
  filed under every one of them, because the keyword loop does not stop at the first match.
- **Date-mismatched trials.** A trial whose dates do not match is dropped. Its files go to neither the
  individuals nor the excluded files. Only trials dropped as incomplete add their files to the excluded
  files.
- **Placed coordinates in the VR reconciler.** The length check reads the last event's location, but the
  coordinates come from the item's first event (lines 791-796). The model does the same; see
  `VrReconcile.VrItemEvents`.
- **Item id of a 2D row.** The row reports the label at the loop position `test_labels[j]`. The expected
  location and the rooms come from the label written on the line.
- **Missing timestamp.** For a file name with no timestamp, `extract_date_time_from_filename_custom`
  passes `None` to `time.mktime` (line 134), which raises `TypeError`. The model reports this as
  `Err(TypeError)` from the sorting step.

## Model

| member | source | states |
|---|---|---|
| Regions.FirstContainingIsFirst | Holodeck_HelperFunctions.py:838-862 | the room scan returns the first rectangle that strictly contains the point; it returns -1 exactly when no rectangle does |
| Regions.RoomByLocationIsFirstMatch | Holodeck_HelperFunctions.py:844-862 | the index is the first containing room and the label is that room's colour; with no containing room the index is -1 and the colour is "yellow"; the colour is always one of the four room colours |
| Regions.NavRoomOfPointInside | Holodeck_HelperFunctions.py:856-862 | a point strictly inside navigation room i is reported as room i with its colour |
| Regions.Test2dRoomOfPointInside | Holodeck_HelperFunctions.py:846-852 | a point strictly inside 2D room i is reported as room i with its colour |
| Regions.NavOutsideRoomsIsYellow | Holodeck_HelperFunctions.py:856-862 | a navigation point is in no room exactly when it is outside the square the rooms tile or on the wall x = 27.5 or z = 37.5; it is then reported as (-1, "yellow") |
| Regions.Test2dOutsideRoomsIsYellow | Holodeck_HelperFunctions.py:846-852 | a 2D point is in no quadrant exactly when it is outside the 750 by 750 square or on an axis; it is then reported as (-1, "yellow") |
| Regions.GetLocationByNameIsListed | Holodeck_HelperFunctions.py:866-873 | the stripped name is at some index of the chosen label table, and the result is the expected coordinates at that index |
| Regions.LabelsAreStripped | Holodeck_HelperFunctions.py:866-873 | every table label equals its own strip, so each label is a valid lookup name |
| Regions.ExpectedRoomOfIndex | Holodeck_HelperFunctions.py:699-704 | the colour found for an item index is the colour of a room whose item group contains that index |
| Regions.ExpectedLocationsLieInExpectedRooms | Holodeck_HelperFunctions.py:12-35 | every item's expected location, in navigation and in 2D space, lies in the room its group assigns it to; no navigation location is in the "outside" case |
| SummaryLog.AnyContains | Holodeck_HelperFunctions.py:398-401 | true exactly when some line contains the marker |
| SummaryLog.DetectSchemaCharacterised | Holodeck_HelperFunctions.py:397-401 | the schema is study/practice iff some line holds the clicked marker; it is test iff none does and some line holds the placed marker |
| SummaryLog.ParseSummary | Holodeck_HelperFunctions.py:383-440 | the schema is the detected one; event types, items and locations are lists of one length; the incomplete flag is set iff there are fewer times than expected elements |
| SummaryLog.ParseSummaryFile | Holodeck_HelperFunctions.py:383-440 | the line loop computes the parse specification |
| SummaryLog.ParseLine | Holodeck_HelperFunctions.py:404-432 | one pass of the loop body is one specification step |
| SummaryLog.ParseRecord | Holodeck_HelperFunctions.py:418-432 | a record line yields the schema's record |
| SummaryLog.TestRecord | Holodeck_HelperFunctions.py:419-426 | a test record carries three coordinates |
| SummaryLog.StudyRecordNamesItem | Holodeck_HelperFunctions.py:427-432 | a study record names a navigation item, and its location is that item's table coordinates |
| SummaryLog.EventRecordFacts | Holodeck_HelperFunctions.py:418-432 | study records name navigation items at their table coordinates; test records carry three coordinates |
| SummaryLog.OriginIsFirstNonzero | Holodeck_HelperFunctions.py:409-417 | the time origin is zero iff every clock is zero; otherwise it is the first nonzero clock value |
| SummaryLog.RelativeAt | Holodeck_HelperFunctions.py:409-417 | the k-th time is the k-th clock minus the origin fixed by the clocks up to k |
| SummaryLog.RelativeExtends | Holodeck_HelperFunctions.py:409-417 | a new clock keeps an established origin or becomes it, and appends its difference to the origin |
| SummaryLog.StepTimes | Holodeck_HelperFunctions.py:409-417 | a clock line appends its time relative to the origin, setting the origin if it was zero; other lines leave the times |
| SummaryLog.RunTimes | Holodeck_HelperFunctions.py:404-417 | after the loop the origin is the first nonzero clock and the times are all clocks relative to it |
| SummaryLog.SummaryTimes | Holodeck_HelperFunctions.py:383-440 | the parsed times are the body's clock values relative to their origin |
| SummaryLog.FirstTimeIsZero | Holodeck_HelperFunctions.py:409-412 | the first time is 0 |
| SummaryLog.TimesRelativeToFirstClock | Holodeck_HelperFunctions.py:409-417 | when the first clock is nonzero, each time is its clock minus the first clock |
| SummaryLog.HeaderOnlySelectsSchema | Holodeck_HelperFunctions.py:404-408 | the first line is skipped: two files that differ only there parse to the same times |
| SummaryLog.StepEvents | Holodeck_HelperFunctions.py:418-432 | a record line under a known schema appends one record to all three lists; clock lines and the unknown schema leave them |
| SummaryLog.RunEvents | Holodeck_HelperFunctions.py:404-432 | under a known schema there is one event per non-clock line, and event k is the record read from the k-th non-clock line; there are none under the unknown schema; study items are navigation items at their coordinates; test locations are triples |
| SummaryLog.RunEventRecords | Holodeck_HelperFunctions.py:404-432 | under a known schema the k-th event type, object type and location are the fields of the k-th non-clock line |
| SummaryLog.SummaryEvents | Holodeck_HelperFunctions.py:383-440 | the same facts stated for the parse result, including the record of each event line |
| TimeSeries.SampleOffset | Holodeck_HelperFunctions.py:481-486 | a path log line is a sample iff it holds the controller marker, read from offset 29 for the test controller and 24 otherwise; a look log line is a sample iff it holds the camera marker, read from offset 12 |
| TimeSeries.Reported | Holodeck_HelperFunctions.py:534-535 | a path row reports the position, v[0..3]; a look row reports the rotation, v[3..7] |
| TimeSeries.TestDelta | Holodeck_HelperFunctions.py:506-510 | a test event adds 1 iff its type mentions "placed" and subtracts 1 iff it mentions "picked" but not "placed" |
| TimeSeries.NetBySchema | Holodeck_HelperFunctions.py:505-513 | after c consumed events the count is c for study/practice and 0 for the unknown schema, and lies between -c and c |
| TimeSeries.Clock | Holodeck_HelperFunctions.py:474-479 | a clock line touches only the clock fields |
| TimeSeries.ProcessLine | Holodeck_HelperFunctions.py:472-540 | one pass of the loop body is one specification step |
| TimeSeries.CountEvent | Holodeck_HelperFunctions.py:506-512 | the item count changes by the consumed event's delta |
| TimeSeries.ProcessSample | Holodeck_HelperFunctions.py:487-540 | one sample is one specification step |
| TimeSeries.NextContext | Holodeck_HelperFunctions.py:520-528 | the room number grows by one exactly when the room colour differs from the previous one, which becomes the current colour |
| TimeSeries.ParseTimeSeriesFile | Holodeck_HelperFunctions.py:446-542 | the line loop computes the time-series specification, including its IndexError |
| TimeSeries.RunStaysFailed | Holodeck_HelperFunctions.py:446-542 | once the pass has raised, the remaining lines do not change the result |
| TimeSeries.SampleKeeps | Holodeck_HelperFunctions.py:493-540 | a sample keeps the cursor invariant and the row chain, appends exactly one row, and moves the cursor by at most one |
| TimeSeries.ChainExtends | Holodeck_HelperFunctions.py:493-540 | a row extends the chain when its time gap, previous position and room number follow from the last row; the first row has time 0 |
| TimeSeries.StepKeeps | Holodeck_HelperFunctions.py:472-540 | a line keeps the invariants; non-sample lines add no row and keep the cursor; a sample adds one row |
| TimeSeries.StepFails | Holodeck_HelperFunctions.py:505-507 | a step raises IndexError exactly for a test-schema sample whose time reaches the cursor's event when the cursor has run past the event list |
| TimeSeries.RunKeeps | Holodeck_HelperFunctions.py:472-540 | the whole pass keeps the cursor invariant and the row chain |
| TimeSeries.TimeSeriesRows | Holodeck_HelperFunctions.py:446-542 | the rows are chained; there is one row per sample line, in order, and row k holds that line's x, y, z and the numbers its log kind reports; row k consumes the next summary event exactly when its time reaches that event, and its item count is the net count of the events consumed so far; each row after the first is timed by the last clock value read after the origin was fixed, minus the origin |
| TimeSeries.RunClock | Holodeck_HelperFunctions.py:473-478 | t0 is the first non-zero clock value read so far, and tn the last clock value read after the origin was fixed |
| TimeSeries.CountTraceBounds | Holodeck_HelperFunctions.py:500-510 | the per-row cursor starts at 0 or 1, grows by at most one per row, and never passes the number of summary times or rows |
| TimeSeries.RunTrace | Holodeck_HelperFunctions.py:472-540 | every prefix of the pass has the per-row sample positions, numbers read, cursors and times that TimeSeriesRows states; the pass's cursor is the last row's |
| TimeSeries.TraceStep | Holodeck_HelperFunctions.py:472-540 | one more line keeps the per-row traces: a sample line adds its own position, numbers, cursor and time |
| TimeSeries.StepRow | Holodeck_HelperFunctions.py:480-535 | a sample line appends one row holding the line's x, y, z and reported numbers, whose cursor move and item count follow the summary times, timed by the clocks after the line |
| TimeSeries.RoomOrderNeverDecreases | Holodeck_HelperFunctions.py:520-528 | along the rows the room number never decreases |
| ContextOrder.StudyRoomOf | Holodeck_HelperFunctions.py:740 | a study item's room colour is one of the four colours |
| ContextOrder.ZipLength | Holodeck_HelperFunctions.py:738-739 | zip stops at the shortest of the four lists |
| ContextOrder.ColorsUpTo | Holodeck_HelperFunctions.py:738-740 | one colour per zipped event |
| ContextOrder.OrdersKeep | Holodeck_HelperFunctions.py:734-748 | the loop keeps its invariant: the keys are the colours seen, each valued at the colour changes up to its first appearance |
| ContextOrder.OrderStepKeeps | Holodeck_HelperFunctions.py:741-748 | one loop step keeps that invariant |
| ContextOrder.OrderMapCharacterised | Holodeck_HelperFunctions.py:734-748 | the mapping's keys are exactly the colours visited, and each colour maps to the number of changes up to its first visit |
| ContextOrder.FirstColorIsZero | Holodeck_HelperFunctions.py:741-743 | the first colour visited maps to 0 |
| ContextOrder.OrderMapNeverReassigned | Holodeck_HelperFunctions.py:746-747 | later events never change a colour's value once it is set |
| ContextOrder.MapValueAt | Holodeck_HelperFunctions.py:734-748 | a colour is a key iff it was visited, and its value is the change count at its first visit |
| ContextOrder.ChangesPrefixMonotone | Holodeck_HelperFunctions.py:744-745 | the change counter never decreases along the events |
| ContextOrder.ContextColorOrderMapping | Holodeck_HelperFunctions.py:734-748 | the loop computes the colour-order mapping of the study's colours |
| ContextOrder.NextOrder | Holodeck_HelperFunctions.py:741-748 | the loop body is one step of the mapping specification |
| TestReconcile.OrderClickedStudy | Holodeck_HelperFunctions.py:690-696 | the study order is the first index of the item among the study items, or None |
| TestReconcile.ExpectedRoomByColor | Holodeck_HelperFunctions.py:699-704 | the loop finds the colour of the room whose item group holds the index |
| TestReconcile.Test2dRows | Holodeck_HelperFunctions.py:674-722 | the reconciler fails iff the file has fewer lines than the preamble plus one per item, and then with LogParseError; otherwise it gives one row per item |
| TestReconcile.ParseTest2dFile | Holodeck_HelperFunctions.py:648-722 | the line loop computes the 2D specification |
| TestReconcile.Placement2dRow | Holodeck_HelperFunctions.py:682-720 | the loop body computes the row of one placement line |
| TestReconcile.Placement2dRowFacts | Holodeck_HelperFunctions.py:682-720 | the row carries the loop position's label and the line item's expected location and room colour; that location lies in that room; the actual colour is the room of the placed point; both orders come from the mapping; the study order is the first index of the study name; an item placed exactly at its expected spot has the expected room |
| TestReconcile.Test2dRowAt | Holodeck_HelperFunctions.py:679-720 | with enough lines, row j is the row of line preamble + j, under the study's colour order |
| VrReconcile.Scan | Holodeck_HelperFunctions.py:767-771 | the forward scan ends at an in-range event index with a move count no smaller than it started, or fails with IndexError |
| VrReconcile.ScanResult | Holodeck_HelperFunctions.py:767-771 | the scan fails iff it starts in range and there are fewer labels than times; otherwise it counts the item's later occurrences, and ends on the item's last later event (or the start) with no occurrence after it |
| VrReconcile.PlacedPoint | Holodeck_HelperFunctions.py:791-798 | LogParseError iff the last location has neither 2 nor 3 coordinates; IndexError iff the first location is too short; otherwise (x, y) or (x, z) of the first location |
| VrReconcile.ReplacementsAreHalfMoves | Holodeck_HelperFunctions.py:764-771 | the replacement count is half the number of later events of the item |
| VrReconcile.ParseTestVrFile | Holodeck_HelperFunctions.py:728-817 | the reconciler computes the VR specification under the study's colour order |
| VrReconcile.ReconcileVr | Holodeck_HelperFunctions.py:750-817 | the event loop computes the collection of first-encounter rows |
| VrReconcile.VisitEvent | Holodeck_HelperFunctions.py:756-765 | one event: a repeated item is skipped, a new one is processed; the processed list stays the set of items seen |
| VrReconcile.FirstEncounter | Holodeck_HelperFunctions.py:762-815 | a first encounter appends its item's row or ends the loop with its fault |
| VrReconcile.ProcessVrItem | Holodeck_HelperFunctions.py:762-815 | the body for a new item computes that item's row or fault |
| VrReconcile.ScanLaterEvents | Holodeck_HelperFunctions.py:764-771 | the scan loop fails iff the scan specification does; otherwise it returns the last event and half the move count |
| VrReconcile.PlacedCoordinates | Holodeck_HelperFunctions.py:791-798 | the branch computes the placed point specification |
| VrReconcile.PlacementRow | Holodeck_HelperFunctions.py:777-815 | the row assembly computes the row specification |
| VrReconcile.CollectSkips | Holodeck_HelperFunctions.py:759-761 | an item seen before adds no row |
| VrReconcile.CollectAppends | Holodeck_HelperFunctions.py:762-815 | a new item appends its row, or its fault ends the run |
| VrReconcile.CollectStaysFailed | Holodeck_HelperFunctions.py:756-817 | a fault is final: later events do not change the result |
| VrReconcile.VrItemIsRowOf | Holodeck_HelperFunctions.py:762-815 | a successful item row is the row of its item, its placed point, its move count and its last event's time |
| VrReconcile.RowOfRooms | Holodeck_HelperFunctions.py:777-815 | the row carries the item, the placed point, the replacements and the time; its expected colour is the item's room, which holds its expected location; its actual colour is the room of the placed point; both orders come from the mapping; the study order is the first index; an item placed at its expected spot has the expected room |
| VrReconcile.LastEvent | Holodeck_HelperFunctions.py:767-771 | a successful scan ends on the item's last event, with the count of its later occurrences |
| VrReconcile.VrItemEvents | Holodeck_HelperFunctions.py:762-815 | the row's time is the last event's time, the replacements are half the later occurrences, the last location has 2 or 3 coordinates, and the placed coordinates come from the first event |
| VrReconcile.VrItemFaults | Holodeck_HelperFunctions.py:762-809 | each fault has its cause: IndexError from the scan, ValueError for an unknown item, LogParseError for a bad location length, KeyError for a colour missing from the mapping |
| VrReconcile.PutBackOnce | Holodeck_HelperFunctions.py:764-771 | any three events of one item, whatever their types: one replacement, and the time of the third event |
| VrReconcile.MoreTimesThanLabels | Holodeck_HelperFunctions.py:767-768 | with more times than labels, the reconciler raises IndexError |
| VrReconcile.FirstPositions | Holodeck_HelperFunctions.py:756-761 | the first-appearance positions lie below the bound |
| VrReconcile.CollectRows | Holodeck_HelperFunctions.py:756-817 | the rows correspond one to one, in order, to the first appearances of items |
| VrReconcile.FirstPositionsAreFirst | Holodeck_HelperFunctions.py:756-761 | each listed position is an item's first appearance, and the positions increase |
| VrReconcile.FirstPositionsComplete | Holodeck_HelperFunctions.py:756-761 | every first appearance is listed |
| VrReconcile.FirstPositionsDistinct | Holodeck_HelperFunctions.py:756-761 | listed positions name different items |
| VrReconcile.VrRowIsFirstEncounter | Holodeck_HelperFunctions.py:728-817 | row j is the item row of the j-th first appearance |
| VrReconcile.VrRowIdsDistinct | Holodeck_HelperFunctions.py:728-817 | no item is reported twice |
| VrReconcile.VrEveryItemReported | Holodeck_HelperFunctions.py:728-817 | every item of the zipped events is reported |
| Timestamps.StampLeTotal | Holodeck_HelperFunctions.py:262-271 | the field-wise timestamp order is total and antisymmetric |
| Timestamps.StampLeTransitive | Holodeck_HelperFunctions.py:262-271 | the field-wise timestamp order is transitive |
| Timestamps.FirstMatch | Holodeck_HelperFunctions.py:123-131 | the search finds the leftmost match of the pattern, or reports that none exists |
| Timestamps.ExtractDateTimeDecides | Holodeck_HelperFunctions.py:119-134 | the second format wins at its leftmost match; without it, the first format is decoded at its leftmost match |
| Timestamps.Two | Holodeck_HelperFunctions.py:123-124 | a two-digit rendering reads back as its number |
| Timestamps.Four | Holodeck_HelperFunctions.py:123-124 | a four-digit rendering reads back as its number |
| Timestamps.RoundTripA | Holodeck_HelperFunctions.py:123-134 | a timestamp written in the first format (12-hour with AM/PM) is decoded back to itself |
| Timestamps.RoundTripB | Holodeck_HelperFunctions.py:123-134 | a timestamp written in the second format is decoded back to itself |
| Timestamps.RenderAHasNoB | Holodeck_HelperFunctions.py:123-131 | a first-format name contains no second-format match, so the first branch is taken |
| Timestamps.DecodeRenderA | Holodeck_HelperFunctions.py:128-129 | decoding a first-format rendering at position 0 gives back the timestamp |
| Catalog.AfterFirstExact | Holodeck_HelperFunctions.py:147-149 | the marker search succeeds iff the marker occurs, and returns the end of its first occurrence |
| Catalog.OfKind | Holodeck_HelperFunctions.py:152-160 | a kind's file list is no longer than the input |
| Catalog.KindsPartition | Holodeck_HelperFunctions.py:152-160 | the four kind lists together are a permutation of the input |
| Catalog.OfKindMembers | Holodeck_HelperFunctions.py:152-160 | a file is in a kind's list iff it is an input file of that kind |
| Catalog.ClassifyFiles | Holodeck_HelperFunctions.py:152-160 | the classification loop builds the four kind lists |
| Catalog.BasenameIsLastPiece | Holodeck_HelperFunctions.py:170-171 | the base name is the suffix after the last separator and holds no separator |
| Catalog.LogSubjectId | Holodeck_HelperFunctions.py:170-172 | reading the subject id raises IndexError exactly when the base name has no underscore |
| Catalog.KeywordIndex | Holodeck_HelperFunctions.py:176-189 | a phase is stored by one keyword of the pass, or by none |
| Catalog.InsertLookup | Holodeck_HelperFunctions.py:178-189 | inserting appends the file to exactly one subject and phase list |
| Catalog.InsertKeys | Holodeck_HelperFunctions.py:178-189 | inserting adds the subject to the keys |
| Catalog.InsertTidy | Holodeck_HelperFunctions.py:178-189 | inserting creates no empty list |
| Catalog.TidyKeys | Holodeck_HelperFunctions.py:178-189 | a subject is a key iff one of its lists is non-empty |
| Catalog.AddToGroup | Holodeck_HelperFunctions.py:178-189 | the nested-dictionary update appends the file to its subject and phase |
| Catalog.GroupLogFile | Holodeck_HelperFunctions.py:168-192 | the body of the raw and summary passes computes one file's grouping |
| Catalog.KeywordLoopFinds | Holodeck_HelperFunctions.py:176-192 | the keyword loop finds a keyword iff the file mentions one |
| Catalog.GroupLogFiles | Holodeck_HelperFunctions.py:166-223 | the raw and summary passes compute the grouping specification |
| Catalog.Group2dFiles | Holodeck_HelperFunctions.py:226-242 | the 2D pass computes the grouping specification |
| Catalog.FileUnderLookup | Holodeck_HelperFunctions.py:176-189 | a file is appended to every phase whose keyword it mentions |
| Catalog.GroupLogsFails | Holodeck_HelperFunctions.py:166-223 | a log pass succeeds iff every file has a subject id, and otherwise raises IndexError |
| Catalog.GroupLogsLookup | Holodeck_HelperFunctions.py:166-223 | each list gains the pass's files of that subject and phase, in order |
| Catalog.GroupLogsOther | Holodeck_HelperFunctions.py:190-192 | the files mentioning no keyword go to other_files, in order |
| Catalog.Group2dLookup | Holodeck_HelperFunctions.py:226-242 | only the 2D phase lists gain files, those of their subject, in order |
| Catalog.GroupAllFiles | Holodeck_HelperFunctions.py:145-242 | classifying and the three passes compute the grouping specification and the non-matching files |
| Catalog.GroupedMembers | Holodeck_HelperFunctions.py:166-242 | a file is in a subject's phase group iff it is an input file filed there |
| Catalog.InGroupPlaced | Holodeck_HelperFunctions.py:166-242 | a file filed anywhere is placed |
| Catalog.PlacedInGroup | Holodeck_HelperFunctions.py:166-242 | a placed file is filed under some subject and phase |
| Catalog.GroupFilesFails | Holodeck_HelperFunctions.py:166-242 | grouping succeeds iff every raw and summary log has a subject id, and otherwise raises IndexError |
| Catalog.GroupFilesLookup | Holodeck_HelperFunctions.py:166-242 | each list of the grouping holds exactly the input files filed there, in input order |
| Catalog.GroupFilesOther | Holodeck_HelperFunctions.py:190-223 | other_files holds exactly the raw and summary logs that mention no phase keyword |
| Catalog.GroupFilesTidy | Holodeck_HelperFunctions.py:166-242 | grouping creates no empty list, so a subject appears iff it has a file |
| Catalog.RawGrouped | Holodeck_HelperFunctions.py:166-192 | the raw pass files exactly the raw logs in each raw phase |
| Catalog.SummaryGrouped | Holodeck_HelperFunctions.py:195-223 | the summary pass files exactly the summary logs in each summary phase |
| Catalog.Test2dGrouped | Holodeck_HelperFunctions.py:226-242 | the 2D pass files exactly the 2D results of each subject |
| Trials.InsertByStamp | Holodeck_HelperFunctions.py:267-271 | one insertion step keeps the multiset and adds the element |
| Trials.SortByStamp | Holodeck_HelperFunctions.py:267-271 | the sort is a permutation of its input |
| Trials.InsertAscending | Holodeck_HelperFunctions.py:267-271 | insertion keeps the list in ascending order |
| Trials.SortAscending | Holodeck_HelperFunctions.py:267-271 | the sorted list is in ascending timestamp order |
| Trials.InsertStable | Holodeck_HelperFunctions.py:267-271 | an inserted element goes behind the elements with its timestamp |
| Trials.SortStable | Holodeck_HelperFunctions.py:267-271 | the sort is stable: files with one timestamp keep their input order |
| Trials.NamesPermutation | Holodeck_HelperFunctions.py:269-271 | unzipping a permutation of the pairs gives a permutation of the names |
| Trials.SortGroupDates | Holodeck_HelperFunctions.py:262-271 | a sorted list still has its timestamps, and re-dating it gives the sorted pairs |
| Trials.SortGroupPermutes | Holodeck_HelperFunctions.py:262-271 | a sorted phase list is a permutation of the list |
| Trials.SortGroupAscending | Holodeck_HelperFunctions.py:262-271 | a sorted phase list of two or more files is in ascending order, and sorting keeps an ascending list ascending |
| Trials.SortGroupStable | Holodeck_HelperFunctions.py:262-271 | files with equal timestamps keep their order |
| Trials.PresentNamesMembers | Holodeck_HelperFunctions.py:92-96 | the filter keeps exactly the non-empty names present |
| Trials.IndividualFiles | Holodeck_HelperFunctions.py:60-64 | an individual's file list holds exactly the files of its trials |
| Trials.CountComplete | Holodeck_HelperFunctions.py:45-57 | there are no more complete trials than trials |
| Trials.MeetsRequirement | Holodeck_HelperFunctions.py:45-57 | the counting loop decides the trial-number requirement |
| Trials.IndividualFileList | Holodeck_HelperFunctions.py:60-64 | the loop builds the individual's file list |
| Trials.CountAllComplete | Holodeck_HelperFunctions.py:45-57 | when every trial is complete, the complete count is the trial count |
| Trials.TripleStamps | Holodeck_HelperFunctions.py:98-114 | one decoded stamp, or none, per file of a triple |
| Trials.TripleDatesMatch | Holodeck_HelperFunctions.py:103-113 | the inner scan reports whether the present files of a triple share one timestamp |
| Trials.AllTrialDatesMatch | Holodeck_HelperFunctions.py:98-114 | a trial's dates match iff, in each phase, path, look and summary share a timestamp |
| Trials.TrialAtComplete | Holodeck_HelperFunctions.py:85-89 | trial i is complete iff every non-practice phase list reaches index i |
| Trials.TrialAtFiles | Holodeck_HelperFunctions.py:273-297 | trial i's files are exactly the non-empty i-th files of the phase lists |
| Trials.TrialAtStamped | Holodeck_HelperFunctions.py:273-297 | a trial built from stamped lists has stamped files |
| Trials.MaxLengthBounds | Holodeck_HelperFunctions.py:258-259 | the maximum bounds every list and is reached by one |
| Trials.TrialCountIsMax | Holodeck_HelperFunctions.py:258-259 | the trial count is the length of the longest phase list |
| Trials.SortedEntry | Holodeck_HelperFunctions.py:247-271 | sorting keeps the entry's phases |
| Trials.SortedEntryLists | Holodeck_HelperFunctions.py:247-271 | each sorted list has the same files and length, in ascending order when it has two or more |
| Trials.SortedMaxLength | Holodeck_HelperFunctions.py:258-271 | sorting does not change the longest length |
| Trials.DateFiles | Holodeck_HelperFunctions.py:262-263 | the dates loop succeeds iff every file has a timestamp, and otherwise raises TypeError |
| Trials.SortList | Holodeck_HelperFunctions.py:262-271 | dating and sorting a list succeeds iff every file has a timestamp, and gives the sorted list |
| Trials.SortPhases | Holodeck_HelperFunctions.py:253-271 | the phase loop succeeds iff the subject's files all have timestamps, and gives the sorted entry and the trial count |
| Trials.BuildTrial | Holodeck_HelperFunctions.py:277-297 | the body of the trial loop builds trial i |
| Trials.PhaseFile | Holodeck_HelperFunctions.py:279-297 | a phase gives its i-th file iff its list is long enough |
| Trials.AssembleTrials | Holodeck_HelperFunctions.py:273-310 | the trial loop computes the kept trials and the dropped files |
| Trials.AssembleKeptAre | Holodeck_HelperFunctions.py:273-310 | every kept trial is the trial built at its own number below n, and passes the filters |
| Trials.AssembleKeeps | Holodeck_HelperFunctions.py:273-310 | trial i is kept iff i is below n and the trial passes the filters |
| Trials.AssembleOrdered | Holodeck_HelperFunctions.py:273-310 | the kept trials are in increasing number |
| Trials.AssembleDropped | Holodeck_HelperFunctions.py:300-303 | a file is dropped iff it belongs to a trial below n that the policy drops as incomplete |
| Trials.AssembleRequirement | Holodeck_HelperFunctions.py:45-57 | with incomplete trials excluded, the requirement counts all kept trials |
| Individuals.BuildIndividual | Holodeck_HelperFunctions.py:247-310 | building a subject succeeds iff its files have timestamps, and otherwise raises TypeError |
| Individuals.Members | Holodeck_HelperFunctions.py:318-321 | the set of a list has exactly its elements |
| Individuals.BuildIndividuals | Holodeck_HelperFunctions.py:247-315 | the subject loop succeeds iff every subject's files have timestamps; it keeps the admitted individuals, and other_files gains the dropped files |
| Individuals.CatalogFiles | Holodeck_HelperFunctions.py:138-321 | the procedure computes the catalog specification |
| Individuals.GroupsStampedIff | Holodeck_HelperFunctions.py:247-271 | the grouped lists are stamped iff every placed input file has a timestamp |
| Individuals.CatalogFails | Holodeck_HelperFunctions.py:138-321 | cataloguing raises IndexError when grouping does, and otherwise raises TypeError exactly when a placed file has no timestamp |
| Individuals.CatalogSubjects | Holodeck_HelperFunctions.py:313-315 | each individual carries its own subject id and meets the requirement; with exclusion, it has at least the required number of trials |
| Individuals.CatalogSubjectsPlaced | Holodeck_HelperFunctions.py:166-315 | every individual's subject has a placed input file |
| Individuals.CatalogTrials | Holodeck_HelperFunctions.py:273-310 | every kept trial has a number, is complete when the policy asks for it, and has matching dates |
| Individuals.CatalogTrialsOrdered | Holodeck_HelperFunctions.py:273-310 | an individual's trials are in increasing number |
| Individuals.CatalogTrialFiles | Holodeck_HelperFunctions.py:166-297 | every file of a trial of subject s is an input file filed under s |
| Individuals.CatalogExcluded | Holodeck_HelperFunctions.py:190-223 | the excluded files are the logs without a phase keyword, plus, with exclusion, the files of every incomplete trial |
| Individuals.CatalogExcludedInputs | Holodeck_HelperFunctions.py:300-321 | every excluded file is an input file |
| Individuals.CatalogNonMatching | Holodeck_HelperFunctions.py:152-160 | the non-matching files are the input files of no known kind |

## Left out

- `distance.euclidean` (path and look rows) and `calculate_euler_vector_from_quaternion` (look rows) are
  floating-point library calls. Rows carry the previous position instead of the distance, and no Euler
  angles.
- `int()` and `float()` on log text are function parameters (`clockOf`, `floatOf`, `intOf`). Their
  parse failures are not modelled.
- `time.strptime` range validation, `time.mktime` and daylight-saving time are not modelled. Timestamps
  are kept as field tuples and compared field by field, which is the order `mktime` gives for valid
  dates.
- Logging is not modelled: the incomplete-accounting warning is the `incomplete` flag.
- The VR reconciler's `placed_state` is toggled but never read, so it is not modelled.
- File I/O is not modelled: the parsers take the file's lines as a sequence. `open`, `readlines` and
  `readline` are not part of this model.
- `make_output_file`, `close_writer`, `parse_file_and_write` and the command-line script
  `Holodeck_GenerateIntermediateFiles.py` are not part of this model.
- `ntpath` drive handling is not modelled. The base name is the text after the last `/` or `\`.
- Dictionary iteration order is not modelled:
  - subjects are visited in an arbitrary order;
  - the individuals are a map keyed by subject id;
  - the phases of one subject are sorted in a fixed order, which does not affect the result;
  - the excluded and non-matching outputs are sets, as the source's final `set(...)` makes them.
- `Individual.get_full_file_list` filters the trials' already filtered lists a second time. That
  changes nothing, so it is modelled once.
- Malformed input lines are preconditions, not error values:
  - summary records that do not split as the parser indexes them;
  - raw-log samples with fewer than ten numbers;
  - empty lines.
- SummaryLog.ParseSummary, SummaryLog.ParseSummaryFile: do not model the Python exceptions (IndexError,
  ValueError) raised on a malformed record line. Well-formed lines are a precondition.
- TimeSeries.ParseTimeSeriesFile: does not model the exception on an empty line or on a sample with fewer
  than ten numbers. Only the summary-cursor IndexError is an error value.
- TestReconcile.Test2dRows, TestReconcile.ParseTest2dFile: do not model the 2D reconciler's `ValueError`
  (an unknown label), `KeyError` (a colour absent from the visit-order mapping) and the `IndexError` of a
  line with fewer than five fields. Readable placement lines are a precondition. The VR reconciler models
  its `ValueError`, `KeyError`, `IndexError` and `LogParseError` as faults.
- The study summary that both reconcilers read must name navigation items only. `get_location_by_name`
  raising `ValueError` in the colour-order loop is a precondition (`StudyNamed`).
- The room-crossing tables (`triples_labels` and the two crossing-index lists) are declared but read by no
  operation of the core.
