/**
 * The summary-log parser (parse_summary_file). A summary log is a header line followed by clock lines
 * (starting with '-', holding a tick count in their first 20 characters) and event records. The file's
 * schema is detected from marker substrings: study/practice logs record object clicks, test logs record
 * placements. The parser returns the clock times relative to the first clock line and, in separate
 * lists, the type, object label and location of each event record.
 */
module SummaryLog {
  import opened Common
  import opened Text
  import opened Tables
  import opened Regions

  datatype Schema = TestSchema | StudyPractice | Unknown

  const ClickedMarker: string := "ChangeTextureEvent_ObjectClicked"
  const PlacedMarker: string := "Object_Placed"

  /** The parser's result: the schema, the clock times and the three parallel event lists. */
  datatype Summary = Summary(schema: Schema, times: seq<int>, eventTypes: seq<string>, objectTypes: seq<string>,
                             locations: seq<seq<real>>, incomplete: bool)
  {
    /** The three event lists are appended together, one entry per event record. */
    predicate Parallel()
    {
      |eventTypes| == |objectTypes| == |locations|
    }
  }

  /** Some line contains `marker`. */
  function AnyContains(lines: seq<string>, marker: string): (b: bool)
    ensures b <==> exists i :: 0 <= i < |lines| && Contains(lines[i], marker)
  {
    if lines == [] then false
    else Contains(lines[0], marker) || (assert forall i :: 0 <= i < |lines| - 1 ==> lines[1..][i] == lines[i + 1];
                                        AnyContains(lines[1..], marker))
  }

  /** Schema detection over every line, the header included. */
  function DetectSchema(lines: seq<string>): Schema
  {
    if AnyContains(lines, ClickedMarker) then StudyPractice
    else if AnyContains(lines, PlacedMarker) then TestSchema
    else Unknown
  }

  /**
   * A log is study/practice exactly when some line holds the click marker, and test exactly when none
   * does and some line holds the placement marker: the click marker takes precedence.
   */
  lemma DetectSchemaCharacterised(lines: seq<string>)
    ensures DetectSchema(lines) == StudyPractice <==> exists i :: 0 <= i < |lines| && Contains(lines[i], ClickedMarker)
    ensures DetectSchema(lines) == TestSchema <==>
      (forall i :: 0 <= i < |lines| ==> !Contains(lines[i], ClickedMarker)) &&
      (exists i :: 0 <= i < |lines| && Contains(lines[i], PlacedMarker))
  {
  }

  /** A clock line starts with '-'. */
  predicate IsClockLine(line: string)
  {
    |line| > 0 && line[0] == '-'
  }

  /** `line[0:20]`, the text `int()` turns into a tick count. */
  function ClockText(line: string): string
  {
    Slice(line, 0, 20)
  }

  /** A test record `type, label : (x, y, z)` has the pieces the parser indexes. */
  predicate TestRecordWellFormed(line: string)
  {
    var parts := Split(line, ':');
    |parts| >= 2 && |Split(Strip(parts[0]), ',')| >= 2 && |Split(Inner(Strip(parts[1])), ',')| >= 3
  }

  /** A study/practice record `type, label, ...` names an item of the navigation table. */
  predicate StudyRecordWellFormed(line: string)
  {
    var parts := Split(line, ',');
    |parts| >= 2 && IsLabel(Strip(parts[1]), false)
  }

  predicate RecordWellFormed(line: string, schema: Schema)
  {
    match schema
    case TestSchema => TestRecordWellFormed(line)
    case StudyPractice => StudyRecordWellFormed(line)
    case Unknown => true
  }

  /** One line after the header is usable: not empty, and a record of the schema unless it is a clock line. */
  predicate LineWellFormed(line: string, schema: Schema)
  {
    |line| > 0 && (!IsClockLine(line) ==> RecordWellFormed(line, schema))
  }

  /** Every line of `body` is usable. */
  predicate BodyWellFormed(body: seq<string>, schema: Schema)
  {
    body == [] || (BodyWellFormed(body[..|body| - 1], schema) && LineWellFormed(body[|body| - 1], schema))
  }

  /**
   * What the parser needs of a file: the lines readlines() gives are never empty, and every record after
   * the header parses under the detected schema (otherwise Python raises and the run stops).
   */
  predicate WellFormedSummary(lines: seq<string>)
  {
    BodyWellFormed(Body(lines), DetectSchema(lines))
  }

  function Body(lines: seq<string>): seq<string>
  {
    if |lines| == 0 then [] else lines[1..]
  }

  lemma {:induction false} BodyWellFormedAt(body: seq<string>, schema: Schema, i: nat)
    requires BodyWellFormed(body, schema) && i < |body|
    ensures LineWellFormed(body[i], schema)
  {
    if i < |body| - 1 {
      BodyWellFormedAt(body[..|body| - 1], schema, i);
    }
  }

  /** The event type, label and location of a test record; the location is a float triple. */
  function TestRecord(line: string, floatOf: string -> real): (r: (string, string, seq<real>))
    requires TestRecordWellFormed(line)
    ensures |r.2| == 3
  {
    var parts := Split(line, ':');
    var first := Split(Strip(parts[0]), ',');
    var coords := Split(Inner(Strip(parts[1])), ',');
    (Strip(first[0]), Strip(first[1]), [floatOf(coords[0]), floatOf(coords[1]), floatOf(coords[2])])
  }

  /** The navigation-space coordinates of a study item, as a point. */
  function StudyPoint(name: string): (p: seq<real>)
    requires name in StudyLabels
    ensures |p| == 2
  {
    LabelsAreStripped(name, false);
    var loc := GetLocationByName(name, false);
    [loc.0 as real, loc.1 as real]
  }

  /** The event type, label and location of a study/practice record; the location comes from the item table. */
  function StudyRecord(line: string): (r: (string, string, seq<real>))
    requires StudyRecordWellFormed(line)
    ensures |r.2| == 2
  {
    var parts := Split(line, ',');
    var item := Strip(parts[1]);
    StripIdempotent(parts[1]);
    (Strip(parts[0]), item, StudyPoint(item))
  }

  /** A study/practice record names a navigation item and carries that item's table location. */
  lemma StudyRecordNamesItem(line: string)
    requires StudyRecordWellFormed(line)
    ensures var r := StudyRecord(line);
      r.1 in StudyLabels && r.2 == StudyPoint(r.1)
  {
    StripIdempotent(Split(line, ',')[1]);
  }

  /** The record of an event line, read by the schema's layout. */
  function EventRecord(line: string, schema: Schema, floatOf: string -> real): (r: (string, string, seq<real>))
    requires LineWellFormed(line, schema) && !IsClockLine(line) && schema != Unknown
  {
    match schema
    case TestSchema => TestRecord(line, floatOf)
    case StudyPractice => StudyRecord(line)
  }

  /** The parser's loop state: the clock origin t0 (0 while unset) and the four lists. */
  datatype PassState = PassState(t0: int, times: seq<int>, eventTypes: seq<string>, objectTypes: seq<string>,
                                 locations: seq<seq<real>>)

  /** One line after the header. */
  function Step(st: PassState, line: string, schema: Schema, clockOf: string -> int, floatOf: string -> real): PassState
    requires LineWellFormed(line, schema)
  {
    if st.t0 == 0 && line[0] == '-' then
      st.(t0 := clockOf(ClockText(line)), times := st.times + [0])
    else if st.t0 != 0 && line[0] == '-' then
      st.(times := st.times + [clockOf(ClockText(line)) - st.t0])
    else
      if schema == Unknown then st
      else
        var r := EventRecord(line, schema, floatOf);
        st.(eventTypes := st.eventTypes + [r.0], objectTypes := st.objectTypes + [r.1], locations := st.locations + [r.2])
  }

  /** The loop over the lines after the header. */
  function Run(body: seq<string>, schema: Schema, clockOf: string -> int, floatOf: string -> real): PassState
    requires BodyWellFormed(body, schema)
  {
    if body == [] then PassState(0, [], [], [], [])
    else Step(Run(body[..|body| - 1], schema, clockOf, floatOf), body[|body| - 1], schema, clockOf, floatOf)
  }

  /** The number of events a complete log holds: sixteen, or eight for a practice log. */
  function ExpectedElements(path: string): nat
  {
    if Contains(Lower(path), "practice") then ItemCount / 2 else ItemCount
  }

  /** parse_summary_file, as a function of the file's path and lines. */
  function ParseSummary(path: string, lines: seq<string>, clockOf: string -> int, floatOf: string -> real): (s: Summary)
    requires WellFormedSummary(lines)
    ensures s.schema == DetectSchema(lines) && s.Parallel()
    ensures s.incomplete <==> |s.times| < ExpectedElements(path)
  {
    var schema := DetectSchema(lines);
    var st := Run(Body(lines), schema, clockOf, floatOf);
    RunParallel(Body(lines), schema, clockOf, floatOf);
    Summary(schema, st.times, st.eventTypes, st.objectTypes, st.locations, |st.times| < ExpectedElements(path))
  }

  lemma {:induction false} RunParallel(body: seq<string>, schema: Schema, clockOf: string -> int, floatOf: string -> real)
    requires BodyWellFormed(body, schema)
    ensures var st := Run(body, schema, clockOf, floatOf);
      |st.eventTypes| == |st.objectTypes| == |st.locations|
  {
    if body != [] {
      RunParallel(body[..|body| - 1], schema, clockOf, floatOf);
    }
  }

  lemma {:induction false} BodyPrefixWellFormed(body: seq<string>, schema: Schema, k: nat)
    requires BodyWellFormed(body, schema) && k <= |body|
    ensures BodyWellFormed(body[..k], schema)
  {
    if k < |body| {
      assert body[..k] == body[..|body| - 1][..k];
      BodyPrefixWellFormed(body[..|body| - 1], schema, k);
    } else {
      assert body[..k] == body;
    }
  }

  /** The body of the parser's loop for one line after the header. */
  method ParseLine(st: PassState, line: string, schema: Schema, clockOf: string -> int, floatOf: string -> real)
    returns (next: PassState)
    requires LineWellFormed(line, schema)
    ensures next == Step(st, line, schema, clockOf, floatOf)
  {
    var t0, times, eventTypes, objectTypes, locations := st.t0, st.times, st.eventTypes, st.objectTypes, st.locations;
    if t0 == 0 && line[0] == '-' {
      t0 := clockOf(ClockText(line));
      times := times + [0];
    } else if t0 != 0 && line[0] == '-' {
      var tn := clockOf(ClockText(line));
      times := times + [tn - t0];
    } else if schema != Unknown {
      var r := ParseRecord(line, schema, floatOf);
      eventTypes, objectTypes, locations := eventTypes + [r.0], objectTypes + [r.1], locations + [r.2];
    }
    next := PassState(t0, times, eventTypes, objectTypes, locations);
  }

  /** The record branch of the loop body: the test layout or the study/practice layout. */
  method ParseRecord(line: string, schema: Schema, floatOf: string -> real) returns (r: (string, string, seq<real>))
    requires LineWellFormed(line, schema) && !IsClockLine(line) && schema != Unknown
    ensures r == EventRecord(line, schema, floatOf)
  {
    if schema == TestSchema {
      r := TestRecord(line, floatOf);
    } else {
      r := StudyRecord(line);
    }
  }

  /** The parser itself: one pass over the lines, skipping the header. */
  method ParseSummaryFile(path: string, lines: seq<string>, clockOf: string -> int, floatOf: string -> real)
    returns (s: Summary)
    requires WellFormedSummary(lines)
    ensures s == ParseSummary(path, lines, clockOf, floatOf)
  {
    var schema := DetectSchema(lines);
    var st := PassState(0, [], [], [], []);
    var lineCount := 0;
    for i := 0 to |lines|
      invariant lineCount == if i == 0 then 0 else 1
      invariant 1 <= i ==> lines[1..i] == Body(lines)[..i - 1] && BodyWellFormed(lines[1..i], schema)
      invariant st == Run(if i == 0 then [] else lines[1..i], schema, clockOf, floatOf)
    {
      if lineCount == 0 {
        lineCount := lineCount + 1;
        continue;
      }
      var line := lines[i];
      assert lines[1..i + 1] == Body(lines)[..i] && line == Body(lines)[i - 1];
      BodyPrefixWellFormed(Body(lines), schema, i);
      assert lines[1..i + 1][..i - 1] == lines[1..i];
      st := ParseLine(st, line, schema, clockOf, floatOf);
    }
    assert |lines| > 0 ==> lines[1..|lines|] == Body(lines);
    s := Summary(schema, st.times, st.eventTypes, st.objectTypes, st.locations, |st.times| < ExpectedElements(path));
  }

  /** The tick counts of the clock lines of `body`, in order. */
  function ClockValues(body: seq<string>, clockOf: string -> int): (cs: seq<int>)
    ensures |cs| <= |body|
  {
    if body == [] then []
    else
      var prefix := ClockValues(body[..|body| - 1], clockOf);
      var line := body[|body| - 1];
      if IsClockLine(line) then prefix + [clockOf(ClockText(line))] else prefix
  }

  /** The event records of `body`: the lines that are not clock lines, in order. */
  function EventLines(body: seq<string>): (es: seq<string>)
    ensures |es| <= |body|
    ensures forall k :: 0 <= k < |es| ==> es[k] in body && !IsClockLine(es[k])
  {
    if body == [] then []
    else
      var prefix := EventLines(body[..|body| - 1]);
      var line := body[|body| - 1];
      if IsClockLine(line) then prefix else prefix + [line]
  }

  /**
   * The origin of a run of tick counts: the first non-zero count, or 0 when there is none. The parser
   * treats t0 == 0 as "not yet set", so a clock line reading 0 never fixes the origin.
   */
  function Origin(cs: seq<int>): int
  {
    if cs == [] then 0
    else if Origin(cs[..|cs| - 1]) != 0 then Origin(cs[..|cs| - 1])
    else cs[|cs| - 1]
  }

  /** The origin is the first non-zero count; it is 0 exactly when every count is 0. */
  lemma OriginIsFirstNonzero(cs: seq<int>)
    ensures Origin(cs) == 0 <==> forall i :: 0 <= i < |cs| ==> cs[i] == 0
    ensures Origin(cs) != 0 ==> exists j :: 0 <= j < |cs| && cs[j] == Origin(cs) && forall i :: 0 <= i < j ==> cs[i] == 0
  {
    OriginZeroExactlyWhenAllZero(cs);
    if Origin(cs) != 0 {
      var j := OriginPosition(cs);
    }
  }

  lemma {:induction false} OriginZeroExactlyWhenAllZero(cs: seq<int>)
    ensures Origin(cs) == 0 <==> forall i :: 0 <= i < |cs| ==> cs[i] == 0
  {
    if cs != [] {
      var prefix := cs[..|cs| - 1];
      OriginZeroExactlyWhenAllZero(prefix);
      assert forall i :: 0 <= i < |prefix| ==> cs[i] == prefix[i];
    }
  }

  /** Where the origin comes from: the first non-zero count. */
  lemma {:induction false} OriginPosition(cs: seq<int>) returns (j: nat)
    requires Origin(cs) != 0
    ensures j < |cs| && cs[j] == Origin(cs) && forall i :: 0 <= i < j ==> cs[i] == 0
  {
    var prefix := cs[..|cs| - 1];
    if Origin(prefix) != 0 {
      j := OriginPosition(prefix);
      assert cs[j] == prefix[j];
      assert forall i :: 0 <= i < j ==> cs[i] == prefix[i];
    } else {
      OriginZeroExactlyWhenAllZero(prefix);
      j := |cs| - 1;
      assert forall i :: 0 <= i < j ==> cs[i] == prefix[i];
    }
  }

  /** Each count minus the origin of the counts up to and including it. */
  function Relative(cs: seq<int>): (ts: seq<int>)
    ensures |ts| == |cs|
  {
    if cs == [] then [] else Relative(cs[..|cs| - 1]) + [cs[|cs| - 1] - Origin(cs)]
  }

  lemma {:induction false} RelativeAt(cs: seq<int>, k: nat)
    requires k < |cs|
    ensures Relative(cs)[k] == cs[k] - Origin(cs[..k + 1])
  {
    if k < |cs| - 1 {
      var prefix := cs[..|cs| - 1];
      RelativeAt(prefix, k);
      assert prefix[..k + 1] == cs[..k + 1];
    } else {
      assert cs[..k + 1] == cs;
    }
  }

  /** How one line moves the clock origin and the times list. */
  lemma StepTimes(st: PassState, line: string, schema: Schema, clockOf: string -> int, floatOf: string -> real)
    requires LineWellFormed(line, schema)
    ensures var next := Step(st, line, schema, clockOf, floatOf);
      if IsClockLine(line) then
        var c := clockOf(ClockText(line));
        var t0 := if st.t0 != 0 then st.t0 else c;
        next.t0 == t0 && next.times == st.times + [c - t0]
      else next.t0 == st.t0 && next.times == st.times
  {
  }

  /**
   * The times list has one entry per clock line, each the clock line's count minus the origin of the
   * counts read so far; t0 ends as the origin of all the counts. Neither the schema nor the records matter.
   */
  lemma RunTimes(body: seq<string>, schema: Schema, clockOf: string -> int, floatOf: string -> real)
    requires BodyWellFormed(body, schema)
    ensures var st := Run(body, schema, clockOf, floatOf);
      var cs := ClockValues(body, clockOf);
      st.t0 == Origin(cs) && st.times == Relative(cs)
  {
    RunOrigin(body, schema, clockOf, floatOf);
    RunRelative(body, schema, clockOf, floatOf);
  }

  lemma {:induction false} RunOrigin(body: seq<string>, schema: Schema, clockOf: string -> int, floatOf: string -> real)
    requires BodyWellFormed(body, schema)
    ensures Run(body, schema, clockOf, floatOf).t0 == Origin(ClockValues(body, clockOf))
  {
    if body != [] {
      var prefix := body[..|body| - 1];
      var line := body[|body| - 1];
      RunOrigin(prefix, schema, clockOf, floatOf);
      StepTimes(Run(prefix, schema, clockOf, floatOf), line, schema, clockOf, floatOf);
      if IsClockLine(line) {
        RelativeExtends(ClockValues(prefix, clockOf), clockOf(ClockText(line)));
      }
    }
  }

  lemma {:induction false} RunRelative(body: seq<string>, schema: Schema, clockOf: string -> int, floatOf: string -> real)
    requires BodyWellFormed(body, schema)
    ensures Run(body, schema, clockOf, floatOf).times == Relative(ClockValues(body, clockOf))
  {
    if body != [] {
      var prefix := body[..|body| - 1];
      var line := body[|body| - 1];
      RunRelative(prefix, schema, clockOf, floatOf);
      RunOrigin(prefix, schema, clockOf, floatOf);
      StepRelative(Run(prefix, schema, clockOf, floatOf), line, schema, clockOf, floatOf, ClockValues(prefix, clockOf));
    }
  }

  lemma StepRelative(st: PassState, line: string, schema: Schema, clockOf: string -> int, floatOf: string -> real, cs: seq<int>)
    requires LineWellFormed(line, schema) && st.t0 == Origin(cs) && st.times == Relative(cs)
    ensures Step(st, line, schema, clockOf, floatOf).times ==
      Relative(if IsClockLine(line) then cs + [clockOf(ClockText(line))] else cs)
  {
    StepTimes(st, line, schema, clockOf, floatOf);
    if IsClockLine(line) {
      RelativeExtends(cs, clockOf(ClockText(line)));
    }
  }

  /** One more count: the origin is fixed unless it was still 0, and the new time is taken from it. */
  lemma RelativeExtends(cs: seq<int>, c: int)
    ensures Origin(cs + [c]) == (if Origin(cs) != 0 then Origin(cs) else c)
    ensures Relative(cs + [c]) == Relative(cs) + [c - Origin(cs + [c])]
  {
    assert (cs + [c])[..|cs|] == cs;
  }

  /** parse_summary_file's times list, stated on the whole file. */
  lemma SummaryTimes(path: string, lines: seq<string>, clockOf: string -> int, floatOf: string -> real)
    requires WellFormedSummary(lines)
    ensures ParseSummary(path, lines, clockOf, floatOf).times == Relative(ClockValues(Body(lines), clockOf))
  {
    RunTimes(Body(lines), DetectSchema(lines), clockOf, floatOf);
  }

  lemma {:induction false} OriginOfNonzeroStart(cs: seq<int>)
    requires |cs| > 0 && cs[0] != 0
    ensures Origin(cs) == cs[0]
  {
    if |cs| > 1 {
      OriginOfNonzeroStart(cs[..|cs| - 1]);
    }
  }

  /** The first entry of the times list is 0. */
  lemma FirstTimeIsZero(path: string, lines: seq<string>, clockOf: string -> int, floatOf: string -> real)
    requires WellFormedSummary(lines)
    ensures var s := ParseSummary(path, lines, clockOf, floatOf);
      |s.times| > 0 ==> s.times[0] == 0
  {
    var cs := ClockValues(Body(lines), clockOf);
    SummaryTimes(path, lines, clockOf, floatOf);
    if |cs| > 0 {
      RelativeAt(cs, 0);
      assert cs[..1][..0] == [];
    }
  }

  /**
   * Once the first clock line reads a non-zero count, every time is that line's count subtracted from
   * the clock line's own.
   */
  lemma TimesRelativeToFirstClock(path: string, lines: seq<string>, clockOf: string -> int, floatOf: string -> real, k: nat)
    requires WellFormedSummary(lines)
    requires var cs := ClockValues(Body(lines), clockOf); k < |cs| && cs[0] != 0
    ensures var s := ParseSummary(path, lines, clockOf, floatOf);
      var cs := ClockValues(Body(lines), clockOf);
      |s.times| == |cs| && s.times[k] == cs[k] - cs[0]
  {
    var cs := ClockValues(Body(lines), clockOf);
    SummaryTimes(path, lines, clockOf, floatOf);
    RelativeAt(cs, k);
    OriginOfNonzeroStart(cs[..k + 1]);
  }

  /** The header line is read only for schema detection: two logs that differ in it alone have equal times. */
  lemma HeaderOnlySelectsSchema(path: string, h1: string, h2: string, rest: seq<string>, clockOf: string -> int,
                                floatOf: string -> real)
    requires WellFormedSummary([h1] + rest) && WellFormedSummary([h2] + rest)
    ensures ParseSummary(path, [h1] + rest, clockOf, floatOf).times == ParseSummary(path, [h2] + rest, clockOf, floatOf).times
  {
    assert Body([h1] + rest) == rest == Body([h2] + rest);
    RunTimes(rest, DetectSchema([h1] + rest), clockOf, floatOf);
    RunTimes(rest, DetectSchema([h2] + rest), clockOf, floatOf);
  }

  /** How one line moves the event lists. */
  lemma StepEvents(st: PassState, line: string, schema: Schema, clockOf: string -> int, floatOf: string -> real)
    requires LineWellFormed(line, schema)
    ensures var next := Step(st, line, schema, clockOf, floatOf);
      if IsClockLine(line) || schema == Unknown then
        next.eventTypes == st.eventTypes && next.objectTypes == st.objectTypes && next.locations == st.locations
      else
        var r := EventRecord(line, schema, floatOf);
        next.eventTypes == st.eventTypes + [r.0] && next.objectTypes == st.objectTypes + [r.1] &&
        next.locations == st.locations + [r.2]
  {
  }

  /** What an event record holds under each schema. */
  lemma EventRecordFacts(line: string, schema: Schema, floatOf: string -> real)
    requires LineWellFormed(line, schema) && !IsClockLine(line) && schema != Unknown
    ensures var r := EventRecord(line, schema, floatOf);
      (schema == StudyPractice ==> r.1 in StudyLabels && r.2 == StudyPoint(r.1)) &&
      (schema == TestSchema ==> |r.2| == 3)
  {
    if schema == StudyPractice {
      StudyRecordNamesItem(line);
    }
  }

  /** Every event of a study/practice pass names a navigation item and carries its table location. */
  predicate StudyEvents(objectTypes: seq<string>, locations: seq<seq<real>>)
  {
    |locations| == |objectTypes| &&
    forall k :: 0 <= k < |objectTypes| ==>
      objectTypes[k] in StudyLabels && locations[k] == StudyPoint(objectTypes[k])
  }

  lemma StudyEventsExtend(objectTypes: seq<string>, locations: seq<seq<real>>, item: string, location: seq<real>)
    requires StudyEvents(objectTypes, locations)
    requires item in StudyLabels && location == StudyPoint(item)
    ensures StudyEvents(objectTypes + [item], locations + [location])
  {
    var ots := objectTypes + [item];
    var locs := locations + [location];
    forall k | 0 <= k < |ots|
      ensures ots[k] in StudyLabels && locs[k] == StudyPoint(ots[k])
    {
      if k < |objectTypes| {
        assert ots[k] == objectTypes[k] && locs[k] == locations[k];
      }
    }
  }

  /** Every location of a test pass is a coordinate triple. */
  predicate Triples(locations: seq<seq<real>>)
  {
    forall k :: 0 <= k < |locations| ==> |locations[k]| == 3
  }

  lemma TriplesExtend(locations: seq<seq<real>>, location: seq<real>)
    requires Triples(locations) && |location| == 3
    ensures Triples(locations + [location])
  {
    var locs := locations + [location];
    forall k | 0 <= k < |locs|
      ensures |locs[k]| == 3
    {
      if k < |locations| {
        assert locs[k] == locations[k];
      }
    }
  }

  /** Every line of `es` is an event line the schema's record layout reads. */
  predicate EventLinesOk(es: seq<string>, schema: Schema)
  {
    schema != Unknown && forall k :: 0 <= k < |es| ==> LineWellFormed(es[k], schema) && !IsClockLine(es[k])
  }

  /** The three event lists hold, position by position, the records of the event lines `es`. */
  predicate Agree(eventTypes: seq<string>, objectTypes: seq<string>, locations: seq<seq<real>>, es: seq<string>,
                  schema: Schema, floatOf: string -> real)
    requires EventLinesOk(es, schema)
  {
    |eventTypes| == |es| && |objectTypes| == |es| && |locations| == |es| &&
    forall k :: 0 <= k < |es| ==> (eventTypes[k], objectTypes[k], locations[k]) == EventRecord(es[k], schema, floatOf)
  }

  lemma EventLinesExtend(es: seq<string>, line: string, schema: Schema)
    requires EventLinesOk(es, schema) && LineWellFormed(line, schema) && !IsClockLine(line)
    ensures EventLinesOk(es + [line], schema)
  {
    var es' := es + [line];
    forall k | 0 <= k < |es'|
      ensures LineWellFormed(es'[k], schema) && !IsClockLine(es'[k])
    {
      if k < |es| { assert es'[k] == es[k]; }
    }
  }

  lemma AgreeExtend(eventTypes: seq<string>, objectTypes: seq<string>, locations: seq<seq<real>>, es: seq<string>,
                    line: string, schema: Schema, floatOf: string -> real)
    requires EventLinesOk(es, schema) && Agree(eventTypes, objectTypes, locations, es, schema, floatOf)
    requires LineWellFormed(line, schema) && !IsClockLine(line)
    ensures EventLinesOk(es + [line], schema)
    ensures var r := EventRecord(line, schema, floatOf);
      Agree(eventTypes + [r.0], objectTypes + [r.1], locations + [r.2], es + [line], schema, floatOf)
  {
    var r := EventRecord(line, schema, floatOf);
    var es' := es + [line];
    EventLinesExtend(es, line, schema);
    var ets, ots, locs := eventTypes + [r.0], objectTypes + [r.1], locations + [r.2];
    forall k | 0 <= k < |es'|
      ensures (ets[k], ots[k], locs[k]) == EventRecord(es'[k], schema, floatOf)
    {
      if k < |es| {
        assert es'[k] == es[k] && ets[k] == eventTypes[k] && ots[k] == objectTypes[k] && locs[k] == locations[k];
      }
    }
  }

  /** Under a known schema, event k of the pass is the record of the k-th event line of the body. */
  lemma {:induction false} RunEventRecords(body: seq<string>, schema: Schema, clockOf: string -> int,
                                           floatOf: string -> real)
    requires BodyWellFormed(body, schema) && schema != Unknown
    ensures EventLinesOk(EventLines(body), schema)
    ensures var st := Run(body, schema, clockOf, floatOf);
      Agree(st.eventTypes, st.objectTypes, st.locations, EventLines(body), schema, floatOf)
  {
    if body != [] {
      var prefix := body[..|body| - 1];
      var line := body[|body| - 1];
      RunEventRecords(prefix, schema, clockOf, floatOf);
      var before := Run(prefix, schema, clockOf, floatOf);
      StepEvents(before, line, schema, clockOf, floatOf);
      if !IsClockLine(line) {
        AgreeExtend(before.eventTypes, before.objectTypes, before.locations, EventLines(prefix), line, schema, floatOf);
      }
    }
  }

  /**
   * The event lists: empty when the schema is unknown, otherwise one entry per event record. A
   * study/practice event names a navigation item and carries that item's table location; a test event
   * carries a coordinate triple.
   */
  lemma RunEvents(body: seq<string>, schema: Schema, clockOf: string -> int, floatOf: string -> real)
    requires BodyWellFormed(body, schema)
    ensures var st := Run(body, schema, clockOf, floatOf);
      (schema == Unknown ==> st.eventTypes == st.objectTypes == [] && st.locations == []) &&
      (schema != Unknown ==> |st.eventTypes| == |st.objectTypes| == |st.locations| == |EventLines(body)|) &&
      (schema == StudyPractice ==> StudyEvents(st.objectTypes, st.locations)) &&
      (schema == TestSchema ==> Triples(st.locations))
    ensures schema != Unknown ==>
      EventLinesOk(EventLines(body), schema) &&
      var st := Run(body, schema, clockOf, floatOf);
      Agree(st.eventTypes, st.objectTypes, st.locations, EventLines(body), schema, floatOf)
  {
    RunEventCounts(body, schema, clockOf, floatOf);
    if schema != Unknown {
      RunEventRecords(body, schema, clockOf, floatOf);
    }
    if schema == StudyPractice {
      RunStudyEvents(body, clockOf, floatOf);
    } else if schema == TestSchema {
      RunTestTriples(body, clockOf, floatOf);
    }
  }

  lemma {:induction false} RunEventCounts(body: seq<string>, schema: Schema, clockOf: string -> int, floatOf: string -> real)
    requires BodyWellFormed(body, schema)
    ensures var st := Run(body, schema, clockOf, floatOf);
      (schema == Unknown ==> st.eventTypes == st.objectTypes == [] && st.locations == []) &&
      (schema != Unknown ==> |st.eventTypes| == |st.objectTypes| == |st.locations| == |EventLines(body)|)
  {
    if body != [] {
      var prefix := body[..|body| - 1];
      RunEventCounts(prefix, schema, clockOf, floatOf);
      StepEvents(Run(prefix, schema, clockOf, floatOf), body[|body| - 1], schema, clockOf, floatOf);
    }
  }

  lemma {:induction false} RunStudyEvents(body: seq<string>, clockOf: string -> int, floatOf: string -> real)
    requires BodyWellFormed(body, StudyPractice)
    ensures var st := Run(body, StudyPractice, clockOf, floatOf);
      StudyEvents(st.objectTypes, st.locations)
  {
    if body != [] {
      var prefix := body[..|body| - 1];
      var line := body[|body| - 1];
      RunStudyEvents(prefix, clockOf, floatOf);
      var before := Run(prefix, StudyPractice, clockOf, floatOf);
      StepEvents(before, line, StudyPractice, clockOf, floatOf);
      if !IsClockLine(line) {
        var r := EventRecord(line, StudyPractice, floatOf);
        EventRecordFacts(line, StudyPractice, floatOf);
        StudyEventsExtend(before.objectTypes, before.locations, r.1, r.2);
      }
    }
  }

  lemma {:induction false} RunTestTriples(body: seq<string>, clockOf: string -> int, floatOf: string -> real)
    requires BodyWellFormed(body, TestSchema)
    ensures Triples(Run(body, TestSchema, clockOf, floatOf).locations)
  {
    if body != [] {
      var prefix := body[..|body| - 1];
      var line := body[|body| - 1];
      RunTestTriples(prefix, clockOf, floatOf);
      var before := Run(prefix, TestSchema, clockOf, floatOf);
      StepEvents(before, line, TestSchema, clockOf, floatOf);
      if !IsClockLine(line) {
        EventRecordFacts(line, TestSchema, floatOf);
        TriplesExtend(before.locations, EventRecord(line, TestSchema, floatOf).2);
      }
    }
  }

  /** parse_summary_file's event lists, stated on the whole file. */
  lemma SummaryEvents(path: string, lines: seq<string>, clockOf: string -> int, floatOf: string -> real)
    requires WellFormedSummary(lines)
    ensures var s := ParseSummary(path, lines, clockOf, floatOf);
      (s.schema == Unknown ==> s.eventTypes == []) &&
      (s.schema != Unknown ==> |s.eventTypes| == |EventLines(Body(lines))|) &&
      (s.schema == StudyPractice ==> forall k :: 0 <= k < |s.objectTypes| ==> s.objectTypes[k] in StudyLabels) &&
      (s.schema == TestSchema ==> forall k :: 0 <= k < |s.locations| ==> |s.locations[k]| == 3)
    ensures var s := ParseSummary(path, lines, clockOf, floatOf);
      var es := EventLines(Body(lines));
      s.schema != Unknown ==>
        EventLinesOk(es, s.schema) &&
        |s.eventTypes| == |s.objectTypes| == |s.locations| == |es| &&
        forall k :: 0 <= k < |es| ==>
          (s.eventTypes[k], s.objectTypes[k], s.locations[k]) == EventRecord(es[k], s.schema, floatOf)
  {
    RunEvents(Body(lines), DetectSchema(lines), clockOf, floatOf);
  }
}
