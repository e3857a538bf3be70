/**
 * The second half of catalog_files: each subject's phase lists are sorted by the timestamp in the file
 * names, index-zipped into trials, filtered by completeness and date consistency, and the subjects with
 * too few trials are dropped. Trial and Individual are the records the pipeline hands on.
 */
module Trials {
  import opened Common
  import opened Timestamps
  import opened Catalog

  // ----- Sorting a phase list by timestamp -----

  /** A file name paired with its decoded timestamp, as `zip(dates, files)` pairs them. */
  type Dated = (Stamp, string)

  /**
   * One step of a stable insertion sort: `x` goes after every element whose stamp is not later than its
   * own, so it follows the elements with an equal stamp.
   */
  function InsertByStamp(sorted: seq<Dated>, x: Dated): (r: seq<Dated>)
    ensures |r| == |sorted| + 1
    ensures multiset(r) == multiset(sorted) + multiset{x}
  {
    if sorted == [] then [x]
    else if StampLe(sorted[|sorted| - 1].0, x.0) then sorted + [x]
    else
      var prefix := sorted[..|sorted| - 1];
      assert sorted == prefix + [sorted[|sorted| - 1]];
      InsertByStamp(prefix, x) + [sorted[|sorted| - 1]]
  }

  /** `sorted(zipped, key=date)`: Python's sort is stable, and so is this one. */
  function SortByStamp(pairs: seq<Dated>): (r: seq<Dated>)
    ensures |r| == |pairs|
    ensures multiset(r) == multiset(pairs)
  {
    if pairs == [] then []
    else
      var prefix := pairs[..|pairs| - 1];
      assert pairs == prefix + [pairs[|pairs| - 1]];
      InsertByStamp(SortByStamp(prefix), pairs[|pairs| - 1])
  }

  /** Stamps never go down along the sequence. */
  predicate Ascending(r: seq<Dated>)
  {
    forall i, j :: 0 <= i < j < |r| ==> StampLe(r[i].0, r[j].0)
  }

  /** The elements with one stamp, in their order. */
  function WithStamp(pairs: seq<Dated>, t: Stamp): seq<Dated>
  {
    if pairs == [] then []
    else WithStamp(pairs[..|pairs| - 1], t) + if pairs[|pairs| - 1].0 == t then [pairs[|pairs| - 1]] else []
  }

  lemma {:induction false} InsertAscending(sorted: seq<Dated>, x: Dated)
    requires Ascending(sorted)
    ensures Ascending(InsertByStamp(sorted, x))
  {
    if sorted != [] {
      var last := sorted[|sorted| - 1];
      var prefix := sorted[..|sorted| - 1];
      if StampLe(last.0, x.0) {
        forall i | 0 <= i < |sorted|
          ensures StampLe(sorted[i].0, x.0)
        {
          if i < |sorted| - 1 {
            StampLeTransitive(sorted[i].0, last.0, x.0);
          }
        }
      } else {
        InsertAscending(prefix, x);
        var r := InsertByStamp(prefix, x);
        StampLeTotal(last.0, x.0);
        forall i | 0 <= i < |r|
          ensures StampLe(r[i].0, last.0)
        {
          assert r[i] in multiset(r);
          assert r[i] == x || r[i] in prefix;
        }
      }
    }
  }

  /** The sort's result is in ascending timestamp order. */
  lemma {:induction false} SortAscending(pairs: seq<Dated>)
    ensures Ascending(SortByStamp(pairs))
  {
    if pairs != [] {
      SortAscending(pairs[..|pairs| - 1]);
      InsertAscending(SortByStamp(pairs[..|pairs| - 1]), pairs[|pairs| - 1]);
    }
  }

  lemma WithStampAppend(pairs: seq<Dated>, x: Dated, t: Stamp)
    ensures WithStamp(pairs + [x], t) == WithStamp(pairs, t) + if x.0 == t then [x] else []
  {
    assert (pairs + [x])[..|pairs|] == pairs;
  }

  /** Inserting puts `x` behind every element with the same stamp. */
  lemma {:induction false} InsertStable(sorted: seq<Dated>, x: Dated, t: Stamp)
    ensures WithStamp(InsertByStamp(sorted, x), t) == WithStamp(sorted, t) + if x.0 == t then [x] else []
  {
    if sorted == [] {
      WithStampAppend([], x, t);
    } else {
      var last := sorted[|sorted| - 1];
      var prefix := sorted[..|sorted| - 1];
      assert sorted == prefix + [last];
      WithStampAppend(prefix, last, t);
      if StampLe(last.0, x.0) {
        WithStampAppend(sorted, x, t);
      } else {
        InsertStable(prefix, x, t);
        WithStampAppend(InsertByStamp(prefix, x), last, t);
        assert !(x.0 == t && last.0 == t);
      }
    }
  }

  /** The sort is stable: the files with one timestamp keep their relative order. */
  lemma {:induction false} SortStable(pairs: seq<Dated>, t: Stamp)
    ensures WithStamp(SortByStamp(pairs), t) == WithStamp(pairs, t)
  {
    if pairs != [] {
      var prefix := pairs[..|pairs| - 1];
      SortStable(prefix, t);
      InsertStable(SortByStamp(prefix), pairs[|pairs| - 1], t);
    }
  }

  /** Every file of the list carries a timestamp the decoder finds. */
  predicate AllStamped(fs: seq<string>)
  {
    forall i :: 0 <= i < |fs| ==> HasTimestamp(fs[i])
  }

  /** `zip(dates, files)`: each file with its decoded timestamp. */
  function Dates(fs: seq<string>): (r: seq<Dated>)
    requires AllStamped(fs)
    ensures |r| == |fs| && forall i :: 0 <= i < |fs| ==> r[i] == (ExtractDateTime(fs[i]), fs[i])
  {
    seq(|fs|, i requires 0 <= i < |fs| => (ExtractDateTime(fs[i]), fs[i]))
  }

  /** The file names of dated pairs, as `zip(*sorted_zipped)` takes them back apart. */
  function Names(ps: seq<Dated>): (r: seq<string>)
    ensures |r| == |ps| && forall i :: 0 <= i < |ps| ==> r[i] == ps[i].1
  {
    seq(|ps|, i requires 0 <= i < |ps| => ps[i].1)
  }

  /** Taking the names apart keeps the multiset: the names of a permutation are a permutation of the names. */
  lemma {:induction false} NamesPermutation(ps: seq<Dated>, qs: seq<Dated>)
    requires multiset(ps) == multiset(qs)
    ensures multiset(Names(ps)) == multiset(Names(qs))
    decreases |ps|
  {
    if ps != [] {
      var last := ps[|ps| - 1];
      var prefix := ps[..|ps| - 1];
      assert ps == prefix + [last];
      assert last in multiset(qs);
      var k :| 0 <= k < |qs| && qs[k] == last;
      var rest := RemoveOne(qs, k);
      assert multiset(ps) == multiset(prefix) + multiset{last};
      assert multiset(prefix) == multiset(rest);
      NamesPermutation(prefix, rest);
      NamesAppend(prefix, [last]);
      assert Names([last]) == [last.1];
      assert multiset(Names(ps)) == multiset(Names(prefix)) + multiset{last.1};
    } else {
      assert |multiset(qs)| == 0;
    }
  }

  /** Removing the k-th pair removes one copy of it, and of its name. */
  lemma RemoveOne(qs: seq<Dated>, k: nat) returns (rest: seq<Dated>)
    requires k < |qs|
    ensures multiset(rest) == multiset(qs) - multiset{qs[k]}
    ensures multiset(Names(qs)) == multiset(Names(rest)) + multiset{qs[k].1}
  {
    rest := qs[..k] + qs[k + 1..];
    RemoveOneCopy(qs, k);
    RemoveOneName(qs, k);
  }

  lemma RemoveOneCopy(qs: seq<Dated>, k: nat)
    requires k < |qs|
    ensures multiset(qs[..k] + qs[k + 1..]) == multiset(qs) - multiset{qs[k]}
  {
    assert qs == qs[..k] + [qs[k]] + qs[k + 1..];
  }

  lemma RemoveOneName(qs: seq<Dated>, k: nat)
    requires k < |qs|
    ensures multiset(Names(qs)) == multiset(Names(qs[..k] + qs[k + 1..])) + multiset{qs[k].1}
  {
    var front, back := qs[..k], qs[k + 1..];
    var mid := [qs[k]] + back;
    assert qs == front + mid;
    NamesAppend(front, mid);
    NamesAppend([qs[k]], back);
    NamesAppend(front, back);
    var nf, nb := Names(front), Names(back);
    assert Names([qs[k]]) == [qs[k].1];
    assert Names(qs) == nf + ([qs[k].1] + nb);
    assert Names(front + back) == nf + nb;
    assert multiset(nf + ([qs[k].1] + nb)) == multiset(nf) + multiset{qs[k].1} + multiset(nb);
  }

  lemma NamesAppend(a: seq<Dated>, b: seq<Dated>)
    ensures Names(a + b) == Names(a) + Names(b)
  {
    assert forall i :: 0 <= i < |a + b| ==> Names(a + b)[i] == (Names(a) + Names(b))[i];
  }

  /**
   * The sorting step of catalog_files for one phase list: lists of two or more files are sorted by their
   * timestamps, shorter lists are left as they are.
   */
  function SortGroup(fs: seq<string>): seq<string>
    requires AllStamped(fs)
  {
    if |fs| >= 2 then Names(SortByStamp(Dates(fs))) else fs
  }

  /** Re-dating the sorted list gives the sorted dated list: every file keeps its own timestamp. */
  lemma SortGroupDates(fs: seq<string>)
    requires AllStamped(fs)
    ensures AllStamped(SortGroup(fs)) && Dates(SortGroup(fs)) == if |fs| >= 2 then SortByStamp(Dates(fs)) else Dates(fs)
  {
    if |fs| >= 2 {
      var dated := Dates(fs);
      var sorted := SortByStamp(dated);
      var r := SortGroup(fs);
      forall i | 0 <= i < |r|
        ensures HasTimestamp(r[i]) && sorted[i] == (ExtractDateTime(r[i]), r[i])
      {
        assert sorted[i] in multiset(dated);
        var j :| 0 <= j < |fs| && dated[j] == sorted[i];
      }
    }
  }

  /** A sorted phase list is a permutation of the list. */
  lemma SortGroupPermutes(fs: seq<string>)
    requires AllStamped(fs)
    ensures multiset(SortGroup(fs)) == multiset(fs)
  {
    if |fs| >= 2 {
      NamesPermutation(SortByStamp(Dates(fs)), Dates(fs));
      assert Names(Dates(fs)) == fs;
    }
  }

  /** A sorted phase list is in ascending timestamp order. */
  lemma SortGroupAscending(fs: seq<string>)
    requires AllStamped(fs)
    ensures AllStamped(SortGroup(fs))
    ensures Ascending(Dates(fs)) ==> Ascending(Dates(SortGroup(fs)))
    ensures |fs| >= 2 ==> Ascending(Dates(SortGroup(fs)))
  {
    SortGroupDates(fs);
    if |fs| >= 2 {
      SortAscending(Dates(fs));
    }
  }

  /** Files with equal timestamps keep their input order. */
  lemma SortGroupStable(fs: seq<string>, t: Stamp)
    requires AllStamped(fs)
    ensures AllStamped(SortGroup(fs)) && WithStamp(Dates(SortGroup(fs)), t) == WithStamp(Dates(fs), t)
  {
    SortGroupDates(fs);
    if |fs| >= 2 {
      SortStable(Dates(fs), t);
    }
  }

  // ----- Trial and Individual -----

  /** A trial: its number and the file of each phase, absent where that phase list is too short. */
  datatype Trial = Trial(num: int,
                         studyPath: Option<string>, studyLook: Option<string>, studySummary: Option<string>,
                         testPath: Option<string>, testLook: Option<string>, testSummary: Option<string>,
                         practicePath: Option<string>, practiceLook: Option<string>, practiceSummary: Option<string>,
                         test2d: Option<string>, testVr: Option<string>)

  /** A subject and the trials kept for it. */
  datatype Individual = Individual(subjectId: string, trials: seq<Trial>)

  /** Trial.is_complete: a trial number and every file except the three practice ones. */
  predicate IsComplete(t: Trial)
  {
    t.num >= 0 && t.studyPath.Some? && t.studyLook.Some? && t.testPath.Some? && t.testLook.Some? &&
    t.test2d.Some? && t.testVr.Some? && t.studySummary.Some? && t.testSummary.Some?
  }

  /** Python truth of an optional file name: present and not the empty string. */
  predicate Present(o: Option<string>)
  {
    o.Some? && o.value != ""
  }

  /** The file fields of a trial, in the order get_full_file_list lists them. */
  function Fields(t: Trial): seq<Option<string>>
  {
    [t.studyPath, t.studyLook, t.studySummary, t.testPath, t.testLook, t.testSummary,
     t.practicePath, t.practiceLook, t.practiceSummary, t.test2d, t.testVr]
  }

  /** `filter(None, files)`: the names that are present, in order. */
  function PresentNames(os: seq<Option<string>>): seq<string>
  {
    if os == [] then []
    else PresentNames(os[..|os| - 1]) + if Present(os[|os| - 1]) then [os[|os| - 1].value] else []
  }

  /** The filtered names are exactly the non-empty names present. */
  lemma {:induction false} PresentNamesMembers(os: seq<Option<string>>, f: string)
    ensures f in PresentNames(os) <==> f != "" && Some(f) in os
  {
    if os != [] {
      var prefix := os[..|os| - 1];
      PresentNamesMembers(prefix, f);
      assert os == prefix + [os[|os| - 1]];
    }
  }

  /** Trial.get_full_file_list. */
  function TrialFiles(t: Trial): seq<string>
  {
    PresentNames(Fields(t))
  }

  /** Individual.get_full_file_list: the trials' lists one after another (filtering them again changes nothing). */
  function IndividualFiles(trials: seq<Trial>): (r: seq<string>)
    ensures forall f :: f in r <==> exists i :: 0 <= i < |trials| && f in TrialFiles(trials[i])
  {
    if trials == [] then []
    else
      var prefix := trials[..|trials| - 1];
      assert forall i :: 0 <= i < |prefix| ==> prefix[i] == trials[i];
      IndividualFiles(prefix) + TrialFiles(trials[|trials| - 1])
  }

  /** The number of complete trials. */
  function CountComplete(trials: seq<Trial>): (n: nat)
    ensures n <= |trials|
  {
    if trials == [] then 0
    else CountComplete(trials[..|trials| - 1]) + if IsComplete(trials[|trials| - 1]) then 1 else 0
  }

  /** Individual.meets_trial_number_requirement: complete trials or all trials, as the policy says, reach the minimum. */
  predicate MeetsTrialNumberRequirement(trials: seq<Trial>, required: int, requireComplete: bool)
  {
    (if requireComplete then CountComplete(trials) else |trials|) >= required
  }

  /** The loop of meets_trial_number_requirement: counts the complete trials, then compares the chosen count. */
  method MeetsRequirement(trials: seq<Trial>, required: int, requireComplete: bool) returns (meets: bool)
    ensures meets == MeetsTrialNumberRequirement(trials, required, requireComplete)
  {
    var complete := 0;
    for i := 0 to |trials|
      invariant complete == CountComplete(trials[..i])
    {
      assert trials[..i + 1][..i] == trials[..i];
      if IsComplete(trials[i]) {
        complete := complete + 1;
      }
    }
    assert trials[..|trials|] == trials;
    var count := |trials|;
    if requireComplete {
      count := complete;
    }
    return count >= required;
  }

  /** Individual.get_full_file_list: the loop extending the list with each trial's files. */
  method IndividualFileList(trials: seq<Trial>) returns (files: seq<string>)
    ensures files == IndividualFiles(trials)
  {
    files := [];
    for i := 0 to |trials|
      invariant files == IndividualFiles(trials[..i])
    {
      assert trials[..i + 1][..i] == trials[..i];
      files := files + TrialFiles(trials[i]);
    }
    assert trials[..|trials|] == trials;
  }

  /** When every trial is complete the two counts agree. */
  lemma {:induction false} CountAllComplete(trials: seq<Trial>)
    requires forall i :: 0 <= i < |trials| ==> IsComplete(trials[i])
    ensures CountComplete(trials) == |trials|
  {
    if trials != [] {
      CountAllComplete(trials[..|trials| - 1]);
    }
  }

  // ----- Date consistency -----

  /** The three triples all_trial_dates_match checks: study, test and practice path, look and summary. */
  function DateTriples(t: Trial): seq<seq<Option<string>>>
  {
    [[t.studyPath, t.studyLook, t.studySummary],
     [t.testPath, t.testLook, t.testSummary],
     [t.practicePath, t.practiceLook, t.practiceSummary]]
  }

  predicate TripleStamped(triple: seq<Option<string>>)
  {
    forall i :: 0 <= i < |triple| && Present(triple[i]) ==> HasTimestamp(triple[i].value)
  }

  /** Every present file of the three triples carries a timestamp. */
  predicate TrialStamped(t: Trial)
  {
    forall k :: 0 <= k < 3 ==> TripleStamped(DateTriples(t)[k])
  }

  /** The decoded timestamp of each present file of a triple. */
  function TripleStamps(triple: seq<Option<string>>): (r: seq<Option<Stamp>>)
    requires TripleStamped(triple)
    ensures |r| == |triple|
  {
    if triple == [] then []
    else
      var last := triple[|triple| - 1];
      TripleStamps(triple[..|triple| - 1]) + [if Present(last) then Some(ExtractDateTime(last.value)) else None]
  }

  lemma TripleStampsStep(triple: seq<Option<string>>, i: nat)
    requires TripleStamped(triple) && i < |triple|
    ensures TripleStamped(triple[..i]) && TripleStamped(triple[..i + 1])
    ensures TripleStamps(triple[..i + 1]) ==
      TripleStamps(triple[..i]) + [if Present(triple[i]) then Some(ExtractDateTime(triple[i].value)) else None]
  {
    var prefix := triple[..i + 1];
    assert prefix[..|prefix| - 1] == triple[..i];
  }

  /** All the stamps that are there are one stamp. */
  predicate AllOneStamp(ss: seq<Option<Stamp>>)
  {
    forall i, j :: 0 <= i < |ss| && 0 <= j < |ss| && ss[i].Some? && ss[j].Some? ==> ss[i].value == ss[j].value
  }

  /** The present files of a triple all carry one timestamp. */
  predicate TripleAgrees(triple: seq<Option<string>>)
    requires TripleStamped(triple)
  {
    AllOneStamp(TripleStamps(triple))
  }

  /** The trial's dates match: within each phase, path, look and summary share one timestamp. */
  predicate DatesMatch(t: Trial)
    requires TrialStamped(t)
  {
    forall k :: 0 <= k < 3 ==> TripleAgrees(DateTriples(t)[k])
  }

  /** The inner loop of all_trial_dates_match: the first present file sets the date, a later one that differs stops the scan. */
  method TripleDatesMatch(triple: seq<Option<string>>) returns (agrees: bool)
    requires TripleStamped(triple)
    ensures agrees == TripleAgrees(triple)
  {
    ghost var ss := TripleStamps(triple);
    var root: Option<Stamp> := None;
    agrees := true;
    var i := 0;
    while i < |triple|
      invariant 0 <= i <= |triple|
      invariant root.None? ==> forall j :: 0 <= j < i ==> ss[j].None?
      invariant root.Some? ==> exists j :: 0 <= j < i && ss[j] == root
      invariant agrees ==> forall j :: 0 <= j < i && ss[j].Some? ==> ss[j] == root
      invariant !agrees ==> !AllOneStamp(ss)
    {
      TripleStampAt(triple, i);
      if Present(triple[i]) {
        var current := ExtractDateTime(triple[i].value);
        if root.None? {
          root := Some(current);
        } else if root.value != current {
          ghost var j :| 0 <= j < i && ss[j] == root;
          agrees := false;
          break;
        }
      }
      i := i + 1;
    }
  }

  /** The stamp the scan decodes at position i. */
  lemma TripleStampAt(triple: seq<Option<string>>, i: nat)
    requires TripleStamped(triple) && i < |triple|
    ensures TripleStamps(triple)[i] == if Present(triple[i]) then Some(ExtractDateTime(triple[i].value)) else None
  {
    TripleStampsPrefix(triple, i + 1);
    TripleStampsStep(triple, i);
    var front := TripleStamps(triple[..i + 1]);
    assert front[i] == TripleStamps(triple)[i];
  }

  /** The stamps of a prefix are a prefix of the stamps. */
  lemma {:induction false} TripleStampsPrefix(triple: seq<Option<string>>, i: nat)
    requires TripleStamped(triple) && i <= |triple|
    ensures TripleStamped(triple[..i]) && TripleStamps(triple[..i]) == TripleStamps(triple)[..i]
    decreases |triple| - i
  {
    if i == |triple| {
      assert triple[..i] == triple;
    } else {
      TripleStampsPrefix(triple, i + 1);
      TripleStampsStep(triple, i);
    }
  }

  /** Trial.all_trial_dates_match: a mismatch in one triple clears the flag; the other triples are still scanned. */
  method AllTrialDatesMatch(t: Trial) returns (matches: bool)
    requires TrialStamped(t)
    ensures matches == DatesMatch(t)
  {
    var triples := DateTriples(t);
    matches := true;
    for k := 0 to 3
      invariant matches == forall k' :: 0 <= k' < k ==> TripleAgrees(triples[k'])
    {
      var agrees := TripleDatesMatch(triples[k]);
      if !agrees {
        matches := false;
      }
    }
  }

  // ----- The trials of one subject -----

  /** One subject's entry of subject_dict: phase to list of files. */
  type PhaseLists = map<Phase, seq<string>>

  /** Every phase key an entry can hold. */
  const AllPhases: seq<Phase> := [Practice, Study, Test, PracticeSummary, StudySummary, TestSummary, Test2d]

  lemma AllPhasesListed(p: Phase)
    ensures exists j :: 0 <= j < |AllPhases| && AllPhases[j] == p
  {
    match p
    case Practice => assert AllPhases[0] == p;
    case Study => assert AllPhases[1] == p;
    case Test => assert AllPhases[2] == p;
    case PracticeSummary => assert AllPhases[3] == p;
    case StudySummary => assert AllPhases[4] == p;
    case TestSummary => assert AllPhases[5] == p;
    case Test2d => assert AllPhases[6] == p;
  }

  /** A phase's list; a missing phase reads as the empty list. */
  function Entry(sg: PhaseLists, p: Phase): seq<string>
  {
    if p in sg then sg[p] else []
  }

  /** Every file of every list carries a timestamp. */
  predicate SubjectStamped(sg: PhaseLists)
  {
    forall p :: p in sg ==> AllStamped(sg[p])
  }

  /** `phase in entry and len(entry[phase]) > i`, then `entry[phase][i]`. */
  function Nth(sg: PhaseLists, p: Phase, i: nat): Option<string>
  {
    if |Entry(sg, p)| > i then Some(Entry(sg, p)[i]) else None
  }

  /** Trial i: the i-th file of each phase list; path and look are one file, and so are test_vr and test_summary. */
  function TrialAt(sg: PhaseLists, i: nat): Trial
  {
    Trial(i, Nth(sg, Study, i), Nth(sg, Study, i), Nth(sg, StudySummary, i),
          Nth(sg, Test, i), Nth(sg, Test, i), Nth(sg, TestSummary, i),
          Nth(sg, Practice, i), Nth(sg, Practice, i), Nth(sg, PracticeSummary, i),
          Nth(sg, Test2d, i), Nth(sg, TestSummary, i))
  }

  /** A trial is complete exactly when every phase list except the practice ones reaches index i. */
  lemma TrialAtComplete(sg: PhaseLists, i: nat)
    ensures IsComplete(TrialAt(sg, i)) <==>
      |Entry(sg, Study)| > i && |Entry(sg, Test)| > i && |Entry(sg, Test2d)| > i &&
      |Entry(sg, StudySummary)| > i && |Entry(sg, TestSummary)| > i
  {
  }

  /** The files of trial i are the present i-th files of the phase lists. */
  lemma TrialAtFiles(sg: PhaseLists, i: nat, f: string)
    ensures f in TrialFiles(TrialAt(sg, i)) <==> f != "" && exists p :: Nth(sg, p, i) == Some(f)
  {
    var fs := Fields(TrialAt(sg, i));
    PresentNamesMembers(fs, f);
    TrialAtFields(sg, i);
    if f in TrialFiles(TrialAt(sg, i)) {
      var k :| 0 <= k < |fs| && fs[k] == Some(f);
      assert Nth(sg, FieldPhases[k], i) == Some(f);
    }
    if f != "" && exists p :: Nth(sg, p, i) == Some(f) {
      var p :| Nth(sg, p, i) == Some(f);
      var k := FieldOf(p);
      assert fs[k] == Some(f);
    }
  }

  /** The phase each file field of a trial is taken from. */
  const FieldPhases: seq<Phase> :=
    [Study, Study, StudySummary, Test, Test, TestSummary, Practice, Practice, PracticeSummary, Test2d, TestSummary]

  /** A field of a trial that is taken from phase `p`. */
  function FieldOf(p: Phase): (k: nat)
    ensures k < |FieldPhases| && FieldPhases[k] == p
  {
    match p
    case Study => 0
    case StudySummary => 2
    case Test => 3
    case TestSummary => 5
    case Practice => 6
    case PracticeSummary => 8
    case Test2d => 9
  }

  lemma TrialAtFields(sg: PhaseLists, i: nat)
    ensures |Fields(TrialAt(sg, i))| == |FieldPhases|
    ensures forall k :: 0 <= k < |FieldPhases| ==> Fields(TrialAt(sg, i))[k] == Nth(sg, FieldPhases[k], i)
  {
  }

  lemma TrialAtStamped(sg: PhaseLists, i: nat)
    requires SubjectStamped(sg)
    ensures TrialStamped(TrialAt(sg, i))
  {
  }

  /** The longest list among the phases ps. */
  function MaxLength(sg: PhaseLists, ps: seq<Phase>): nat
  {
    if ps == [] then 0 else Max(MaxLength(sg, ps[..|ps| - 1]), |Entry(sg, ps[|ps| - 1])|)
  }

  /** max_trial_phase_count: the longest phase list. */
  function TrialCount(sg: PhaseLists): nat
  {
    MaxLength(sg, AllPhases)
  }

  lemma {:induction false} MaxLengthBounds(sg: PhaseLists, ps: seq<Phase>)
    ensures forall j :: 0 <= j < |ps| ==> |Entry(sg, ps[j])| <= MaxLength(sg, ps)
    ensures MaxLength(sg, ps) == 0 || exists j :: 0 <= j < |ps| && |Entry(sg, ps[j])| == MaxLength(sg, ps)
  {
    if ps != [] {
      var prefix := ps[..|ps| - 1];
      MaxLengthBounds(sg, prefix);
      assert forall j :: 0 <= j < |prefix| ==> prefix[j] == ps[j];
    }
  }

  /** The number of trials built is the length of the longest phase list. */
  lemma TrialCountIsMax(sg: PhaseLists)
    ensures forall p :: |Entry(sg, p)| <= TrialCount(sg)
    ensures TrialCount(sg) == 0 || exists p :: |Entry(sg, p)| == TrialCount(sg)
  {
    MaxLengthBounds(sg, AllPhases);
    forall p
      ensures |Entry(sg, p)| <= TrialCount(sg)
    {
      AllPhasesListed(p);
    }
  }

  // ----- Sorting one subject's lists -----

  /** The subject's entry with every phase list sorted by timestamp. */
  function SortedEntry(sg: PhaseLists): (r: PhaseLists)
    requires SubjectStamped(sg)
    ensures r.Keys == sg.Keys
  {
    map p | p in sg :: SortGroup(sg[p])
  }

  /** Sorting keeps every list's files and their number and puts each list in timestamp order. */
  lemma SortedEntryLists(sg: PhaseLists, p: Phase)
    requires SubjectStamped(sg)
    ensures SubjectStamped(SortedEntry(sg))
    ensures multiset(Entry(SortedEntry(sg), p)) == multiset(Entry(sg, p))
    ensures |Entry(SortedEntry(sg), p)| == |Entry(sg, p)|
    ensures |Entry(sg, p)| >= 2 ==> Ascending(Dates(Entry(SortedEntry(sg), p)))
  {
    SortedEntryStamped(sg);
    var r := SortedEntry(sg);
    if p in sg {
      SortGroupPermutes(sg[p]);
      SortGroupAscending(sg[p]);
      assert |multiset(r[p])| == |multiset(sg[p])|;
    }
  }

  /** Sorted lists keep their timestamps. */
  lemma SortedEntryStamped(sg: PhaseLists)
    requires SubjectStamped(sg)
    ensures SubjectStamped(SortedEntry(sg))
  {
    var r := SortedEntry(sg);
    forall q | q in r
      ensures AllStamped(r[q])
    {
      SortGroupAscending(sg[q]);
    }
  }

  /** The longest list of a sorted entry is the longest list of the entry. */
  lemma {:induction false} SortedMaxLength(sg: PhaseLists, ps: seq<Phase>)
    requires SubjectStamped(sg)
    ensures MaxLength(SortedEntry(sg), ps) == MaxLength(sg, ps)
  {
    if ps != [] {
      SortedMaxLength(sg, ps[..|ps| - 1]);
      SortedEntryLists(sg, ps[|ps| - 1]);
    }
  }

  lemma DatesStep(fs: seq<string>, i: nat)
    requires i < |fs| && AllStamped(fs[..i]) && HasTimestamp(fs[i])
    ensures AllStamped(fs[..i + 1]) && Dates(fs[..i + 1]) == Dates(fs[..i]) + [(ExtractDateTime(fs[i]), fs[i])]
  {
    var front := fs[..i + 1];
    assert forall j :: 0 <= j < i ==> front[j] == fs[..i][j];
    assert front[i] == fs[i];
  }

  /** The dates loop of catalog_files: each file's timestamp, in list order; a file without one raises TypeError. */
  method DateFiles(fs: seq<string>) returns (r: Result<seq<Dated>>)
    ensures r.Ok? <==> AllStamped(fs)
    ensures r.Ok? ==> AllStamped(fs) && r.value == Dates(fs)
    ensures r.Err? ==> r.fault == TypeError
  {
    var dates: seq<Dated> := [];
    for i := 0 to |fs|
      invariant AllStamped(fs[..i]) && dates == Dates(fs[..i])
    {
      if !HasTimestamp(fs[i]) {
        return Err(TypeError);
      }
      DatesStep(fs, i);
      dates := dates + [(ExtractDateTime(fs[i]), fs[i])];
    }
    assert fs[..|fs|] == fs;
    return Ok(dates);
  }

  lemma MaxLengthStep(sg: PhaseLists, ps: seq<Phase>, j: nat)
    requires j < |ps|
    ensures MaxLength(sg, ps[..j + 1]) == Max(MaxLength(sg, ps[..j]), |Entry(sg, ps[j])|)
  {
    var prefix := ps[..j + 1];
    assert prefix[..|prefix| - 1] == ps[..j];
    assert prefix[|prefix| - 1] == ps[j];
  }

  /** The lists of the first j phases are sorted. */
  predicate SortedBelow(sg: PhaseLists, sorted: PhaseLists, j: nat)
  {
    sorted.Keys == sg.Keys &&
    forall a :: 0 <= a < j && a < |AllPhases| && AllPhases[a] in sg ==>
      AllStamped(sg[AllPhases[a]]) && sorted[AllPhases[a]] == SortGroup(sg[AllPhases[a]])
  }

  lemma SortedBelowStep(sg: PhaseLists, sorted: PhaseLists, j: nat)
    requires j < |AllPhases| && SortedBelow(sg, sorted, j) && AllPhases[j] in sg && AllStamped(sg[AllPhases[j]])
    ensures SortedBelow(sg, sorted[AllPhases[j] := SortGroup(sg[AllPhases[j]])], j + 1)
  {
    AllPhasesDistinct();
  }

  /** Once the lists of all phases are sorted, the entry is stamped and sorted, and the count is the trial count. */
  lemma SortedAll(sg: PhaseLists, sorted: PhaseLists)
    requires SortedBelow(sg, sorted, |AllPhases|)
    ensures SubjectStamped(sg) && sorted == SortedEntry(sg)
    ensures MaxLength(sg, AllPhases[..|AllPhases|]) == TrialCount(sg)
  {
    assert AllPhases[..|AllPhases|] == AllPhases;
    forall p | p in sg
      ensures AllStamped(sg[p]) && sorted[p] == SortGroup(sg[p])
    {
      AllPhasesListed(p);
    }
  }

  /** The phases are listed once each. */
  lemma AllPhasesDistinct()
    ensures forall a, b :: 0 <= a < b < |AllPhases| ==> AllPhases[a] != AllPhases[b]
  {
  }

  /** Dating, zipping and (for two or more files) sorting one phase list, as catalog_files does. */
  method SortList(fs: seq<string>) returns (r: Result<seq<string>>)
    ensures r.Ok? <==> AllStamped(fs)
    ensures r.Ok? ==> AllStamped(fs) && r.value == SortGroup(fs)
    ensures r.Err? ==> r.fault == TypeError
  {
    var dates := DateFiles(fs);
    if dates.Err? {
      return Err(TypeError);
    }
    if |dates.value| >= 2 {
      return Ok(Names(SortByStamp(dates.value)));
    }
    return Ok(fs);
  }

  /**
   * The phase loop of catalog_files for one subject: tracks the longest list and sorts every list of two or
   * more files by timestamp.
   */
  method SortPhases(sg: PhaseLists) returns (r: Result<(PhaseLists, nat)>)
    ensures r.Ok? <==> SubjectStamped(sg)
    ensures r.Ok? ==> SubjectStamped(sg) && r.value == (SortedEntry(sg), TrialCount(sg))
    ensures r.Err? ==> r.fault == TypeError
  {
    AllPhasesDistinct();
    var sorted := sg;
    var count := 0;
    for j := 0 to |AllPhases|
      invariant sorted.Keys == sg.Keys
      invariant count == MaxLength(sg, AllPhases[..j])
      invariant SortedBelow(sg, sorted, j)
      invariant forall a :: j <= a < |AllPhases| && AllPhases[a] in sg ==> sorted[AllPhases[a]] == sg[AllPhases[a]]
    {
      var p := AllPhases[j];
      MaxLengthStep(sg, AllPhases, j);
      if p in sg {
        var fs := sg[p];
        if |fs| > count {
          count := |fs|;
        }
        var list := SortList(fs);
        if list.Err? {
          return Err(TypeError);
        }
        SortedBelowStep(sg, sorted, j);
        sorted := sorted[p := list.value];
      }
    }
    SortedAll(sg, sorted);
    return Ok((sorted, count));
  }

  // ----- Building the trials of one subject -----

  /** The body of the trial loop of catalog_files: trial i takes the i-th file of every list long enough. */
  method BuildTrial(sg: PhaseLists, i: nat) returns (t: Trial)
    ensures t == TrialAt(sg, i)
  {
    var practice := PhaseFile(sg, Practice, i);
    var study := PhaseFile(sg, Study, i);
    var test := PhaseFile(sg, Test, i);
    var test2d := PhaseFile(sg, Test2d, i);
    var testSummary := PhaseFile(sg, TestSummary, i);
    var studySummary := PhaseFile(sg, StudySummary, i);
    var practiceSummary := PhaseFile(sg, PracticeSummary, i);
    // path and look of a phase are the same file, and so are test_vr and test_summary
    t := Trial(i, study, study, studySummary, test, test, testSummary,
               practice, practice, practiceSummary, test2d, testSummary);
  }

  /** One test of the trial loop: the i-th file of the phase, if the entry has the phase and the list is long enough. */
  method PhaseFile(sg: PhaseLists, p: Phase, i: nat) returns (o: Option<string>)
    ensures o.Some? <==> |Entry(sg, p)| > i
    ensures o.Some? ==> o.value == Entry(sg, p)[i]
  {
    if p in sg && |sg[p]| > i {
      return Some(sg[p][i]);
    }
    return None;
  }

  /** Trial i is kept: it is complete when incomplete trials are excluded, and its dates match. */
  predicate Keeps(sg: PhaseLists, i: nat, exclude: bool)
    requires SubjectStamped(sg)
  {
    TrialAtStamped(sg, i);
    (exclude ==> IsComplete(TrialAt(sg, i))) && DatesMatch(TrialAt(sg, i))
  }

  /** Trial i is dropped and its files go to the excluded files: the policy is on and the trial is incomplete. */
  predicate Drops(sg: PhaseLists, i: nat, exclude: bool)
  {
    exclude && !IsComplete(TrialAt(sg, i))
  }

  /**
   * Trials 0..n-1 of a subject: the kept trials in order, and the files of the trials dropped as incomplete.
   * A trial whose dates do not match is dropped too, but its files are not listed anywhere.
   */
  function Assemble(sg: PhaseLists, n: nat, exclude: bool): (seq<Trial>, seq<string>)
    requires SubjectStamped(sg)
  {
    if n == 0 then ([], [])
    else
      var (kept, dropped) := Assemble(sg, n - 1, exclude);
      var t := TrialAt(sg, n - 1);
      if Drops(sg, n - 1, exclude) then (kept, dropped + TrialFiles(t))
      else if Keeps(sg, n - 1, exclude) then (kept + [t], dropped)
      else (kept, dropped)
  }

  /** The trial loop of catalog_files for one subject. */
  method AssembleTrials(sg: PhaseLists, n: nat, exclude: bool) returns (kept: seq<Trial>, dropped: seq<string>)
    requires SubjectStamped(sg)
    ensures (kept, dropped) == Assemble(sg, n, exclude)
  {
    kept, dropped := [], [];
    for i := 0 to n
      invariant (kept, dropped) == Assemble(sg, i, exclude)
    {
      var t := BuildTrial(sg, i);
      if exclude && !IsComplete(t) {
        dropped := dropped + TrialFiles(t);
      } else {
        TrialAtStamped(sg, i);
        var matches := AllTrialDatesMatch(t);
        if matches {
          kept := kept + [t];
        }
      }
    }
  }

  /** The kept trials are trials built from the lists, numbered below n. */
  lemma {:induction false} AssembleKeptAre(sg: PhaseLists, n: nat, exclude: bool, t: Trial)
    requires SubjectStamped(sg)
    ensures t in Assemble(sg, n, exclude).0 ==> 0 <= t.num < n && t == TrialAt(sg, t.num) && Keeps(sg, t.num, exclude)
  {
    if n == 0 {
      assert Assemble(sg, n, exclude).0 == [];
    } else if t in Assemble(sg, n - 1, exclude).0 {
      AssembleKeptAre(sg, n - 1, exclude, t);
    } else if t in Assemble(sg, n, exclude).0 {
      AssembleNewest(sg, n, exclude, t);
    }
  }

  /** A trial that the last trial number adds to the kept trials is that trial, and it is kept. */
  lemma AssembleNewest(sg: PhaseLists, n: nat, exclude: bool, t: Trial)
    requires SubjectStamped(sg) && n > 0
    requires t in Assemble(sg, n, exclude).0 && t !in Assemble(sg, n - 1, exclude).0
    ensures t == TrialAt(sg, n - 1) && t.num == n - 1 && Keeps(sg, n - 1, exclude)
  {
    AssembleStep(sg, n, exclude);
  }

  /** One more trial number: the trial is kept, dropped with its files, or dropped without them. */
  lemma AssembleStep(sg: PhaseLists, n: nat, exclude: bool)
    requires SubjectStamped(sg) && n > 0
    ensures Assemble(sg, n, exclude).0 == Assemble(sg, n - 1, exclude).0 +
      if !Drops(sg, n - 1, exclude) && Keeps(sg, n - 1, exclude) then [TrialAt(sg, n - 1)] else []
    ensures Assemble(sg, n, exclude).1 == Assemble(sg, n - 1, exclude).1 +
      if Drops(sg, n - 1, exclude) then TrialFiles(TrialAt(sg, n - 1)) else []
  {
  }

  /** Trial i is among the kept trials exactly when it is numbered below n and kept. */
  lemma {:induction false} AssembleKeeps(sg: PhaseLists, n: nat, exclude: bool, i: nat)
    requires SubjectStamped(sg)
    ensures TrialAt(sg, i) in Assemble(sg, n, exclude).0 <==> i < n && Keeps(sg, i, exclude)
  {
    if n > 0 {
      AssembleKeeps(sg, n - 1, exclude, i);
      AssembleKeptAre(sg, n - 1, exclude, TrialAt(sg, i));
      AssembleStep(sg, n, exclude);
    } else {
      assert Assemble(sg, n, exclude).0 == [];
    }
  }

  /** The kept trials appear in increasing trial number. */
  lemma {:induction false} AssembleOrdered(sg: PhaseLists, n: nat, exclude: bool)
    requires SubjectStamped(sg)
    ensures forall a, b :: 0 <= a < b < |Assemble(sg, n, exclude).0| ==>
      Assemble(sg, n, exclude).0[a].num < Assemble(sg, n, exclude).0[b].num
  {
    if n > 0 {
      AssembleOrdered(sg, n - 1, exclude);
      var kept := Assemble(sg, n - 1, exclude).0;
      AssembleStep(sg, n, exclude);
      forall a | 0 <= a < |kept|
        ensures kept[a].num < n - 1
      {
        AssembleKeptAre(sg, n - 1, exclude, kept[a]);
      }
    }
  }

  /** File f belongs to trial i and the policy drops that trial. */
  predicate DroppedWith(sg: PhaseLists, i: nat, exclude: bool, f: string)
  {
    Drops(sg, i, exclude) && f in TrialFiles(TrialAt(sg, i))
  }

  /** A file is listed as dropped exactly when it belongs to a trial below n that the policy drops. */
  lemma {:induction false} AssembleDropped(sg: PhaseLists, n: nat, exclude: bool, f: string)
    requires SubjectStamped(sg)
    ensures f in Assemble(sg, n, exclude).1 <==> exists i :: 0 <= i < n && DroppedWith(sg, i, exclude, f)
  {
    if n > 0 {
      AssembleDropped(sg, n - 1, exclude, f);
      AssembleStep(sg, n, exclude);
      DroppedBelow(sg, n, exclude, f);
    }
  }

  /** Splitting off the last trial number of a search for a trial that drops f. */
  lemma DroppedBelow(sg: PhaseLists, n: nat, exclude: bool, f: string)
    requires n > 0
    ensures (exists i :: 0 <= i < n && DroppedWith(sg, i, exclude, f)) <==>
      (exists i :: 0 <= i < n - 1 && DroppedWith(sg, i, exclude, f)) || DroppedWith(sg, n - 1, exclude, f)
  {
    if exists i :: 0 <= i < n && DroppedWith(sg, i, exclude, f) {
      var i :| 0 <= i < n && DroppedWith(sg, i, exclude, f);
      if i < n - 1 {
        assert 0 <= i < n - 1 && DroppedWith(sg, i, exclude, f);
      }
    }
    if exists i :: 0 <= i < n - 1 && DroppedWith(sg, i, exclude, f) {
      var i :| 0 <= i < n - 1 && DroppedWith(sg, i, exclude, f);
      assert 0 <= i < n && DroppedWith(sg, i, exclude, f);
    }
    if DroppedWith(sg, n - 1, exclude, f) {
      assert 0 <= n - 1 < n && DroppedWith(sg, n - 1, exclude, f);
    }
  }

  /** With incomplete trials excluded, every kept trial is complete, so the requirement counts every kept trial. */
  lemma AssembleRequirement(sg: PhaseLists, n: nat, exclude: bool, required: int)
    requires SubjectStamped(sg)
    ensures MeetsTrialNumberRequirement(Assemble(sg, n, exclude).0, required, exclude) <==>
      |Assemble(sg, n, exclude).0| >= required
  {
    var kept := Assemble(sg, n, exclude).0;
    if exclude {
      forall a | 0 <= a < |kept|
        ensures IsComplete(kept[a])
      {
        AssembleKeptAre(sg, n, exclude, kept[a]);
      }
      CountAllComplete(kept);
    }
  }
}
