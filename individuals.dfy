/**
 * The last stage of catalog_files: for every subject, the sorted phase lists become trials, the trials
 * become an individual, and the individuals that have enough trials make up the catalog, together with the
 * excluded and the non-matching files.
 */
module Individuals {
  import opened Common
  import opened Timestamps
  import opened Catalog
  import opened Trials

  /** The individual catalog_files builds for subject s, and the files of its trials dropped as incomplete. */
  function IndividualOf(s: string, sg: PhaseLists, exclude: bool): (Individual, seq<string>)
    requires SubjectStamped(sg)
  {
    SortedEntryStamped(sg);
    var r := Assemble(SortedEntry(sg), TrialCount(sg), exclude);
    (Individual(s, r.0), r.1)
  }

  /** The body of the subject loop of catalog_files, up to the requirement check. */
  method BuildIndividual(s: string, sg: PhaseLists, exclude: bool) returns (r: Result<(Individual, seq<string>)>)
    ensures r.Ok? <==> SubjectStamped(sg)
    ensures r.Ok? ==> SubjectStamped(sg) && r.value == IndividualOf(s, sg, exclude)
    ensures r.Err? ==> r.fault == TypeError
  {
    var sorted := SortPhases(sg);
    if sorted.Err? {
      return Err(TypeError);
    }
    SortedEntryStamped(sg);
    var kept, dropped := AssembleTrials(sorted.value.0, sorted.value.1, exclude);
    return Ok((Individual(s, kept), dropped));
  }

  /** What catalog_files returns: the individuals by subject id, the excluded files and the non-matching files. */
  datatype FileCatalog = FileCatalog(individuals: map<string, Individual>, excluded: set<string>, nonMatching: set<string>)

  /** `set(xs)`: the distinct elements of a list. */
  function Members(xs: seq<string>): (r: set<string>)
    ensures forall f :: f in r <==> f in xs
  {
    set f | f in xs
  }

  lemma MembersAppend(xs: seq<string>, ys: seq<string>)
    ensures Members(xs + ys) == Members(xs) + Members(ys)
  {
  }

  /** Every subject's lists carry timestamps. */
  predicate GroupsStamped(g: Groups)
  {
    forall s :: s in g ==> SubjectStamped(g[s])
  }

  /** The subjects in `done` have stamped lists. */
  predicate StampedAmong(g: Groups, done: set<string>)
  {
    done <= g.Keys && forall s :: s in done ==> SubjectStamped(g[s])
  }

  /** Whether the individual of subject s meets the trial requirement. */
  predicate Admits(g: Groups, s: string, required: int, exclude: bool)
    requires s in g && SubjectStamped(g[s])
  {
    MeetsTrialNumberRequirement(IndividualOf(s, g[s], exclude).0.trials, required, exclude)
  }

  /** The individuals, among the subjects in `done`, that meet the requirement. */
  function Admitted(g: Groups, done: set<string>, required: int, exclude: bool): map<string, Individual>
    requires StampedAmong(g, done)
  {
    map s | s in done && Admits(g, s, required, exclude) :: IndividualOf(s, g[s], exclude).0
  }

  /** The files of the trials dropped as incomplete, over the subjects in `done`. */
  function DroppedFiles(g: Groups, done: set<string>, exclude: bool): set<string>
    requires StampedAmong(g, done)
  {
    set s, f | s in done && f in IndividualOf(s, g[s], exclude).1 :: f
  }

  /**
   * catalog_files: grouping fails with IndexError on a log without a subject id, sorting fails with TypeError
   * on a grouped file without a timestamp; otherwise the catalog of the subjects that meet the requirement.
   */
  function CatalogOf(files: seq<string>, required: int, exclude: bool): Result<FileCatalog>
  {
    match GroupFiles(files)
    case Err(e) => Err(e)
    case Ok(st) =>
      if !GroupsStamped(st.0) then Err(TypeError)
      else
        assert StampedAmong(st.0, st.0.Keys);
        Ok(FileCatalog(Admitted(st.0, st.0.Keys, required, exclude),
                   Members(st.1) + DroppedFiles(st.0, st.0.Keys, exclude),
                   Members(OfKind(files, Unmatched))))
  }

  lemma AdmittedStep(g: Groups, done: set<string>, s: string, required: int, exclude: bool)
    requires StampedAmong(g, done) && s in g && s !in done && SubjectStamped(g[s])
    ensures StampedAmong(g, done + {s})
    ensures Admitted(g, done + {s}, required, exclude) ==
      if Admits(g, s, required, exclude) then Admitted(g, done, required, exclude)[s := IndividualOf(s, g[s], exclude).0]
      else Admitted(g, done, required, exclude)
  {
  }

  lemma DroppedStep(g: Groups, done: set<string>, s: string, exclude: bool)
    requires StampedAmong(g, done) && s in g && s !in done && SubjectStamped(g[s])
    ensures StampedAmong(g, done + {s})
    ensures DroppedFiles(g, done + {s}, exclude) ==
      DroppedFiles(g, done, exclude) + Members(IndividualOf(s, g[s], exclude).1)
  {
  }

  /**
   * The subject loop of catalog_files: every subject's individual is built, kept when it meets the requirement,
   * and the files of its dropped trials are appended to other_files; a file without a timestamp raises TypeError.
   * Subjects are taken in no particular order, as a dictionary yields them.
   */
  method BuildIndividuals(g: Groups, other0: seq<string>, required: int, exclude: bool)
    returns (r: Result<(map<string, Individual>, seq<string>)>)
    ensures r.Ok? <==> GroupsStamped(g)
    ensures r.Ok? ==> StampedAmong(g, g.Keys) && r.value.0 == Admitted(g, g.Keys, required, exclude)
    ensures r.Ok? ==> StampedAmong(g, g.Keys) && Members(r.value.1) == Members(other0) + DroppedFiles(g, g.Keys, exclude)
    ensures r.Err? ==> r.fault == TypeError
  {
    var other := other0;
    var individuals: map<string, Individual> := map[];
    var remaining := g.Keys;
    ghost var done: set<string> := {};
    while remaining != {}
      invariant remaining !! done && remaining + done == g.Keys
      invariant StampedAmong(g, done)
      invariant individuals == Admitted(g, done, required, exclude)
      invariant Members(other) == Members(other0) + DroppedFiles(g, done, exclude)
      decreases remaining
    {
      var s :| s in remaining;
      var built := BuildIndividual(s, g[s], exclude);
      if built.Err? {
        return Err(TypeError);
      }
      AdmittedStep(g, done, s, required, exclude);
      DroppedStep(g, done, s, exclude);
      MembersAppend(other, built.value.1);
      other := other + built.value.1;
      var meets := MeetsRequirement(built.value.0.trials, required, exclude);
      if meets {
        individuals := individuals[s := built.value.0];
      }
      remaining := remaining - {s};
      done := done + {s};
    }
    assert done == g.Keys;
    return Ok((individuals, other));
  }

  /** catalog_files: grouping, the subject loop, then the excluded and non-matching lists made into sets. */
  method CatalogFiles(files: seq<string>, required: int, exclude: bool) returns (r: Result<FileCatalog>)
    ensures r == CatalogOf(files, required, exclude)
  {
    var grouped, nonMatching := GroupAllFiles(files);
    if grouped.Err? {
      return Err(grouped.fault);
    }
    var built := BuildIndividuals(grouped.value.0, grouped.value.1, required, exclude);
    if built.Err? {
      return Err(TypeError);
    }
    return Ok(FileCatalog(built.value.0, Members(built.value.1), Members(nonMatching)));
  }

  // ----- What the catalog holds -----

  /** The subjects' lists are stamped exactly when every placed input file carries a timestamp. */
  lemma GroupsStampedIff(files: seq<string>)
    requires GroupFiles(files).Ok?
    ensures GroupsStamped(GroupFiles(files).value.0) <==> forall f :: f in files && Placed(f) ==> HasTimestamp(f)
  {
    var g := GroupFiles(files).value.0;
    if GroupsStamped(g) {
      forall f | f in files && Placed(f)
        ensures HasTimestamp(f)
      {
        var s, p := PlacedInGroup(f);
        GroupedMembers(files, s, p, f);
        GroupFilesLookup(files, s, p);
        assert f in Lookup(g, s, p);
        assert AllStamped(g[s][p]);
      }
    } else {
      var s :| s in g && !SubjectStamped(g[s]);
      var p :| p in g[s] && !AllStamped(g[s][p]);
      var i :| 0 <= i < |g[s][p]| && !HasTimestamp(g[s][p][i]);
      var f := g[s][p][i];
      GroupFilesLookup(files, s, p);
      assert f in Lookup(g, s, p);
      GroupedMembers(files, s, p, f);
      InGroupPlaced(f, s, p);
    }
  }

  /**
   * catalog_files fails with IndexError when grouping does (a log without a subject id), and otherwise with
   * TypeError exactly when some placed input file carries no timestamp.
   */
  lemma CatalogFails(files: seq<string>, required: int, exclude: bool)
    ensures GroupFiles(files).Err? ==> CatalogOf(files, required, exclude) == Err(IndexError)
    ensures GroupFiles(files).Ok? ==>
      (CatalogOf(files, required, exclude).Ok? <==> forall f :: f in files && Placed(f) ==> HasTimestamp(f))
    ensures GroupFiles(files).Ok? && CatalogOf(files, required, exclude).Err? ==>
      CatalogOf(files, required, exclude).fault == TypeError
  {
    GroupFilesFails(files);
    if GroupFiles(files).Ok? {
      GroupsStampedIff(files);
    }
  }

  /** A file of a trial built from sorted lists comes from one of the unsorted lists. */
  lemma SortedTrialFile(sg: PhaseLists, i: nat, f: string) returns (p: Phase)
    requires SubjectStamped(sg)
    requires f in TrialFiles(TrialAt(SortedEntry(sg), i))
    ensures f in Entry(sg, p)
  {
    TrialAtFiles(SortedEntry(sg), i, f);
    p :| Nth(SortedEntry(sg), p, i) == Some(f);
    SortedEntryLists(sg, p);
    assert f in multiset(Entry(SortedEntry(sg), p));
  }

  /** Each individual carries its own subject id and meets the trial requirement. */
  lemma CatalogSubjects(files: seq<string>, required: int, exclude: bool, s: string)
    requires CatalogOf(files, required, exclude).Ok?
    ensures var c := CatalogOf(files, required, exclude).value;
      s in c.individuals ==> (c.individuals[s].subjectId == s &&
        MeetsTrialNumberRequirement(c.individuals[s].trials, required, exclude))
    ensures var c := CatalogOf(files, required, exclude).value;
      s in c.individuals && exclude ==> |c.individuals[s].trials| >= required
  {
    var g := GroupFiles(files).value.0;
    var c := CatalogOf(files, required, exclude).value;
    if s in c.individuals {
      SortedEntryStamped(g[s]);
      AssembleRequirement(SortedEntry(g[s]), TrialCount(g[s]), exclude, required);
    }
  }

  /** Every individual's subject has a placed input file. */
  lemma CatalogSubjectsPlaced(files: seq<string>, required: int, exclude: bool, s: string)
    requires CatalogOf(files, required, exclude).Ok?
    ensures s in CatalogOf(files, required, exclude).value.individuals ==>
      exists f, p :: f in files && Placed(f) && InGroup(f, s, p)
  {
    var g := GroupFiles(files).value.0;
    if s in CatalogOf(files, required, exclude).value.individuals {
      assert s in g;
      GroupFilesTidy(files);
      TidyKeys(g, s);
      var p :| Lookup(g, s, p) != [];
      var f := Lookup(g, s, p)[0];
      GroupFilesLookup(files, s, p);
      GroupedMembers(files, s, p, f);
      InGroupPlaced(f, s, p);
    }
  }

  /** Every kept trial is numbered, complete when the policy asks for it, and has matching dates. */
  lemma CatalogTrials(files: seq<string>, required: int, exclude: bool, s: string, t: Trial)
    requires CatalogOf(files, required, exclude).Ok?
    requires s in CatalogOf(files, required, exclude).value.individuals
    requires t in CatalogOf(files, required, exclude).value.individuals[s].trials
    ensures t.num >= 0 && (exclude ==> IsComplete(t)) && TrialStamped(t) && DatesMatch(t)
  {
    var g := GroupFiles(files).value.0;
    SortedEntryStamped(g[s]);
    var sg := SortedEntry(g[s]);
    assert t in Assemble(sg, TrialCount(g[s]), exclude).0;
    AssembleKeptAre(sg, TrialCount(g[s]), exclude, t);
    TrialAtStamped(sg, t.num);
    assert Keeps(sg, t.num, exclude);
  }

  /** An individual's trials are in increasing trial number. */
  lemma CatalogTrialsOrdered(files: seq<string>, required: int, exclude: bool, s: string)
    requires CatalogOf(files, required, exclude).Ok?
    requires s in CatalogOf(files, required, exclude).value.individuals
    ensures var trials := CatalogOf(files, required, exclude).value.individuals[s].trials;
      forall a, b :: 0 <= a < b < |trials| ==> trials[a].num < trials[b].num
  {
    var g := GroupFiles(files).value.0;
    SortedEntryStamped(g[s]);
    AssembleOrdered(SortedEntry(g[s]), TrialCount(g[s]), exclude);
  }

  /** Every file of a trial of subject s is an input file that grouping placed under s. */
  lemma CatalogTrialFiles(files: seq<string>, required: int, exclude: bool, s: string, t: Trial, f: string)
    requires CatalogOf(files, required, exclude).Ok?
    requires s in CatalogOf(files, required, exclude).value.individuals
    requires t in CatalogOf(files, required, exclude).value.individuals[s].trials
    requires f in TrialFiles(t)
    ensures f in files && exists p :: InGroup(f, s, p)
  {
    var g := GroupFiles(files).value.0;
    SortedEntryStamped(g[s]);
    AssembleKeptAre(SortedEntry(g[s]), TrialCount(g[s]), exclude, t);
    var p := SortedTrialFile(g[s], t.num, f);
    GroupFilesLookup(files, s, p);
    assert f in Lookup(g, s, p);
    GroupedMembers(files, s, p, f);
  }

  /** Subject s drops a trial of its sorted lists that holds f. */
  predicate DroppedOf(g: Groups, s: string, f: string)
  {
    s in g && SubjectStamped(g[s]) &&
    exists i :: 0 <= i < TrialCount(g[s]) && DroppedWith(SortedEntry(g[s]), i, true, f)
  }

  /**
   * The excluded files: the raw and summary logs that mention no phase keyword, and, when incomplete trials
   * are excluded, the files of every incomplete trial.
   */
  lemma CatalogExcluded(files: seq<string>, required: int, exclude: bool, f: string)
    requires CatalogOf(files, required, exclude).Ok?
    ensures f in CatalogOf(files, required, exclude).value.excluded <==>
      (f in files && (Classify(f) == RawKind || Classify(f) == SummaryKind) && !HasKeyword(f)) ||
      (exclude && exists s :: DroppedOf(GroupFiles(files).value.0, s, f))
  {
    var g := GroupFiles(files).value.0;
    GroupFilesOther(files);
    assert StampedAmong(g, g.Keys);
    if f in DroppedFiles(g, g.Keys, exclude) {
      var s :| s in g && f in IndividualOf(s, g[s], exclude).1;
      SortedEntryStamped(g[s]);
      AssembleDropped(SortedEntry(g[s]), TrialCount(g[s]), exclude, f);
      var i :| 0 <= i < TrialCount(g[s]) && DroppedWith(SortedEntry(g[s]), i, exclude, f);
      assert DroppedOf(g, s, f);
    }
    if exclude && exists s :: DroppedOf(g, s, f) {
      var s :| DroppedOf(g, s, f);
      SortedEntryStamped(g[s]);
      AssembleDropped(SortedEntry(g[s]), TrialCount(g[s]), exclude, f);
      assert f in IndividualOf(s, g[s], exclude).1;
    }
  }

  /** Every excluded file is an input file. */
  lemma CatalogExcludedInputs(files: seq<string>, required: int, exclude: bool, f: string)
    requires CatalogOf(files, required, exclude).Ok?
    requires f in CatalogOf(files, required, exclude).value.excluded
    ensures f in files
  {
    var g := GroupFiles(files).value.0;
    CatalogExcluded(files, required, exclude, f);
    if !(f in files && (Classify(f) == RawKind || Classify(f) == SummaryKind) && !HasKeyword(f)) {
      var s :| DroppedOf(g, s, f);
      var i :| 0 <= i < TrialCount(g[s]) && DroppedWith(SortedEntry(g[s]), i, true, f);
      var p := SortedTrialFile(g[s], i, f);
      GroupFilesLookup(files, s, p);
      assert f in Lookup(g, s, p);
      GroupedMembers(files, s, p, f);
    }
  }

  /** The non-matching files are the input files of none of the three kinds. */
  lemma CatalogNonMatching(files: seq<string>, required: int, exclude: bool, f: string)
    requires CatalogOf(files, required, exclude).Ok?
    ensures f in CatalogOf(files, required, exclude).value.nonMatching <==> f in files && Classify(f) == Unmatched
  {
    OfKindMembers(files, Unmatched);
  }
}
