/**
 * The first half of catalog_files: every path is classified as a raw log, a summary log, a 2D test file
 * or a non-matching file, and the raw, summary and 2D files are grouped by subject id and phase.
 */
module Catalog {
  import opened Common
  import opened Text

  // ----- Classification -----

  /** The kinds of path catalog_files tells apart. */
  datatype FileKind = RawKind | SummaryKind | Test2dKind | Unmatched

  /**
   * Where a regular-expression piece `.*<sub>` that starts at `from` can end at the earliest: just after
   * the first occurrence of `sub` at or after `from`, provided no newline precedes it there (`.` does not
   * match a newline).
   */
  function AfterFirst(f: string, sub: string, from: nat): (r: Option<nat>)
    requires from <= |f|
    ensures r.Some? ==> from + |sub| <= r.value <= |f| && OccursAt(f, sub, r.value - |sub|)
  {
    match FindFrom(f, sub, from)
    case None => None
    case Some(j) => if '\n' in f[from..j] then None else Some(j + |sub|)
  }

  /** The piece `.*<sub>` matches from `from` on: some occurrence of `sub` has no newline before it. */
  predicate PieceMatches(f: string, sub: string, from: nat, j: nat)
    requires from <= |f|
  {
    from <= j && OccursAt(f, sub, j) && '\n' !in f[from..j]
  }

  /** Looking at the first occurrence only loses nothing: `.*<sub>` matches exactly when AfterFirst finds an end. */
  lemma AfterFirstExact(f: string, sub: string, from: nat)
    requires from <= |f|
    ensures AfterFirst(f, sub, from).Some? <==> exists j :: PieceMatches(f, sub, from, j)
    ensures AfterFirst(f, sub, from).Some? ==> PieceMatches(f, sub, from, AfterFirst(f, sub, from).value - |sub|)
  {
    var first := FindFrom(f, sub, from);
    if first.None? {
      forall j: nat | PieceMatches(f, sub, from, j)
        ensures false
      {
      }
    } else if '\n' in f[from..first.value] {
      forall j: nat | PieceMatches(f, sub, from, j)
        ensures false
      {
      }
    } else {
      assert PieceMatches(f, sub, from, first.value);
    }
  }

  /** `re.match('C:.*\\<marker>.*', f)`: the path starts with "C:" and a backslash-marker follows. */
  predicate MatchesMarker(f: string, marker: string)
  {
    StartsWith(f, "C:") && AfterFirst(f, marker, 2).Some?
  }

  /** The raw-log pattern `C:.*\\RawLog.*`. */
  predicate IsRawLog(f: string)
  {
    MatchesMarker(f, "\\RawLog")
  }

  /** The summary-log pattern `C:.*\\SummaryLog.*`. */
  predicate IsSummaryLog(f: string)
  {
    MatchesMarker(f, "\\SummaryLog")
  }

  /** The 2D test pattern `C:.*\\GMDA.*_Raw\.csv`: "_Raw.csv" somewhere after the "\GMDA" marker. */
  predicate IsTest2dRaw(f: string)
  {
    StartsWith(f, "C:") &&
    match AfterFirst(f, "\\GMDA", 2)
    case None => false
    case Some(e) => AfterFirst(f, "_Raw.csv", e).Some?
  }

  /** The classification loop: the patterns are tried in the order raw, summary, 2D. */
  function Classify(f: string): FileKind
  {
    if IsRawLog(f) then RawKind
    else if IsSummaryLog(f) then SummaryKind
    else if IsTest2dRaw(f) then Test2dKind
    else Unmatched
  }

  /** The files of one kind, in input order. */
  function OfKind(files: seq<string>, k: FileKind): (r: seq<string>)
    ensures |r| <= |files|
  {
    if files == [] then []
    else OfKind(files[..|files| - 1], k) + (if Classify(files[|files| - 1]) == k then [files[|files| - 1]] else [])
  }

  /** Every file lands in exactly one of the four lists. */
  lemma {:induction false} KindsPartition(files: seq<string>)
    ensures multiset(OfKind(files, RawKind)) + multiset(OfKind(files, SummaryKind)) +
            multiset(OfKind(files, Test2dKind)) + multiset(OfKind(files, Unmatched)) == multiset(files)
  {
    if files != [] {
      var prefix := files[..|files| - 1];
      var f := files[|files| - 1];
      KindsPartition(prefix);
      assert files == prefix + [f];
      OfKindStep(files, RawKind);
      OfKindStep(files, SummaryKind);
      OfKindStep(files, Test2dKind);
      OfKindStep(files, Unmatched);
      SumStep(Classify(f), multiset{f},
        multiset(OfKind(prefix, RawKind)), multiset(OfKind(prefix, SummaryKind)),
        multiset(OfKind(prefix, Test2dKind)), multiset(OfKind(prefix, Unmatched)));
    }
  }

  /** Adding one element to the list of its kind adds it to the sum of the four. */
  lemma SumStep(k: FileKind, m: multiset<string>, a: multiset<string>, b: multiset<string>, c: multiset<string>,
                d: multiset<string>)
    ensures (a + if k == RawKind then m else multiset{}) + (b + if k == SummaryKind then m else multiset{}) +
            (c + if k == Test2dKind then m else multiset{}) + (d + if k == Unmatched then m else multiset{}) ==
            a + b + c + d + m
  {
  }

  lemma OfKindStep(files: seq<string>, k: FileKind)
    requires files != []
    ensures multiset(OfKind(files, k)) ==
      multiset(OfKind(files[..|files| - 1], k)) + if Classify(files[|files| - 1]) == k then multiset{files[|files| - 1]} else multiset{}
  {
  }

  /** Each list holds only input files of its kind. */
  lemma {:induction false} OfKindMembers(files: seq<string>, k: FileKind)
    ensures forall f :: f in OfKind(files, k) <==> f in files && Classify(f) == k
  {
    if files != [] {
      var prefix := files[..|files| - 1];
      OfKindMembers(prefix, k);
      assert files == prefix + [files[|files| - 1]];
    }
  }

  /** The classification loop of catalog_files, appending each path to the list of its kind. */
  method ClassifyFiles(files: seq<string>) returns (raw: seq<string>, summary: seq<string>, test2d: seq<string>,
                                                    nonMatching: seq<string>)
    ensures raw == OfKind(files, RawKind) && summary == OfKind(files, SummaryKind)
    ensures test2d == OfKind(files, Test2dKind) && nonMatching == OfKind(files, Unmatched)
  {
    raw, summary, test2d, nonMatching := [], [], [], [];
    for i := 0 to |files|
      invariant raw == OfKind(files[..i], RawKind) && summary == OfKind(files[..i], SummaryKind)
      invariant test2d == OfKind(files[..i], Test2dKind) && nonMatching == OfKind(files[..i], Unmatched)
    {
      var f := files[i];
      assert files[..i + 1][..i] == files[..i];
      if IsRawLog(f) {
        raw := raw + [f];
      } else if IsSummaryLog(f) {
        summary := summary + [f];
      } else if IsTest2dRaw(f) {
        test2d := test2d + [f];
      } else {
        nonMatching := nonMatching + [f];
      }
    }
    assert files[..|files|] == files;
  }

  // ----- Subject ids -----

  /** ntpath.basename: the text after the last '\' or '/' of the path. */
  function Basename(f: string): string
  {
    if f == [] then []
    else if f[|f| - 1] == '\\' || f[|f| - 1] == '/' then []
    else Basename(f[..|f| - 1]) + [f[|f| - 1]]
  }

  /** The basename is the longest suffix without a separator: the whole path, or what follows the last separator. */
  lemma BasenameIsLastPiece(f: string)
    ensures var b := Basename(f);
      |b| <= |f| && b == f[|f| - |b|..] && '\\' !in b && '/' !in b &&
      (|b| < |f| ==> f[|f| - |b| - 1] == '\\' || f[|f| - |b| - 1] == '/')
  {
    BasenameIsSuffix(f);
    BasenameHasNoSeparator(f);
    BasenameFollowsSeparator(f);
  }

  lemma {:induction false} BasenameIsSuffix(f: string)
    ensures |Basename(f)| <= |f| && Basename(f) == f[|f| - |Basename(f)|..]
  {
    if f != [] && f[|f| - 1] != '\\' && f[|f| - 1] != '/' {
      var prefix := f[..|f| - 1];
      BasenameIsSuffix(prefix);
      var b := Basename(prefix);
      assert f[|f| - |b| - 1..] == prefix[|prefix| - |b|..] + [f[|f| - 1]];
    }
  }

  lemma {:induction false} BasenameHasNoSeparator(f: string)
    ensures '\\' !in Basename(f) && '/' !in Basename(f)
  {
    if f != [] && f[|f| - 1] != '\\' && f[|f| - 1] != '/' {
      BasenameHasNoSeparator(f[..|f| - 1]);
    }
  }

  lemma {:induction false} BasenameFollowsSeparator(f: string)
    ensures |Basename(f)| <= |f|
    ensures |Basename(f)| < |f| ==> f[|f| - |Basename(f)| - 1] == '\\' || f[|f| - |Basename(f)| - 1] == '/'
  {
    if f != [] && f[|f| - 1] != '\\' && f[|f| - 1] != '/' {
      var prefix := f[..|f| - 1];
      BasenameFollowsSeparator(prefix);
      assert |Basename(f)| == |Basename(prefix)| + 1;
    }
  }

  /**
   * The subject id of a raw or summary log: the second '_'-separated piece of the basename without its
   * first three characters. A basename without '_' has no second piece and the lookup fails.
   */
  function LogSubjectId(f: string): (r: Result<string>)
    ensures r.Err? <==> '_' !in Basename(f)
    ensures r.Err? ==> r.fault == IndexError
  {
    var parts := Split(Basename(f), '_');
    SplitHasSecondPiece(Basename(f), '_');
    if |parts| < 2 then Err(IndexError) else Ok(Drop(parts[1], 3))
  }

  /** The subject id of a 2D test file: characters 5 to 8 of the basename. */
  function Test2dSubjectId(f: string): string
  {
    Slice(Basename(f), 5, 8)
  }

  // ----- The subject dictionary -----

  /** The keys of a subject's entry: three raw phases, three summary phases and the 2D test. */
  datatype Phase = Practice | Study | Test | PracticeSummary | StudySummary | TestSummary | Test2d

  /** The two grouping passes, over raw logs and over summary logs. */
  datatype LogPass = RawPass | SummaryPass

  /** The phase keywords searched for, in order. */
  const Keywords: seq<string> := ["practice", "study", "test"]

  /** The key the k-th keyword stores under in a pass. */
  function Store(pass: LogPass, k: nat): Phase
    requires k < 3
  {
    match pass
    case RawPass => [Practice, Study, Test][k]
    case SummaryPass => [PracticeSummary, StudySummary, TestSummary][k]
  }

  /** Which keyword, if any, stores under phase `p` in a pass. */
  function KeywordIndex(pass: LogPass, p: Phase): (r: Option<nat>)
    ensures r.Some? ==> r.value < 3 && Store(pass, r.value) == p
    ensures r.None? ==> forall k :: 0 <= k < 3 ==> Store(pass, k) != p
  {
    match (pass, p)
    case (RawPass, Practice) => Some(0)
    case (RawPass, Study) => Some(1)
    case (RawPass, Test) => Some(2)
    case (SummaryPass, PracticeSummary) => Some(0)
    case (SummaryPass, StudySummary) => Some(1)
    case (SummaryPass, TestSummary) => Some(2)
    case _ => None
  }

  /** The lowercased path mentions the k-th keyword. */
  predicate Mentions(f: string, k: nat)
    requires k < 3
  {
    Contains(Lower(f), Keywords[k])
  }

  /** A pass files `f` under phase `p`: the keyword of `p` occurs in the lowercased path. */
  predicate FiledUnder(f: string, pass: LogPass, p: Phase)
  {
    match KeywordIndex(pass, p)
    case None => false
    case Some(k) => Mentions(f, k)
  }

  /** Some keyword occurs in the lowercased path. */
  predicate HasKeyword(f: string)
  {
    Mentions(f, 0) || Mentions(f, 1) || Mentions(f, 2)
  }

  /** subject_dict: subject id, then phase, then the files in the order they were added. */
  type Groups = map<string, map<Phase, seq<string>>>

  /** The list stored under a subject and phase; a missing key reads as the empty list. */
  function Lookup(g: Groups, s: string, p: Phase): seq<string>
  {
    if s in g && p in g[s] then g[s][p] else []
  }

  /** Appending a file to a subject's phase list, creating the subject and the list when missing. */
  function Insert(g: Groups, s: string, p: Phase, f: string): Groups
  {
    if s in g then
      if p in g[s] then g[s := g[s][p := g[s][p] + [f]]] else g[s := g[s][p := [f]]]
    else g[s := map[p := [f]]]
  }

  /** Inserting appends to exactly one list and adds exactly its subject. */
  lemma InsertLookup(g: Groups, s: string, p: Phase, f: string, s': string, p': Phase)
    ensures Lookup(Insert(g, s, p, f), s', p') == Lookup(g, s', p') + if s' == s && p' == p then [f] else []
  {
  }

  lemma InsertKeys(g: Groups, s: string, p: Phase, f: string)
    ensures Insert(g, s, p, f).Keys == g.Keys + {s}
  {
  }

  /** Every subject in the dictionary has a list, and every list has a file. */
  predicate Tidy(g: Groups)
  {
    forall s :: s in g ==> g[s] != map[] && forall p :: p in g[s] ==> g[s][p] != []
  }

  lemma InsertTidy(g: Groups, s: string, p: Phase, f: string)
    requires Tidy(g)
    ensures Tidy(Insert(g, s, p, f))
  {
    var h := Insert(g, s, p, f);
    forall s' | s' in h
      ensures h[s'] != map[] && forall p' :: p' in h[s'] ==> h[s'][p'] != []
    {
      if s' == s {
        assert p in h[s];
      } else {
        assert h[s'] == g[s'];
      }
    }
  }

  /** In a tidy dictionary the subjects are exactly those with a file under some phase. */
  lemma TidyKeys(g: Groups, s: string)
    requires Tidy(g)
    ensures s in g <==> exists p :: Lookup(g, s, p) != []
  {
    if s in g {
      var p :| p in g[s];
      assert Lookup(g, s, p) != [];
    }
  }

  /** The nested ifs that append a file to subject_dict. */
  method AddToGroup(g: Groups, s: string, p: Phase, f: string) returns (h: Groups)
    ensures h == Insert(g, s, p, f)
  {
    h := g;
    if s in h {
      if p in h[s] {
        h := h[s := h[s][p := h[s][p] + [f]]];
      } else {
        h := h[s := h[s][p := [f]]];
      }
    } else {
      h := h[s := map[p := [f]]];
    }
  }

  // ----- The raw and summary passes -----

  /** The inner loop over the first k keywords for one file with subject id s. */
  function FileUnder(g: Groups, s: string, f: string, pass: LogPass, k: nat): Groups
    requires k <= 3
  {
    if k == 0 then g
    else
      var h := FileUnder(g, s, f, pass, k - 1);
      if Mentions(f, k - 1) then Insert(h, s, Store(pass, k - 1), f) else h
  }

  /** One file of a pass: its subject id is looked up (and may fail), then it is filed; with no keyword it joins other_files. */
  function GroupLog(st: (Groups, seq<string>), f: string, pass: LogPass): Result<(Groups, seq<string>)>
  {
    match LogSubjectId(f)
    case Err(e) => Err(e)
    case Ok(s) => Ok((FileUnder(st.0, s, f, pass, 3), if HasKeyword(f) then st.1 else st.1 + [f]))
  }

  /** A whole pass over `files`, starting from the dictionary and other_files `st0`. */
  function GroupLogs(files: seq<string>, pass: LogPass, st0: (Groups, seq<string>)): Result<(Groups, seq<string>)>
  {
    if files == [] then Ok(st0)
    else
      match GroupLogs(files[..|files| - 1], pass, st0)
      case Err(e) => Err(e)
      case Ok(st) => GroupLog(st, files[|files| - 1], pass)
  }

  /** Once a pass has failed on a prefix, it fails the same way on the whole list. */
  lemma {:induction false} GroupLogsStaysFailed(files: seq<string>, n: nat, pass: LogPass, st0: (Groups, seq<string>))
    requires n <= |files| && GroupLogs(files[..n], pass, st0).Err?
    ensures GroupLogs(files, pass, st0) == GroupLogs(files[..n], pass, st0)
    decreases |files| - n
  {
    if n < |files| {
      assert files[..n + 1][..n] == files[..n];
      GroupLogsStaysFailed(files, n + 1, pass, st0);
    } else {
      assert files[..n] == files;
    }
  }

  lemma GroupLogsStep(files: seq<string>, i: nat, pass: LogPass, st0: (Groups, seq<string>))
    requires i < |files|
    ensures GroupLogs(files[..i + 1], pass, st0) ==
      match GroupLogs(files[..i], pass, st0)
      case Err(e) => Err(e)
      case Ok(st) => GroupLog(st, files[i], pass)
  {
    var prefix := files[..i + 1];
    assert prefix[..|prefix| - 1] == files[..i];
    assert prefix[|prefix| - 1] == files[i];
  }

  /** Whether one of the first k keywords occurs in the lowercased path. */
  function MentionsBefore(f: string, k: nat): bool
    requires k <= 3
  {
    k > 0 && (MentionsBefore(f, k - 1) || Mentions(f, k - 1))
  }

  /** The keyword loop for one file: the subject id is recomputed in every round, so a bad basename fails in the first. */
  method GroupLogFile(g0: Groups, other: seq<string>, f: string, pass: LogPass) returns (r: Result<(Groups, seq<string>)>)
    ensures r == GroupLog((g0, other), f, pass)
  {
    var g := g0;
    var found := false;
    for k := 0 to 3
      invariant k > 0 ==> LogSubjectId(f).Ok? && g == FileUnder(g0, LogSubjectId(f).value, f, pass, k)
      invariant k == 0 ==> g == g0
      invariant found == MentionsBefore(f, k)
    {
      var parts := Split(Basename(f), '_');
      SplitHasSecondPiece(Basename(f), '_');
      if |parts| < 2 {
        return Err(IndexError);
      }
      var subject := Drop(parts[1], 3);
      if Contains(Lower(f), Keywords[k]) {
        found := true;
        g := AddToGroup(g, subject, Store(pass, k), f);
      }
    }
    KeywordLoopFinds(f);
    var subject := LogSubjectId(f).value;
    assert GroupLog((g0, other), f, pass) ==
      Ok((FileUnder(g0, subject, f, pass, 3), if HasKeyword(f) then other else other + [f]));
    if found {
      return Ok((g, other));
    } else {
      return Ok((g, other + [f]));
    }
  }

  lemma KeywordLoopFinds(f: string)
    ensures MentionsBefore(f, 3) == HasKeyword(f)
  {
    assert MentionsBefore(f, 1) == Mentions(f, 0);
    assert MentionsBefore(f, 2) == (Mentions(f, 0) || Mentions(f, 1));
  }

  /** The loop of a pass, as catalog_files runs it over the raw or the summary files. */
  method GroupLogFiles(files: seq<string>, pass: LogPass, g0: Groups, other0: seq<string>)
    returns (r: Result<(Groups, seq<string>)>)
    ensures r == GroupLogs(files, pass, (g0, other0))
  {
    var g, other := g0, other0;
    for i := 0 to |files|
      invariant GroupLogs(files[..i], pass, (g0, other0)) == Ok((g, other))
    {
      GroupLogsStep(files, i, pass, (g0, other0));
      r := GroupLogFile(g, other, files[i], pass);
      if r.Err? {
        GroupLogsStaysFailed(files, i + 1, pass, (g0, other0));
        return r;
      }
      g, other := r.value.0, r.value.1;
    }
    assert files[..|files|] == files;
    return Ok((g, other));
  }

  /** The 2D pass: every file goes to the Test2d list of its subject. */
  function Group2d(files: seq<string>, g0: Groups): Groups
  {
    if files == [] then g0
    else Insert(Group2d(files[..|files| - 1], g0), Test2dSubjectId(files[|files| - 1]), Test2d, files[|files| - 1])
  }

  lemma Group2dStep(files: seq<string>, i: nat, g0: Groups)
    requires i < |files|
    ensures Group2d(files[..i + 1], g0) == Insert(Group2d(files[..i], g0), Test2dSubjectId(files[i]), Test2d, files[i])
  {
    var prefix := files[..i + 1];
    assert prefix[..|prefix| - 1] == files[..i];
    assert prefix[|prefix| - 1] == files[i];
  }

  method Group2dFiles(files: seq<string>, g0: Groups) returns (g: Groups)
    ensures g == Group2d(files, g0)
  {
    g := g0;
    for i := 0 to |files|
      invariant g == Group2d(files[..i], g0)
    {
      Group2dStep(files, i, g0);
      g := AddToGroup(g, Test2dSubjectId(files[i]), Test2d, files[i]);
    }
    assert files[..|files|] == files;
  }

  // ----- What the passes build -----

  /** Among the first k keywords, the one of phase `p` occurs in the lowercased path. */
  predicate FiledBefore(f: string, pass: LogPass, p: Phase, k: nat)
  {
    match KeywordIndex(pass, p)
    case None => false
    case Some(j) => j < k && Mentions(f, j)
  }

  lemma FiledBeforeStep(f: string, pass: LogPass, p: Phase, k: nat)
    requires 0 < k <= 3
    ensures FiledBefore(f, pass, p, k) == (FiledBefore(f, pass, p, k - 1) || (Store(pass, k - 1) == p && Mentions(f, k - 1)))
  {
  }

  /** The keyword loop appends the file to the list of every phase whose keyword it mentions, under its own subject. */
  lemma {:induction false} FileUnderLookup(g: Groups, s: string, f: string, pass: LogPass, k: nat, s': string, p': Phase)
    requires k <= 3
    ensures Lookup(FileUnder(g, s, f, pass, k), s', p') ==
      Lookup(g, s', p') + if s' == s && FiledBefore(f, pass, p', k) then [f] else []
  {
    if k > 0 {
      FileUnderLookup(g, s, f, pass, k - 1, s', p');
      var h := FileUnder(g, s, f, pass, k - 1);
      InsertLookup(h, s, Store(pass, k - 1), f, s', p');
      FiledBeforeStep(f, pass, p', k);
    }
  }

  lemma {:induction false} FileUnderTidy(g: Groups, s: string, f: string, pass: LogPass, k: nat)
    requires k <= 3 && Tidy(g)
    ensures Tidy(FileUnder(g, s, f, pass, k))
  {
    if k > 0 {
      FileUnderTidy(g, s, f, pass, k - 1);
      InsertTidy(FileUnder(g, s, f, pass, k - 1), s, Store(pass, k - 1), f);
    }
  }

  /** The files of a pass that go under subject s and phase p, in input order. */
  function Filed(files: seq<string>, s: string, pass: LogPass, p: Phase): seq<string>
  {
    if files == [] then []
    else
      var f := files[|files| - 1];
      Filed(files[..|files| - 1], s, pass, p) + if LogSubjectId(f) == Ok(s) && FiledUnder(f, pass, p) then [f] else []
  }

  /** The files of a pass that mention no keyword, in input order. */
  function Unfiled(files: seq<string>): seq<string>
  {
    if files == [] then []
    else Unfiled(files[..|files| - 1]) + if HasKeyword(files[|files| - 1]) then [] else [files[|files| - 1]]
  }

  /** A pass fails, with IndexError, exactly when some basename has no '_'. */
  lemma {:induction false} GroupLogsFails(files: seq<string>, pass: LogPass, st0: (Groups, seq<string>))
    ensures GroupLogs(files, pass, st0).Ok? <==> forall f :: f in files ==> '_' in Basename(f)
    ensures GroupLogs(files, pass, st0).Err? ==> GroupLogs(files, pass, st0).fault == IndexError
  {
    if files != [] {
      var prefix := files[..|files| - 1];
      var f := files[|files| - 1];
      GroupLogsFails(prefix, pass, st0);
      assert files == prefix + [f];
      assert (forall x :: x in files ==> '_' in Basename(x)) <==>
             (forall x :: x in prefix ==> '_' in Basename(x)) && '_' in Basename(f);
      GroupLogsLast(files, pass, st0);
    }
  }

  /** The last file of a pass fails it exactly when its subject id does. */
  lemma GroupLogsLast(files: seq<string>, pass: LogPass, st0: (Groups, seq<string>))
    requires files != []
    ensures GroupLogs(files, pass, st0).Ok? <==>
      GroupLogs(files[..|files| - 1], pass, st0).Ok? && LogSubjectId(files[|files| - 1]).Ok?
    ensures GroupLogs(files, pass, st0).Err? ==>
      GroupLogs(files, pass, st0).fault == if GroupLogs(files[..|files| - 1], pass, st0).Err?
        then GroupLogs(files[..|files| - 1], pass, st0).fault else IndexError
  {
  }

  /** After a pass every list holds what it held before, then the pass's files for that subject and phase, in order. */
  lemma {:induction false} GroupLogsLookup(files: seq<string>, pass: LogPass, st0: (Groups, seq<string>), s: string, p: Phase)
    requires GroupLogs(files, pass, st0).Ok?
    ensures Lookup(GroupLogs(files, pass, st0).value.0, s, p) == Lookup(st0.0, s, p) + Filed(files, s, pass, p)
  {
    if files != [] {
      var prefix := files[..|files| - 1];
      var f := files[|files| - 1];
      GroupLogsLookup(prefix, pass, st0, s, p);
      var st := GroupLogs(prefix, pass, st0).value;
      FileUnderLookup(st.0, LogSubjectId(f).value, f, pass, 3, s, p);
    }
  }

  /** After a pass other_files has gained exactly the files that mention no keyword, in order. */
  lemma {:induction false} GroupLogsOther(files: seq<string>, pass: LogPass, st0: (Groups, seq<string>))
    requires GroupLogs(files, pass, st0).Ok?
    ensures GroupLogs(files, pass, st0).value.1 == st0.1 + Unfiled(files)
  {
    if files != [] {
      GroupLogsOther(files[..|files| - 1], pass, st0);
    }
  }

  lemma {:induction false} GroupLogsTidy(files: seq<string>, pass: LogPass, st0: (Groups, seq<string>))
    requires GroupLogs(files, pass, st0).Ok? && Tidy(st0.0)
    ensures Tidy(GroupLogs(files, pass, st0).value.0)
  {
    if files != [] {
      var f := files[|files| - 1];
      GroupLogsTidy(files[..|files| - 1], pass, st0);
      FileUnderTidy(GroupLogs(files[..|files| - 1], pass, st0).value.0, LogSubjectId(f).value, f, pass, 3);
    }
  }

  /** The 2D files of subject s, in input order. */
  function Of2dSubject(files: seq<string>, s: string): seq<string>
  {
    if files == [] then []
    else Of2dSubject(files[..|files| - 1], s) + if Test2dSubjectId(files[|files| - 1]) == s then [files[|files| - 1]] else []
  }

  /** The 2D pass only appends to Test2d lists, each subject's 2D files in order. */
  lemma {:induction false} Group2dLookup(files: seq<string>, g0: Groups, s: string, p: Phase)
    ensures Lookup(Group2d(files, g0), s, p) == Lookup(g0, s, p) + if p == Test2d then Of2dSubject(files, s) else []
  {
    if files != [] {
      var f := files[|files| - 1];
      Group2dLookup(files[..|files| - 1], g0, s, p);
      InsertLookup(Group2d(files[..|files| - 1], g0), Test2dSubjectId(f), Test2d, f, s, p);
    }
  }

  lemma {:induction false} Group2dTidy(files: seq<string>, g0: Groups)
    requires Tidy(g0)
    ensures Tidy(Group2d(files, g0))
  {
    if files != [] {
      var f := files[|files| - 1];
      Group2dTidy(files[..|files| - 1], g0);
      InsertTidy(Group2d(files[..|files| - 1], g0), Test2dSubjectId(f), Test2d, f);
    }
  }

  // ----- The whole grouping stage -----

  /**
   * The dictionary and other_files after the three passes of catalog_files: the raw pass starts from an
   * empty dictionary, the summary pass continues it, and the 2D pass adds the Test2d lists.
   */
  function GroupFiles(files: seq<string>): Result<(Groups, seq<string>)>
  {
    match GroupLogs(OfKind(files, RawKind), RawPass, (map[], []))
    case Err(e) => Err(e)
    case Ok(st) =>
      match GroupLogs(OfKind(files, SummaryKind), SummaryPass, st)
      case Err(e) => Err(e)
      case Ok(st2) => Ok((Group2d(OfKind(files, Test2dKind), st2.0), st2.1))
  }

  /** The classification loop and the three grouping passes of catalog_files, one after another. */
  method GroupAllFiles(files: seq<string>) returns (r: Result<(Groups, seq<string>)>, nonMatching: seq<string>)
    ensures r == GroupFiles(files) && nonMatching == OfKind(files, Unmatched)
  {
    var raw, summary, test2d;
    raw, summary, test2d, nonMatching := ClassifyFiles(files);
    var first := GroupLogFiles(raw, RawPass, map[], []);
    if first.Err? {
      return Err(first.fault), nonMatching;
    }
    var second := GroupLogFiles(summary, SummaryPass, first.value.0, first.value.1);
    if second.Err? {
      return Err(second.fault), nonMatching;
    }
    var g := Group2dFiles(test2d, second.value.0);
    return Ok((g, second.value.1)), nonMatching;
  }

  /** Where a file ends up: the lists of its subject whose keyword it mentions, or its subject's Test2d list. */
  predicate InGroup(f: string, s: string, p: Phase)
  {
    match Classify(f)
    case RawKind => LogSubjectId(f) == Ok(s) && FiledUnder(f, RawPass, p)
    case SummaryKind => LogSubjectId(f) == Ok(s) && FiledUnder(f, SummaryPass, p)
    case Test2dKind => p == Test2d && Test2dSubjectId(f) == s
    case Unmatched => false
  }

  /** The input files that belong under subject s and phase p, in input order. */
  function Grouped(files: seq<string>, s: string, p: Phase): seq<string>
  {
    if files == [] then []
    else Grouped(files[..|files| - 1], s, p) + if InGroup(files[|files| - 1], s, p) then [files[|files| - 1]] else []
  }

  /** The files grouped under a subject and phase are the input files that belong there. */
  lemma {:induction false} GroupedMembers(files: seq<string>, s: string, p: Phase, f: string)
    ensures f in Grouped(files, s, p) <==> f in files && InGroup(f, s, p)
  {
    if files != [] {
      var prefix := files[..|files| - 1];
      GroupedMembers(prefix, s, p, f);
      assert files == prefix + [files[|files| - 1]];
    }
  }

  /** The files grouping places somewhere: 2D raw files, and logs with a subject id that mention a keyword. */
  predicate Placed(f: string)
  {
    match Classify(f)
    case RawKind => LogSubjectId(f).Ok? && HasKeyword(f)
    case SummaryKind => LogSubjectId(f).Ok? && HasKeyword(f)
    case Test2dKind => true
    case Unmatched => false
  }

  /** A file that belongs to some list is placed. */
  lemma InGroupPlaced(f: string, s: string, p: Phase)
    requires InGroup(f, s, p)
    ensures Placed(f)
  {
    match Classify(f)
    case RawKind => FiledHasKeyword(f, RawPass, p);
    case SummaryKind => FiledHasKeyword(f, SummaryPass, p);
    case Test2dKind =>
  }

  lemma FiledHasKeyword(f: string, pass: LogPass, p: Phase)
    requires FiledUnder(f, pass, p)
    ensures HasKeyword(f)
  {
    var k := KeywordIndex(pass, p).value;
    assert Mentions(f, k);
  }

  /** A placed file belongs to a list: its subject's list of a keyword it mentions, or its subject's Test2d list. */
  lemma PlacedInGroup(f: string) returns (s: string, p: Phase)
    requires Placed(f)
    ensures InGroup(f, s, p)
  {
    match Classify(f)
    case Test2dKind =>
      s, p := Test2dSubjectId(f), Test2d;
    case RawKind =>
      s := LogSubjectId(f).value;
      p := MentionedPhase(f, RawPass);
    case SummaryKind =>
      s := LogSubjectId(f).value;
      p := MentionedPhase(f, SummaryPass);
  }

  /** A phase a pass files a keyword-bearing path under. */
  lemma MentionedPhase(f: string, pass: LogPass) returns (p: Phase)
    requires HasKeyword(f)
    ensures FiledUnder(f, pass, p)
  {
    var k := if Mentions(f, 0) then 0 else if Mentions(f, 1) then 1 else 2;
    p := Store(pass, k);
    assert KeywordIndex(pass, p) == Some(k) by {
      match pass
      case RawPass =>
      case SummaryPass =>
    }
  }

  /** Grouping fails, with IndexError, exactly when some raw or summary log has no '_' in its basename. */
  lemma GroupFilesFails(files: seq<string>)
    ensures GroupFiles(files).Ok? <==>
      forall f :: f in files && (Classify(f) == RawKind || Classify(f) == SummaryKind) ==> '_' in Basename(f)
    ensures GroupFiles(files).Err? ==> GroupFiles(files).fault == IndexError
  {
    OfKindMembers(files, RawKind);
    OfKindMembers(files, SummaryKind);
    GroupLogsFails(OfKind(files, RawKind), RawPass, (map[], []));
    match GroupLogs(OfKind(files, RawKind), RawPass, (map[], []))
    case Err(_) =>
    case Ok(st) => GroupLogsFails(OfKind(files, SummaryKind), SummaryPass, st);
  }

  /** A phase no keyword of a pass stores under gets nothing from that pass. */
  lemma {:induction false} FiledElsewhere(files: seq<string>, s: string, pass: LogPass, p: Phase)
    requires KeywordIndex(pass, p).None?
    ensures Filed(files, s, pass, p) == []
  {
    if files != [] {
      FiledElsewhere(files[..|files| - 1], s, pass, p);
    }
  }

  /** Appending one file to a filtered list: the filters of the prefix, then the file if it passes. */
  lemma OfKindLast(files: seq<string>, k: FileKind)
    requires files != []
    ensures OfKind(files, k) == OfKind(files[..|files| - 1], k) + if Classify(files[|files| - 1]) == k then [files[|files| - 1]] else []
  {
  }

  lemma FiledLast(xs: seq<string>, f: string, s: string, pass: LogPass, p: Phase)
    ensures Filed(xs + [f], s, pass, p) == Filed(xs, s, pass, p) + if LogSubjectId(f) == Ok(s) && FiledUnder(f, pass, p) then [f] else []
  {
    assert (xs + [f])[..|xs|] == xs;
  }

  lemma Of2dLast(xs: seq<string>, f: string, s: string)
    ensures Of2dSubject(xs + [f], s) == Of2dSubject(xs, s) + if Test2dSubjectId(f) == s then [f] else []
  {
    assert (xs + [f])[..|xs|] == xs;
  }

  /** InGroup by the kind of the file. */
  lemma InGroupByKind(f: string, s: string, p: Phase, k: FileKind)
    requires Classify(f) == k
    ensures InGroup(f, s, p) == match k
      case RawKind => LogSubjectId(f) == Ok(s) && FiledUnder(f, RawPass, p)
      case SummaryKind => LogSubjectId(f) == Ok(s) && FiledUnder(f, SummaryPass, p)
      case Test2dKind => p == Test2d && Test2dSubjectId(f) == s
      case Unmatched => false
  {
  }

  /** For a phase of the raw pass, the pass's list is the grouped list. */
  lemma {:induction false} RawGrouped(files: seq<string>, s: string, p: Phase)
    requires KeywordIndex(RawPass, p).Some?
    ensures Filed(OfKind(files, RawKind), s, RawPass, p) == Grouped(files, s, p)
  {
    if files != [] {
      var prefix := files[..|files| - 1];
      var f := files[|files| - 1];
      RawGrouped(prefix, s, p);
      OfKindLast(files, RawKind);
      var k := Classify(f);
      InGroupByKind(f, s, p, k);
      assert Grouped(files, s, p) == Grouped(prefix, s, p) + if InGroup(f, s, p) then [f] else [];
      if k == RawKind {
        FiledLast(OfKind(prefix, RawKind), f, s, RawPass, p);
      } else {
        assert KeywordIndex(SummaryPass, p).None?;
        assert OfKind(files, RawKind) == OfKind(prefix, RawKind);
        assert !InGroup(f, s, p);
      }
    }
  }

  /** For a phase of the summary pass, the pass's list is the grouped list. */
  lemma {:induction false} SummaryGrouped(files: seq<string>, s: string, p: Phase)
    requires KeywordIndex(SummaryPass, p).Some?
    ensures Filed(OfKind(files, SummaryKind), s, SummaryPass, p) == Grouped(files, s, p)
  {
    if files != [] {
      var prefix := files[..|files| - 1];
      var f := files[|files| - 1];
      SummaryGrouped(prefix, s, p);
      OfKindLast(files, SummaryKind);
      var k := Classify(f);
      InGroupByKind(f, s, p, k);
      assert Grouped(files, s, p) == Grouped(prefix, s, p) + if InGroup(f, s, p) then [f] else [];
      if k == SummaryKind {
        FiledLast(OfKind(prefix, SummaryKind), f, s, SummaryPass, p);
      } else {
        assert KeywordIndex(RawPass, p).None?;
        assert OfKind(files, SummaryKind) == OfKind(prefix, SummaryKind);
        assert !InGroup(f, s, p);
      }
    }
  }

  /** For the Test2d phase, the 2D pass's list is the grouped list. */
  lemma {:induction false} Test2dGrouped(files: seq<string>, s: string)
    ensures Of2dSubject(OfKind(files, Test2dKind), s) == Grouped(files, s, Test2d)
  {
    if files != [] {
      var prefix := files[..|files| - 1];
      var f := files[|files| - 1];
      Test2dGrouped(prefix, s);
      Test2dGroupedLast(files, s);
      assert Grouped(files, s, Test2d) == Grouped(prefix, s, Test2d) + if InGroup(f, s, Test2d) then [f] else [];
    }
  }

  lemma Test2dGroupedLast(files: seq<string>, s: string)
    requires files != []
    ensures Of2dSubject(OfKind(files, Test2dKind), s) == Of2dSubject(OfKind(files[..|files| - 1], Test2dKind), s) +
      if InGroup(files[|files| - 1], s, Test2d) then [files[|files| - 1]] else []
  {
    var f := files[|files| - 1];
    OfKindLast(files, Test2dKind);
    InGroupTest2d(f, s);
    var xs := OfKind(files[..|files| - 1], Test2dKind);
    if Classify(f) == Test2dKind {
      assert OfKind(files, Test2dKind) == xs + [f];
      Of2dLast(xs, f, s);
    } else {
      assert OfKind(files, Test2dKind) == xs;
    }
  }

  /** A file is grouped under a subject's Test2d phase exactly when it is a 2D file with that subject id. */
  lemma InGroupTest2d(f: string, s: string)
    ensures InGroup(f, s, Test2d) <==> Classify(f) == Test2dKind && Test2dSubjectId(f) == s
  {
    InGroupByKind(f, s, Test2d, Classify(f));
  }

  /**
   * After grouping, the list under a subject and phase holds exactly the files that belong there, in input
   * order: a raw or summary log under every phase whose keyword its lowercased path mentions, a 2D file
   * under Test2d.
   */
  lemma GroupFilesLookup(files: seq<string>, s: string, p: Phase)
    requires GroupFiles(files).Ok?
    ensures Lookup(GroupFiles(files).value.0, s, p) == Grouped(files, s, p)
  {
    var raw, summary, test2d := OfKind(files, RawKind), OfKind(files, SummaryKind), OfKind(files, Test2dKind);
    var st := GroupLogs(raw, RawPass, (map[], [])).value;
    var st2 := GroupLogs(summary, SummaryPass, st).value;
    assert GroupFiles(files).value.0 == Group2d(test2d, st2.0);
    GroupLogsLookup(raw, RawPass, (map[], []), s, p);
    GroupLogsLookup(summary, SummaryPass, st, s, p);
    Group2dLookup(test2d, st2.0, s, p);
    var fromRaw, fromSummary := Filed(raw, s, RawPass, p), Filed(summary, s, SummaryPass, p);
    var from2d := if p == Test2d then Of2dSubject(test2d, s) else [];
    assert Lookup(map[], s, p) == [];
    assert Lookup(st.0, s, p) == fromRaw;
    assert Lookup(st2.0, s, p) == fromRaw + fromSummary;
    assert Lookup(GroupFiles(files).value.0, s, p) == fromRaw + fromSummary + from2d;
    if KeywordIndex(RawPass, p).Some? {
      FiledElsewhere(summary, s, SummaryPass, p);
      RawGrouped(files, s, p);
      assert from2d == [];
      assert fromRaw + fromSummary + from2d == fromRaw;
    } else if KeywordIndex(SummaryPass, p).Some? {
      FiledElsewhere(raw, s, RawPass, p);
      SummaryGrouped(files, s, p);
      assert from2d == [];
      assert fromRaw + fromSummary + from2d == fromSummary;
    } else {
      FiledElsewhere(raw, s, RawPass, p);
      FiledElsewhere(summary, s, SummaryPass, p);
      assert p == Test2d;
      Test2dGrouped(files, s);
      assert fromRaw + fromSummary + from2d == from2d;
    }
  }

  lemma {:induction false} UnfiledMembers(files: seq<string>)
    ensures forall f :: f in Unfiled(files) <==> f in files && !HasKeyword(f)
  {
    if files != [] {
      var prefix := files[..|files| - 1];
      UnfiledMembers(prefix);
      assert files == prefix + [files[|files| - 1]];
    }
  }

  /** other_files after grouping: exactly the raw and summary logs that mention no phase keyword. */
  lemma GroupFilesOther(files: seq<string>)
    requires GroupFiles(files).Ok?
    ensures forall f :: f in GroupFiles(files).value.1 <==>
      f in files && (Classify(f) == RawKind || Classify(f) == SummaryKind) && !HasKeyword(f)
  {
    var raw, summary := OfKind(files, RawKind), OfKind(files, SummaryKind);
    var st := GroupLogs(raw, RawPass, (map[], [])).value;
    GroupLogsOther(raw, RawPass, (map[], []));
    GroupLogsOther(summary, SummaryPass, st);
    UnfiledMembers(raw);
    UnfiledMembers(summary);
    OfKindMembers(files, RawKind);
    OfKindMembers(files, SummaryKind);
  }

  /** After grouping every subject has a list and every list a file. */
  lemma GroupFilesTidy(files: seq<string>)
    requires GroupFiles(files).Ok?
    ensures Tidy(GroupFiles(files).value.0)
  {
    var raw, summary := OfKind(files, RawKind), OfKind(files, SummaryKind);
    GroupLogsTidy(raw, RawPass, (map[], []));
    var st := GroupLogs(raw, RawPass, (map[], [])).value;
    GroupLogsTidy(summary, SummaryPass, st);
    Group2dTidy(OfKind(files, Test2dKind), GroupLogs(summary, SummaryPass, st).value.0);
  }
}
