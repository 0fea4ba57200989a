/**
 * One run of `process_directory` (AMTU.py:847-923) as a function of the
 * processor's state and of its environment: the album lookup of the
 * second `_get_album_metadata` (AMTU.py:788-845), the cohort loop with its
 * cooperative cancel flag, the ledgers it fills and the progress values it
 * reports.
 */
module RunSpec {
  import opened Wrappers
  import opened Models
  import opened Tags
  import opened Ledgers
  import opened Aggregator
  import opened Grouping
  import opened TagMerge

  /** What the processor keeps between calls: the files, the two ledgers,
      the cancel flag and the update summary. */
  datatype ProcState = ProcState(
    disk: Disk,
    errors: seq<ErrorRecord>,
    notFound: seq<NotFoundRecord>,
    canceled: bool,
    summary: Summary)

  /** What the run cannot see: which catalogues are enabled, what the
      attempts of the search for cohort c do, whether `cancel_processing`
      has been called by the time of the c-th check of the flag, and the
      clock that stamps a file given a fresh empty tag. */
  datatype Environment = Environment(
    services: map<string, bool>,
    search: nat -> nat -> Attempt,
    cancel: nat -> bool,
    now: int)

  /** `search_track` is called with its default of three attempts. */
  const Retries := 3

  /** `should_use_result`: a score of at least 60 and a non-empty label. */
  predicate Accepted(m: TrackMetadata) {
    m.confidence >= 60.0 && Truthy(m.recordLabel)
  }

  // ---------------------------------------------------------------------
  // The album lookup (AMTU.py:788-845)
  // ---------------------------------------------------------------------

  /** What `_get_album_metadata` appends to the error ledger and what it
      returns or whether it raises. */
  datatype Lookup = Lookup(errors: seq<ErrorRecord>, result: Raising<Option<TrackMetadata>>)

  /** `_get_album_metadata(f)`: read the file; without a title or an
      artist give up; otherwise search, and keep the best match only if
      it is accepted. An exception of the search propagates. */
  function AlbumMetadata(disk: Disk, services: map<string, bool>, attempts: nat -> Attempt, f: File): (l: Lookup)
    ensures l.errors == ReadLog(disk, f)
  {
    var current := ReadTags(disk, f);
    if current.None? || current.value.title == "" || current.value.artist == "" then
      Lookup(ReadLog(disk, f), Returned(None))
    else match SearchTrackSpec(services, Retries, attempts)
      case Raised => Lookup(ReadLog(disk, f), Raised)
      case Returned(results) =>
        if results == [] then Lookup(ReadLog(disk, f), Returned(None))
        else if Accepted(results[0]) then Lookup(ReadLog(disk, f), Returned(Some(results[0])))
        else Lookup(ReadLog(disk, f), Returned(None))
  }

  /** The lookup returns metadata exactly when the file has a title and an
      artist, the search returns a non-empty list, and its first element
      scores at least 60 and has a label; that element is returned. It
      raises exactly when the file has a title and an artist and the
      search raises. */
  lemma AlbumMetadataOutcome(disk: Disk, services: map<string, bool>, attempts: nat -> Attempt, f: File)
    ensures var l := AlbumMetadata(disk, services, attempts, f);
      var current := ReadTags(disk, f);
      var found := SearchTrackSpec(services, Retries, attempts);
      var asked := current.Some? && current.value.title != "" && current.value.artist != "";
      && (forall m :: l.result == Returned(Some(m)) <==>
            asked && found.Returned? && found.value != [] && Accepted(found.value[0]) && m == found.value[0])
      && (l.result == Raised <==> asked && found == Raised)
  {
  }

  /** What the lookup returns always has a label and a score of at least 60. */
  lemma LookupAccepted(disk: Disk, services: map<string, bool>, attempts: nat -> Attempt, f: File)
    ensures var l := AlbumMetadata(disk, services, attempts, f);
      l.result.Returned? && l.result.value.Some? ==> Accepted(l.result.value.value)
  {
  }

  // ---------------------------------------------------------------------
  // One cohort (AMTU.py:866-907)
  // ---------------------------------------------------------------------

  /** The processor's state, the number of files updated so far and the
      progress values reported so far. */
  datatype Progress = Progress(st: ProcState, processed: nat, reports: seq<real>)

  /** `(processed_count / total_files) * 100`. */
  function Percent(k: nat, total: nat): real
    requires total > 0
  {
    (k as real / total as real) * 100.0
  }

  /** The progress values reported for the files updated after the first
      `lo` ones, up to `hi`. */
  function Percents(lo: nat, hi: nat, total: nat): (r: seq<real>)
    requires total > 0 && lo <= hi
    ensures |r| == hi - lo
    ensures forall i :: 0 <= i < |r| ==> r[i] == Percent(lo + i + 1, total)
    decreases hi
  {
    if hi == lo then [] else Percents(lo, hi - 1, total) + [Percent(hi, total)]
  }

  /** The loop's state after `_update_metadata` on f left u behind: a
      success counts the file and reports progress, a failure adds the
      caller's file-update record after the one `_update_metadata` made. */
  function AfterUpdate(p: Progress, f: File, u: Update, total: nat): Progress
    requires total > 0
  {
    var st := p.st.(disk := u.disk, summary := u.summary, errors := p.st.errors + u.errors);
    if u.raised then Progress(st.(errors := st.errors + LogErrorRecords(u.disk, f, FileUpdate)), p.processed, p.reports)
    else Progress(st, p.processed + 1, p.reports + [Percent(p.processed + 1, total)])
  }

  /** The accepted cohort: `_update_metadata` on every file in order. */
  function UpdateEach(p: Progress, files: seq<File>, md: TrackMetadata, now: int, total: nat): Progress
    requires total > 0
    decreases |files|
  {
    if files == [] then p
    else
      var u := UpdateFile(p.st.disk, p.st.summary, files[0], md, now);
      UpdateEach(AfterUpdate(p, files[0], u, total), files[1..], md, now, total)
  }

  /** The rejected cohort: every file is read again and logged as not found. */
  function LogEach(p: Progress, files: seq<File>, reason: string): Progress
    decreases |files|
  {
    if files == [] then p
    else
      var f := files[0];
      var st := p.st.(errors := p.st.errors + ReadLog(p.st.disk, f),
                      notFound := p.st.notFound + [NotFoundRecordFor(f, ReadTags(p.st.disk, f), reason)]);
      LogEach(p.(st := st), files[1..], reason)
  }

  /** The reason a rejected cohort is logged with: "Pas de label trouvé"
      when metadata came back, "Aucun résultat trouvé" otherwise. */
  function RejectReason(m: Option<TrackMetadata>): string {
    if m.Some? then NoLabelReason else NoResultReason
  }

  /** One pass of the cohort loop's body, for a group with files. */
  function Cohort(p: Progress, g: Group, services: map<string, bool>, attempts: nat -> Attempt, now: int, total: nat): Progress
    requires total > 0 && g.files != []
  {
    var first := g.files[0];
    var l := AlbumMetadata(p.st.disk, services, attempts, first);
    var p1 := p.(st := p.st.(errors := p.st.errors + l.errors));
    match l.result
    case Raised =>
      p1.(st := p1.st.(errors := p1.st.errors + LogErrorRecords(p1.st.disk, first, AlbumProcessing(g.album))))
    case Returned(m) =>
      if m.Some? && Truthy(m.value.recordLabel) then UpdateEach(p1, g.files, m.value, now, total)
      else LogEach(p1, g.files, RejectReason(m))
  }

  /** Every file of an accepted cohort goes through `_update_metadata`:
      each is either counted in `total_files` or logged twice, once by
      `_update_metadata` and once by its caller; progress is reported for
      each counted file; the not-found ledger and the flag do not change. */
  lemma UpdateEachOutcome(p: Progress, files: seq<File>, md: TrackMetadata, now: int, total: nat)
    requires total > 0
    ensures var q := UpdateEach(p, files, md, now, total);
      && p.processed <= q.processed <= p.processed + |files|
      && q.st.summary.totalFiles == p.st.summary.totalFiles + (q.processed - p.processed)
      && |q.st.errors| == |p.st.errors| + 2 * (|files| - (q.processed - p.processed))
      && q.reports == p.reports + Percents(p.processed, q.processed, total)
      && q.st.notFound == p.st.notFound && q.st.canceled == p.st.canceled
  {
    UpdateEachCounts(p, files, md, now, total);
    UpdateEachErrors(p, files, md, now, total);
    UpdateEachReports(p, files, md, now, total);
    UpdateEachKeeps(p, files, md, now, total);
  }

  lemma {:induction false} UpdateEachCounts(p: Progress, files: seq<File>, md: TrackMetadata, now: int, total: nat)
    requires total > 0
    ensures var q := UpdateEach(p, files, md, now, total);
      && p.processed <= q.processed <= p.processed + |files|
      && q.st.summary.totalFiles == p.st.summary.totalFiles + (q.processed - p.processed)
    decreases |files|
  {
    if files != [] {
      var u := UpdateFile(p.st.disk, p.st.summary, files[0], md, now);
      UpdateFileCounts(p.st.disk, p.st.summary, files[0], md, now);
      AfterUpdateOutcome(p, files[0], u, total);
      UpdateEachCounts(AfterUpdate(p, files[0], u, total), files[1..], md, now, total);
    }
  }

  lemma {:induction false} UpdateEachErrors(p: Progress, files: seq<File>, md: TrackMetadata, now: int, total: nat)
    requires total > 0
    ensures var q := UpdateEach(p, files, md, now, total);
      |q.st.errors| + 2 * (q.processed - p.processed) == |p.st.errors| + 2 * |files|
    decreases |files|
  {
    if files != [] {
      var u := UpdateFile(p.st.disk, p.st.summary, files[0], md, now);
      UpdateFileCounts(p.st.disk, p.st.summary, files[0], md, now);
      AfterUpdateOutcome(p, files[0], u, total);
      UpdateEachErrors(AfterUpdate(p, files[0], u, total), files[1..], md, now, total);
    }
  }

  lemma {:induction false} UpdateEachReports(p: Progress, files: seq<File>, md: TrackMetadata, now: int, total: nat)
    requires total > 0
    ensures var q := UpdateEach(p, files, md, now, total);
      p.processed <= q.processed && q.reports == p.reports + Percents(p.processed, q.processed, total)
    decreases |files|
  {
    if files != [] {
      var u := UpdateFile(p.st.disk, p.st.summary, files[0], md, now);
      UpdateFileCounts(p.st.disk, p.st.summary, files[0], md, now);
      AfterUpdateOutcome(p, files[0], u, total);
      var next := AfterUpdate(p, files[0], u, total);
      UpdateEachReports(next, files[1..], md, now, total);
      var q := UpdateEach(next, files[1..], md, now, total);
      ReportsAppend(p.reports, next.reports, q.reports, p.processed, next.processed, q.processed, total);
    }
  }

  lemma {:induction false} UpdateEachKeeps(p: Progress, files: seq<File>, md: TrackMetadata, now: int, total: nat)
    requires total > 0
    ensures var q := UpdateEach(p, files, md, now, total);
      q.st.notFound == p.st.notFound && q.st.canceled == p.st.canceled
    decreases |files|
  {
    if files != [] {
      var u := UpdateFile(p.st.disk, p.st.summary, files[0], md, now);
      UpdateEachKeeps(AfterUpdate(p, files[0], u, total), files[1..], md, now, total);
    }
  }

  /** `_update_metadata` raises iff it logs, and counts the file iff it does not raise. */
  lemma UpdateFileCounts(disk: Disk, summary: Summary, f: File, md: TrackMetadata, now: int)
    ensures var u := UpdateFile(disk, summary, f, md, now);
      && (u.raised <==> |u.errors| == 1)
      && (u.raised ==> u.summary.totalFiles == summary.totalFiles)
      && (!u.raised ==> u.summary.totalFiles == summary.totalFiles + 1 && u.errors == [])
  {
    UpdateFileFrame(disk, summary, f, md, now);
  }

  /** The progress values of consecutive stretches follow each other. */
  lemma {:induction false} PercentsConcat(a: nat, b: nat, c: nat, total: nat)
    requires total > 0 && a <= b <= c
    ensures Percents(a, c, total) == Percents(a, b, total) + Percents(b, c, total)
    decreases c
  {
    if b < c {
      PercentsConcat(a, b, c - 1, total);
    }
  }

  /** Reports of two consecutive stretches appended one after the other. */
  lemma ReportsAppend(r0: seq<real>, r1: seq<real>, r2: seq<real>, a: nat, b: nat, c: nat, total: nat)
    requires total > 0 && a <= b <= c
    requires r1 == r0 + Percents(a, b, total) && r2 == r1 + Percents(b, c, total)
    ensures r2 == r0 + Percents(a, c, total)
  {
    PercentsConcat(a, b, c, total);
  }

  /** One step of the accepted cohort's loop, for an update that raises
      iff it logs one record and otherwise counts one file. */
  lemma AfterUpdateOutcome(p: Progress, f: File, u: Update, total: nat)
    requires total > 0
    requires u.raised <==> |u.errors| == 1
    requires u.raised ==> u.summary.totalFiles == p.st.summary.totalFiles
    requires !u.raised ==> u.summary.totalFiles == p.st.summary.totalFiles + 1 && u.errors == []
    ensures var q := AfterUpdate(p, f, u, total);
      && q.processed == p.processed + (if u.raised then 0 else 1)
      && q.st.summary.totalFiles == p.st.summary.totalFiles + (q.processed - p.processed)
      && |q.st.errors| == |p.st.errors| + (if u.raised then 2 else 0)
      && q.reports == p.reports + Percents(p.processed, q.processed, total)
      && q.st.notFound == p.st.notFound && q.st.canceled == p.st.canceled
  {
  }

  /** The not-found records of the files fs, in order. */
  function NotFoundLog(disk: Disk, fs: seq<File>, reason: string): (r: seq<NotFoundRecord>)
    ensures |r| == |fs|
    ensures forall i :: 0 <= i < |fs| ==> r[i] == NotFoundRecordFor(fs[i], ReadTags(disk, fs[i]), reason)
  {
    if fs == [] then [] else NotFoundLog(disk, fs[..|fs| - 1], reason) + [NotFoundRecordFor(fs[|fs| - 1], ReadTags(disk, fs[|fs| - 1]), reason)]
  }

  /** Every file of a rejected cohort gets one not-found record, in order,
      with the reason given and the fields of its tags; the files, the
      summary, the count and the reports do not change. */
  lemma {:induction false} LogEachOutcome(p: Progress, files: seq<File>, reason: string)
    ensures var q := LogEach(p, files, reason);
      && q.st.notFound == p.st.notFound + NotFoundLog(p.st.disk, files, reason)
      && q.st.disk == p.st.disk && q.st.summary == p.st.summary && q.st.canceled == p.st.canceled
      && q.processed == p.processed && q.reports == p.reports
      && q.st.errors == p.st.errors + UnreadableLog(p.st.disk, files)
    decreases |files|
  {
    if files != [] {
      var f := files[0];
      var st := p.st.(errors := p.st.errors + ReadLog(p.st.disk, f),
                      notFound := p.st.notFound + [NotFoundRecordFor(f, ReadTags(p.st.disk, f), reason)]);
      LogEachOutcome(p.(st := st), files[1..], reason);
      UnreadableLogFront(p.st.disk, files);
      NotFoundLogFront(p.st.disk, files, reason);
    }
  }

  /** Reading files one after another logs the first file, then the rest. */
  lemma {:induction false} UnreadableLogFront(disk: Disk, fs: seq<File>)
    requires fs != []
    ensures UnreadableLog(disk, fs) == ReadLog(disk, fs[0]) + UnreadableLog(disk, fs[1..])
    decreases |fs|
  {
    if |fs| > 1 {
      var p := fs[..|fs| - 1];
      UnreadableLogFront(disk, p);
      assert p[0] == fs[0] && p[1..] == fs[1..][..|fs| - 2];
    } else {
      assert fs[..0] == [] && fs[1..] == [];
    }
  }

  lemma NotFoundLogFront(disk: Disk, fs: seq<File>, reason: string)
    requires fs != []
    ensures NotFoundLog(disk, fs, reason) == [NotFoundRecordFor(fs[0], ReadTags(disk, fs[0]), reason)] + NotFoundLog(disk, fs[1..], reason)
  {
  }

  /** The "Pas de label trouvé" reason cannot be given: metadata only comes
      back from the lookup with a label, so a rejected cohort had none. */
  lemma NoLabelReasonUnreachable(disk: Disk, services: map<string, bool>, attempts: nat -> Attempt, f: File)
    ensures var l := AlbumMetadata(disk, services, attempts, f);
      l.result.Returned? && !(l.result.value.Some? && Truthy(l.result.value.value.recordLabel)) ==>
        RejectReason(l.result.value) == NoResultReason
  {
    LookupAccepted(disk, services, attempts, f);
  }

  /** The three ways a cohort ends. If the lookup raised, one
      album-processing error is logged for the first file and nothing else
      changes. If metadata came back, every file went through
      `_update_metadata`: counted in `total_files` or logged twice. If not,
      every file is logged as not found, with "Aucun résultat trouvé". */
  lemma CohortOutcome(p: Progress, g: Group, services: map<string, bool>, attempts: nat -> Attempt, now: int, total: nat)
    requires total > 0 && g.files != []
    ensures var q := Cohort(p, g, services, attempts, now, total);
      var l := AlbumMetadata(p.st.disk, services, attempts, g.files[0]);
      && (l.result.Raised? ==>
            && q.st.errors == p.st.errors + l.errors + LogErrorRecords(p.st.disk, g.files[0], AlbumProcessing(g.album))
            && q.st.disk == p.st.disk && q.st.summary == p.st.summary && q.st.notFound == p.st.notFound
            && q.processed == p.processed && q.reports == p.reports)
      && (l.result.Returned? && l.result.value.Some? ==>
            && q == UpdateEach(p.(st := p.st.(errors := p.st.errors + l.errors)), g.files, l.result.value.value, now, total)
            && q.st.summary.totalFiles == p.st.summary.totalFiles + (q.processed - p.processed)
            && |q.st.errors| == |p.st.errors| + |l.errors| + 2 * (|g.files| - (q.processed - p.processed))
            && q.st.notFound == p.st.notFound)
      && (l.result.Returned? && l.result.value.None? ==>
            && q.st.notFound == p.st.notFound + NotFoundLog(p.st.disk, g.files, NoResultReason)
            && q.st.errors == p.st.errors + l.errors + UnreadableLog(p.st.disk, g.files)
            && q.st.disk == p.st.disk && q.st.summary == p.st.summary
            && q.processed == p.processed && q.reports == p.reports)
  {
    var l := AlbumMetadata(p.st.disk, services, attempts, g.files[0]);
    var p1 := p.(st := p.st.(errors := p.st.errors + l.errors));
    LookupAccepted(p.st.disk, services, attempts, g.files[0]);
    if l.result.Returned? {
      var m := l.result.value;
      if m.Some? {
        UpdateEachOutcome(p1, g.files, m.value, now, total);
      } else {
        LogEachOutcome(p1, g.files, RejectReason(m));
      }
    }
  }

  /** A cohort updates at most its files and reports progress for each
      file it counts. */
  lemma CohortProgress(p: Progress, g: Group, services: map<string, bool>, attempts: nat -> Attempt, now: int, total: nat)
    requires total > 0 && g.files != []
    ensures var q := Cohort(p, g, services, attempts, now, total);
      && p.processed <= q.processed <= p.processed + |g.files|
      && q.reports == p.reports + Percents(p.processed, q.processed, total)
  {
    var l := AlbumMetadata(p.st.disk, services, attempts, g.files[0]);
    var p1 := p.(st := p.st.(errors := p.st.errors + l.errors));
    if l.result.Returned? {
      var m := l.result.value;
      if m.Some? && Truthy(m.value.recordLabel) {
        UpdateEachCounts(p1, g.files, m.value, now, total);
        UpdateEachReports(p1, g.files, m.value, now, total);
      } else {
        LogEachOutcome(p1, g.files, RejectReason(m));
      }
    }
  }

  /** A cohort leaves the flag alone and only appends to the ledgers. */
  lemma CohortAppends(p: Progress, g: Group, services: map<string, bool>, attempts: nat -> Attempt, now: int, total: nat)
    requires total > 0 && g.files != []
    ensures var q := Cohort(p, g, services, attempts, now, total);
      q.st.canceled == p.st.canceled && p.st.errors <= q.st.errors && p.st.notFound <= q.st.notFound
  {
    var l := AlbumMetadata(p.st.disk, services, attempts, g.files[0]);
    var p1 := p.(st := p.st.(errors := p.st.errors + l.errors));
    if l.result.Returned? {
      var m := l.result.value;
      if m.Some? && Truthy(m.value.recordLabel) {
        UpdateEachKeeps(p1, g.files, m.value, now, total);
        UpdateEachAppends(p1, g.files, m.value, now, total);
      } else {
        LogEachOutcome(p1, g.files, RejectReason(m));
      }
    }
  }

  /** The accepted cohort only appends to the error ledger. */
  lemma {:induction false} UpdateEachAppends(p: Progress, files: seq<File>, md: TrackMetadata, now: int, total: nat)
    requires total > 0
    ensures p.st.errors <= UpdateEach(p, files, md, now, total).st.errors
    decreases |files|
  {
    if files != [] {
      var u := UpdateFile(p.st.disk, p.st.summary, files[0], md, now);
      var next := AfterUpdate(p, files[0], u, total);
      assert p.st.errors <= next.st.errors;
      UpdateEachAppends(next, files[1..], md, now, total);
    }
  }

  // ---------------------------------------------------------------------
  // The cohort loop and the run (AMTU.py:847-923)
  // ---------------------------------------------------------------------

  predicate HaveFiles(groups: seq<Group>) {
    forall j :: 0 <= j < |groups| ==> groups[j].files != []
  }

  /** The loop from cohort i on: before each cohort the flag is checked
      (with any cancel request that arrived by then) and the loop stops
      when it is set. */
  function Cohorts(p: Progress, groups: seq<Group>, i: nat, env: Environment, total: nat): Progress
    requires total > 0 && i <= |groups| && HaveFiles(groups)
    decreases |groups| - i
  {
    if i == |groups| then p
    else
      var canceled := p.st.canceled || env.cancel(i);
      var p1 := p.(st := p.st.(canceled := canceled));
      if canceled then p1
      else Cohorts(Cohort(p1, groups[i], env.services, env.search(i), env.now, total), groups, i + 1, env, total)
  }

  /** `process_directory(files)`: nothing without files; otherwise report
      0, empty both ledgers, group the files, run the cohorts, and report
      100 unless the flag is set at the final check. */
  function Run(st: ProcState, files: seq<File>, env: Environment): Progress {
    if files == [] then Progress(st, 0, [])
    else
      var groups := GroupFiles(st.disk, files);
      GroupsHaveFiles(st.disk, files);
      var st1 := st.(errors := GroupLog(st.disk, files, files), notFound := []);
      var p := Cohorts(Progress(st1, 0, [0.0]), groups, 0, env, |files|);
      var canceled := p.st.canceled || env.cancel(|groups|);
      Progress(p.st.(canceled := canceled), p.processed, p.reports + (if canceled then [] else [100.0]))
  }

  /** The files of the cohorts from i on. */
  function Remaining(groups: seq<Group>, i: nat): nat
    decreases |groups| - i
  {
    if i >= |groups| then 0 else |groups[i].files| + Remaining(groups, i + 1)
  }

  lemma {:induction false} RemainingSum(groups: seq<Group>, i: nat)
    requires i <= |groups|
    ensures Remaining(groups, i) + SumSizes(groups[..i]) == SumSizes(groups)
    decreases |groups| - i
  {
    if i == |groups| {
      assert groups[..i] == groups;
    } else {
      RemainingSum(groups, i + 1);
      assert groups[..i + 1][..i] == groups[..i];
    }
  }

  /** The loop updates at most the files of the cohorts it visits and
      reports progress for each file it counts. */
  lemma {:induction false} CohortsProgress(p: Progress, groups: seq<Group>, i: nat, env: Environment, total: nat)
    requires total > 0 && i <= |groups| && HaveFiles(groups)
    ensures var q := Cohorts(p, groups, i, env, total);
      && p.processed <= q.processed <= p.processed + Remaining(groups, i)
      && q.reports == p.reports + Percents(p.processed, q.processed, total)
    decreases |groups| - i
  {
    if i < |groups| {
      var canceled := p.st.canceled || env.cancel(i);
      var p1 := p.(st := p.st.(canceled := canceled));
      if !canceled {
        var p2 := Cohort(p1, groups[i], env.services, env.search(i), env.now, total);
        CohortProgress(p1, groups[i], env.services, env.search(i), env.now, total);
        CohortsProgress(p2, groups, i + 1, env, total);
        var q := Cohorts(p2, groups, i + 1, env, total);
        ReportsAppend(p.reports, p2.reports, q.reports, p.processed, p2.processed, q.processed, total);
      }
    }
  }

  /** The loop never clears the flag and only appends to the ledgers. */
  lemma {:induction false} CohortsAppend(p: Progress, groups: seq<Group>, i: nat, env: Environment, total: nat)
    requires total > 0 && i <= |groups| && HaveFiles(groups)
    ensures var q := Cohorts(p, groups, i, env, total);
      && (p.st.canceled ==> q.st.canceled)
      && p.st.errors <= q.st.errors && p.st.notFound <= q.st.notFound
    decreases |groups| - i
  {
    if i < |groups| {
      var canceled := p.st.canceled || env.cancel(i);
      var p1 := p.(st := p.st.(canceled := canceled));
      if !canceled {
        CohortAppends(p1, groups[i], env.services, env.search(i), env.now, total);
        CohortsAppend(Cohort(p1, groups[i], env.services, env.search(i), env.now, total), groups, i + 1, env, total);
      }
    }
  }

  lemma HaveFilesPrefix(groups: seq<Group>, c: nat)
    requires c <= |groups| && HaveFiles(groups)
    ensures HaveFiles(groups[..c])
  {
    assert forall j :: 0 <= j < c ==> groups[..c][j] == groups[j];
  }

  /** After a cancel request, no further cohort is touched: when the flag
      is first found set at check c, the loop ends as the loop over the
      first c cohorts does, with the flag set. */
  lemma {:induction false} CancelTruncates(p: Progress, groups: seq<Group>, i: nat, c: nat, env: Environment, total: nat)
    requires total > 0 && i <= c < |groups| && HaveFiles(groups)
    requires !p.st.canceled && env.cancel(c)
    requires forall j :: i <= j < c ==> !env.cancel(j)
    ensures HaveFiles(groups[..c])
    ensures var q := Cohorts(p, groups, i, env, total);
      var r := Cohorts(p, groups[..c], i, env, total);
      q == r.(st := r.st.(canceled := true))
    decreases c - i
  {
    HaveFilesPrefix(groups, c);
    if i < c {
      var p2 := Cohort(p, groups[i], env.services, env.search(i), env.now, total);
      CohortAppends(p, groups[i], env.services, env.search(i), env.now, total);
      assert p.(st := p.st.(canceled := false)) == p;
      assert groups[..c][i] == groups[i];
      CancelTruncates(p2, groups, i + 1, c, env, total);
    }
  }

  /** The progress values of a run: 0 first, then one value per counted
      file, then 100 unless the run ended canceled; at most one file is
      counted per input file. Without files, nothing happens at all. */
  lemma RunReports(st: ProcState, files: seq<File>, env: Environment)
    ensures var q := Run(st, files, env);
      && (files == [] ==> q.st == st && q.reports == [])
      && (files != [] ==>
            && q.processed <= |files|
            && q.reports == [0.0] + Percents(0, q.processed, |files|) + (if q.st.canceled then [] else [100.0]))
  {
    if files != [] {
      var groups := GroupFiles(st.disk, files);
      GroupsHaveFiles(st.disk, files);
      var st1 := st.(errors := GroupLog(st.disk, files, files), notFound := []);
      CohortsProgress(Progress(st1, 0, [0.0]), groups, 0, env, |files|);
      RemainingSum(groups, 0);
      assert groups[..0] == [];
      SinglesCount(st.disk, files);
    }
  }

  /** A larger count gives a larger progress value, and a count up to the
      total one of at most 100. */
  lemma PercentMonotone(j: nat, k: nat, total: nat)
    requires total > 0 && j <= k
    ensures 0.0 <= Percent(j, total) <= Percent(k, total)
    ensures k <= total ==> Percent(k, total) <= 100.0
  {
    var t := total as real;
    assert j as real / t <= k as real / t;
    assert k <= total ==> k as real / t <= 1.0;
  }

  /** Values 0, then those of the first n of total counted files, then
      possibly 100, never go back and stay within [0, 100]. */
  lemma ReportsShape(reports: seq<real>, n: nat, total: nat, finished: bool)
    requires total > 0 && n <= total
    requires reports == [0.0] + Percents(0, n, total) + (if finished then [100.0] else [])
    ensures forall i :: 0 <= i < |reports| ==> 0.0 <= reports[i] <= 100.0
    ensures forall i, j :: 0 <= i <= j < |reports| ==> reports[i] <= reports[j]
  {
    var ps := Percents(0, n, total);
    forall k | 0 <= k < |ps| ensures 0.0 <= ps[k] <= 100.0 {
      PercentMonotone(0, k + 1, total);
    }
    forall k, k' | 0 <= k <= k' < |ps| ensures ps[k] <= ps[k'] {
      PercentMonotone(k + 1, k' + 1, total);
    }
    assert forall i :: 1 <= i < |reports| && i <= n ==> reports[i] == ps[i - 1];
  }

  /** Progress never goes back and never exceeds 100%. */
  lemma ProgressBounded(st: ProcState, files: seq<File>, env: Environment)
    ensures var reports := Run(st, files, env).reports;
      && (forall i :: 0 <= i < |reports| ==> 0.0 <= reports[i] <= 100.0)
      && (forall i, j :: 0 <= i <= j < |reports| ==> reports[i] <= reports[j])
  {
    RunReports(st, files, env);
    var q := Run(st, files, env);
    if files != [] {
      ReportsShape(q.reports, q.processed, |files|, !q.st.canceled);
    }
  }

  /** Every not-found record gives "Aucun résultat trouvé". */
  predicate AllNoResult(rs: seq<NotFoundRecord>) {
    forall i :: 0 <= i < |rs| ==> rs[i].reason == NoResultReason
  }

  lemma CohortReasons(p: Progress, g: Group, services: map<string, bool>, attempts: nat -> Attempt, now: int, total: nat)
    requires total > 0 && g.files != [] && AllNoResult(p.st.notFound)
    ensures AllNoResult(Cohort(p, g, services, attempts, now, total).st.notFound)
  {
    CohortOutcome(p, g, services, attempts, now, total);
  }

  lemma {:induction false} CohortsReasons(p: Progress, groups: seq<Group>, i: nat, env: Environment, total: nat)
    requires total > 0 && i <= |groups| && HaveFiles(groups) && AllNoResult(p.st.notFound)
    ensures AllNoResult(Cohorts(p, groups, i, env, total).st.notFound)
    decreases |groups| - i
  {
    if i < |groups| {
      var canceled := p.st.canceled || env.cancel(i);
      var p1 := p.(st := p.st.(canceled := canceled));
      if !canceled {
        CohortReasons(p1, groups[i], env.services, env.search(i), env.now, total);
        CohortsReasons(Cohort(p1, groups[i], env.services, env.search(i), env.now, total), groups, i + 1, env, total);
      }
    }
  }

  /** After a run over some files, the not-found ledger holds only that
      run's records, and none of them says "Pas de label trouvé". */
  lemma RunNotFoundReasons(st: ProcState, files: seq<File>, env: Environment)
    requires files != []
    ensures AllNoResult(Run(st, files, env).st.notFound)
  {
    var groups := GroupFiles(st.disk, files);
    GroupsHaveFiles(st.disk, files);
    var st1 := st.(errors := GroupLog(st.disk, files, files), notFound := []);
    CohortsReasons(Progress(st1, 0, [0.0]), groups, 0, env, |files|);
  }

  /** The flag is never cleared: a processor canceled before a run groups
      the files, empties its ledgers apart from the grouping's read
      errors, reports 0 and touches no cohort. */
  lemma CanceledRunSkipsCohorts(st: ProcState, files: seq<File>, env: Environment)
    requires st.canceled && files != []
    ensures Run(st, files, env) == Progress(st.(errors := GroupLog(st.disk, files, files), notFound := []), 0, [0.0])
  {
    GroupsHaveFiles(st.disk, files);
  }
}
