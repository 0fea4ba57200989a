/**
 * The `MP3Processor` class (AMTU.py:502-943): the files it works on, its
 * two ledgers, its cancel flag and its update summary as fields, and its
 * methods as steps that change them. Each method's new state is the one
 * the functions of RunSpec, TagMerge and Grouping give, where the
 * properties of a run are proved.
 */
module Processor {
  import opened Wrappers
  import opened Text
  import opened Models
  import opened Tags
  import opened Ledgers
  import opened Aggregator
  import opened Grouping
  import opened TagMerge
  import opened RunSpec

  class MP3Processor {
    var disk: Disk
    var errorRecords: seq<ErrorRecord>
    var notFoundRecords: seq<NotFoundRecord>
    var processingCanceled: bool
    var summary: Summary

    /** All the fields at once. */
    function State(): ProcState
      reads this
    {
      ProcState(disk, errorRecords, notFoundRecords, processingCanceled, summary)
    }

    /** `__init__`: empty ledgers, the flag down, a zero summary. */
    constructor (files: Disk)
      ensures State() == ProcState(files, [], [], false, InitialSummary)
    {
      disk := files;
      errorRecords := [];
      notFoundRecords := [];
      processingCanceled := false;
      summary := InitialSummary;
    }

    /** `cancel_processing`. */
    method CancelProcessing()
      modifies this`processingCanceled
      ensures processingCanceled
    {
      processingCanceled := true;
    }

    /** `_log_error`: one record with the fields of the file's tags, read
        back without logging. */
    method LogError(f: File, failure: Failure)
      modifies this`errorRecords
      ensures errorRecords == old(errorRecords) + LogErrorRecords(disk, f, failure)
    {
      var metadata := ReadTags(disk, f);
      errorRecords := errorRecords + [ErrorRecordFor(f, metadata, failure)];
    }

    /** `_log_not_found`. */
    method LogNotFound(f: File, metadata: Option<TrackMetadata>, reason: string)
      modifies this`notFoundRecords
      ensures notFoundRecords == old(notFoundRecords) + [NotFoundRecordFor(f, metadata, reason)]
    {
      notFoundRecords := notFoundRecords + [NotFoundRecordFor(f, metadata, reason)];
    }

    /** `_read_metadata`: the EasyID3 view of the tag, or an error record
        and None. */
    method ReadMetadata(f: File) returns (m: Option<TrackMetadata>)
      modifies this`errorRecords
      ensures m == ReadTags(disk, f)
      ensures errorRecords == old(errorRecords) + ReadLog(disk, f)
    {
      if f in disk && disk[f].tag.Some? {
        var audio := disk[f].tag.value;
        var t := NewTrack(TextOf(audio.title), TextOf(audio.artist), TextOf(audio.album));
        m := Some(t.(recordLabel := Some(TextOf(audio.composer)), catalogNumber := Some(TextOf(audio.contentGroup))));
      } else {
        LogError(f, TagRead);
        m := None;
      }
    }

    /** The list comprehension of AMTU.py:533-534: the files whose tag,
        read once more when the first read succeeds, names the album. */
    method AlbumFiles(files: seq<File>, album: string) returns (r: seq<File>)
      modifies this`errorRecords
      ensures r == Members(disk, files, album)
      ensures errorRecords == old(errorRecords) + UnreadableLog(disk, files)
    {
      r := [];
      var j := 0;
      while j < |files|
        invariant j <= |files|
        invariant r == Members(disk, files[..j], album)
        invariant errorRecords == old(errorRecords) + UnreadableLog(disk, files[..j])
      {
        var f := files[j];
        MembersStep(disk, files, j, album);
        UnreadableStep(disk, files, j);
        ghost var before := errorRecords;
        var first := ReadMetadata(f);
        if first.Some? {
          var again := ReadMetadata(f);
          if again.value.album == album {
            r := r + [f];
          }
        }
        assert errorRecords == before + ReadLog(disk, f);
        AppendAssoc3(old(errorRecords), UnreadableLog(disk, files[..j]), ReadLog(disk, f));
        j := j + 1;
      }
      assert files[..j] == files;
    }

    /** `group_files_by_album`. */
    method GroupFilesByAlbum(files: seq<File>) returns (groups: seq<Group>)
      modifies this`errorRecords
      ensures groups == GroupFiles(disk, files)
      ensures errorRecords == old(errorRecords) + GroupLog(disk, files, files)
    {
      groups := [];
      var i := 0;
      while i < |files|
        invariant i <= |files|
        invariant groups == GroupedPrefix(disk, files, files[..i])
        invariant errorRecords == old(errorRecords) + GroupLog(disk, files, files[..i])
      {
        var f := files[i];
        GroupedStep(disk, files, i);
        ghost var before := errorRecords;
        var metadata := ReadMetadata(f);
        if metadata.Some? && metadata.value.album != "" {
          var albumFiles := AlbumFiles(files, metadata.value.album);
          var isEp := |albumFiles| < 7;
          groups := Insert(groups, metadata.value.album, isEp, f);
        }
        assert errorRecords == before + ReadLog(disk, f) + (if HasAlbum(disk, f) then UnreadableLog(disk, files) else []);
        AppendAssoc4(old(errorRecords), GroupLog(disk, files, files[..i]), ReadLog(disk, f),
                    if HasAlbum(disk, f) then UnreadableLog(disk, files) else []);
        i := i + 1;
      }
      assert files[..i] == files;
    }

    /** The summary counters the merge bumps (AMTU.py:657-658, 667-668
        and 718-719). */
    method CountMerge(metadata: TrackMetadata, m: Merge)
      modifies this`summary
      ensures summary == Counted(old(summary), metadata, m)
    {
      if m.newLabel.Some? {
        summary := summary.(labelUpdates := summary.labelUpdates + 1, labelsFound := summary.labelsFound + {m.newLabel.value});
      }
      if m.newCatalog.Some? {
        summary := summary.(catalogUpdates := summary.catalogUpdates + 1, catalogsFound := summary.catalogsFound + {m.newCatalog.value});
      }
      if m.Updated() {
        summary := summary.(updatedFiles := summary.updatedFiles + 1, sourceUsed := Some(metadata.source));
      }
    }

    /** `_update_metadata`: open the tag (giving the file an empty one if
        it has none), apply the rules, count, and save when something
        changed, keeping the modification time. A failure logs one error
        and is reported by returning `raised`. */
    method UpdateMetadata(f: File, metadata: TrackMetadata, now: int) returns (raised: bool)
      modifies this`disk, this`summary, this`errorRecords
      ensures var u := UpdateFile(old(disk), old(summary), f, metadata, now);
        && disk == u.disk && summary == u.summary && raised == u.raised
        && errorRecords == old(errorRecords) + u.errors
    {
      if !(f in disk && disk[f].tag.Some?) {
        if f in disk && !disk[f].writable {
          LogError(f, TagUpdate);
          return true;
        }
        disk := disk[f := AudioFile(Some(EmptyTag), now, true)];
      }
      ghost var ready := disk;
      assert errorRecords == old(errorRecords) && summary == old(summary);
      assert Opened(old(disk), f, now) == Some(ready);
      assert UpdateFile(old(disk), old(summary), f, metadata, now)
          == Saved(ready, summary, f, metadata, MergeTags(ready[f].tag.value, metadata));
      var m := MergeFrames(disk[f].tag.value, metadata);
      raised := SaveMerged(f, metadata, m);
      assert errorRecords == old(errorRecords) + Saved(ready, old(summary), f, metadata, m).errors;
    }

    /** AMTU.py:714-725: count, and when something changed save the merged
        tag and put back the modification time read before the save. */
    method SaveMerged(f: File, metadata: TrackMetadata, m: Merge) returns (raised: bool)
      requires Readable(disk, f)
      modifies this`disk, this`summary, this`errorRecords
      ensures var u := Saved(old(disk), old(summary), f, metadata, m);
        && disk == u.disk && summary == u.summary && raised == u.raised
        && errorRecords == old(errorRecords) + u.errors
    {
      CountMerge(metadata, m);
      var originalTime := disk[f].mtime;
      if m.Updated() {
        if !disk[f].writable {
          LogError(f, TagUpdate);
          return true;
        }
        disk := disk[f := AudioFile(Some(m.tag), originalTime, true)];
      }
      summary := summary.(totalFiles := summary.totalFiles + 1);
      raised := false;
    }

    /** The search for one cohort: `_get_album_metadata` (the second
        definition, which is the one in effect). */
    method GetAlbumMetadata(f: File, services: map<string, bool>, attempts: nat -> Attempt)
      returns (r: Raising<Option<TrackMetadata>>)
      modifies this`errorRecords
      ensures var l := AlbumMetadata(disk, services, attempts, f);
        r == l.result && errorRecords == old(errorRecords) + l.errors
    {
      var current := ReadMetadata(f);
      if current.None? || current.value.title == "" || current.value.artist == "" {
        return Returned(None);
      }
      var apiResults := SearchTrack(services, Retries, attempts);
      if apiResults.Raised? {
        return Raised;
      }
      if apiResults.value == [] {
        return Returned(None);
      }
      var bestMatch := apiResults.value[0];
      var shouldUseResult := bestMatch.confidence >= 60.0 && Truthy(bestMatch.recordLabel);
      if shouldUseResult {
        return Returned(Some(bestMatch));
      }
      return Returned(None);
    }

    /** AMTU.py:882-895: update every file of an accepted cohort. */
    method UpdateFiles(files: seq<File>, metadata: TrackMetadata, now: int, total: nat, processed: nat, reports: seq<real>)
      returns (processed': nat, reports': seq<real>)
      requires total > 0
      modifies this`disk, this`summary, this`errorRecords
      ensures var q := UpdateEach(Progress(old(State()), processed, reports), files, metadata, now, total);
        State() == q.st && processed' == q.processed && reports' == q.reports
    {
      processed', reports' := processed, reports;
      var k := 0;
      while k < |files|
        invariant k <= |files|
        invariant UpdateEach(Progress(State(), processed', reports'), files[k..], metadata, now, total)
               == UpdateEach(Progress(old(State()), processed, reports), files, metadata, now, total)
      {
        var f := files[k];
        assert files[k..][0] == f && files[k..][1..] == files[k + 1..];
        processed', reports' := UpdateOne(f, metadata, now, total, processed', reports');
        k := k + 1;
      }
    }

    /** AMTU.py:884-895: update one file; on success count it and report
        the progress, on failure log it once more. */
    method UpdateOne(f: File, metadata: TrackMetadata, now: int, total: nat, processed: nat, reports: seq<real>)
      returns (processed': nat, reports': seq<real>)
      requires total > 0
      modifies this`disk, this`summary, this`errorRecords
      ensures var q := AfterUpdate(Progress(old(State()), processed, reports), f, UpdateFile(old(disk), old(summary), f, metadata, now), total);
        State() == q.st && processed' == q.processed && reports' == q.reports
    {
      ghost var u := UpdateFile(disk, summary, f, metadata, now);
      ghost var before := Progress(State(), processed, reports);
      var raised := UpdateMetadata(f, metadata, now);
      ghost var st := before.st.(disk := u.disk, summary := u.summary, errors := before.st.errors + u.errors);
      assert State() == st;
      if raised {
        LogError(f, FileUpdate);
        assert State() == st.(errors := st.errors + LogErrorRecords(u.disk, f, FileUpdate));
        processed', reports' := processed, reports;
      } else {
        processed' := processed + 1;
        reports' := reports + [Percent(processed', total)];
      }
    }

    /** AMTU.py:897-901: read every file of a rejected cohort again and
        log it as not found. */
    method LogFilesNotFound(files: seq<File>, reason: string)
      modifies this`errorRecords, this`notFoundRecords
      ensures errorRecords == old(errorRecords) + UnreadableLog(disk, files)
      ensures notFoundRecords == old(notFoundRecords) + NotFoundLog(disk, files, reason)
    {
      var k := 0;
      while k < |files|
        invariant k <= |files|
        invariant errorRecords == old(errorRecords) + UnreadableLog(disk, files[..k])
        invariant notFoundRecords == old(notFoundRecords) + NotFoundLog(disk, files[..k], reason)
      {
        var f := files[k];
        UnreadableStep(disk, files, k);
        NotFoundStep(disk, files, k, reason);
        AppendAssoc3(old(errorRecords), UnreadableLog(disk, files[..k]), ReadLog(disk, f));
        AppendAssoc3(old(notFoundRecords), NotFoundLog(disk, files[..k], reason), [NotFoundRecordFor(f, ReadTags(disk, f), reason)]);
        var currentMetadata := ReadMetadata(f);
        LogNotFound(f, currentMetadata, reason);
        k := k + 1;
      }
      assert files[..k] == files;
    }

    /** One pass of the cohort loop's body (AMTU.py:872-907). */
    method ProcessCohort(g: Group, services: map<string, bool>, attempts: nat -> Attempt, now: int,
                         total: nat, processed: nat, reports: seq<real>)
      returns (processed': nat, reports': seq<real>)
      requires total > 0 && g.files != []
      modifies this`disk, this`summary, this`errorRecords, this`notFoundRecords
      ensures var q := Cohort(Progress(old(State()), processed, reports), g, services, attempts, now, total);
        State() == q.st && processed' == q.processed && reports' == q.reports
    {
      var firstFile := g.files[0];
      ghost var p0 := Progress(State(), processed, reports);
      ghost var l := AlbumMetadata(disk, services, attempts, firstFile);
      var metadata := GetAlbumMetadata(firstFile, services, attempts);
      ghost var p1 := Progress(State(), processed, reports);
      assert p1 == p0.(st := p0.st.(errors := p0.st.errors + l.errors));
      match metadata {
        case Raised =>
          LogError(firstFile, AlbumProcessing(g.album));
          processed', reports' := processed, reports;
          assert Progress(State(), processed', reports')
              == p1.(st := p1.st.(errors := p1.st.errors + LogErrorRecords(p1.st.disk, firstFile, AlbumProcessing(g.album))));
        case Returned(m) =>
          assert Cohort(p0, g, services, attempts, now, total)
              == if m.Some? && Truthy(m.value.recordLabel) then UpdateEach(p1, g.files, m.value, now, total)
                 else LogEach(p1, g.files, RejectReason(m));
          processed', reports' := ApplyMetadata(g.files, m, now, total, processed, reports);
      }
    }

    /** AMTU.py:882-901: with a label, update every file of the cohort;
        otherwise log every file as not found, with the reason. */
    method ApplyMetadata(files: seq<File>, m: Option<TrackMetadata>, now: int, total: nat, processed: nat, reports: seq<real>)
      returns (processed': nat, reports': seq<real>)
      requires total > 0
      modifies this`disk, this`summary, this`errorRecords, this`notFoundRecords
      ensures var p := Progress(old(State()), processed, reports);
        var q := if m.Some? && Truthy(m.value.recordLabel) then UpdateEach(p, files, m.value, now, total)
                 else LogEach(p, files, RejectReason(m));
        State() == q.st && processed' == q.processed && reports' == q.reports
    {
      if m.Some? && Truthy(m.value.recordLabel) {
        processed', reports' := UpdateFiles(files, m.value, now, total, processed, reports);
      } else {
        var reason := if m.Some? then NoLabelReason else NoResultReason;
        ghost var p := Progress(State(), processed, reports);
        LogFilesNotFound(files, reason);
        LogEachOutcome(p, files, reason);
        processed', reports' := processed, reports;
      }
    }

    /** The loop over the cohorts (AMTU.py:866-907): before each cohort
        the flag is checked, and a set flag ends the loop. */
    method ProcessCohorts(groups: seq<Group>, env: Environment, total: nat, processed: nat, reports: seq<real>)
      returns (processed': nat, reports': seq<real>)
      requires total > 0 && HaveFiles(groups)
      modifies this
      ensures var q := Cohorts(Progress(old(State()), processed, reports), groups, 0, env, total);
        State() == q.st && processed' == q.processed && reports' == q.reports
    {
      ghost var result := Cohorts(Progress(State(), processed, reports), groups, 0, env, total);
      processed', reports' := processed, reports;
      var i := 0;
      while i < |groups|
        invariant i <= |groups|
        invariant Cohorts(Progress(State(), processed', reports'), groups, i, env, total) == result
      {
        processingCanceled := processingCanceled || env.cancel(i);
        if processingCanceled {
          assert Progress(State(), processed', reports') == result;
          return;
        }
        processed', reports' := ProcessCohort(groups[i], env.services, env.search(i), env.now,
                                              total, processed', reports');
        i := i + 1;
      }
    }

    /** `process_directory(files)`; `env.cancel(c)` stands for a call of
        `cancel_processing` from another thread before the c-th check of
        the flag, and the returned values are those passed to the
        progress callback. */
    method ProcessDirectory(files: seq<File>, env: Environment) returns (reports: seq<real>)
      modifies this
      ensures var q := Run(old(State()), files, env);
        State() == q.st && reports == q.reports
    {
      if |files| == 0 {
        return [];
      }
      var totalFiles := |files|;
      reports := [0.0];
      errorRecords := [];
      notFoundRecords := [];
      var groupedFiles := GroupFilesByAlbum(files);
      GroupsHaveFiles(disk, files);
      assert [] + GroupLog(disk, files, files) == GroupLog(disk, files, files);
      ghost var start := Progress(State(), 0, [0.0]);
      assert start.st == old(State()).(errors := GroupLog(old(disk), files, files), notFound := []);
      var processedCount;
      processedCount, reports := ProcessCohorts(groupedFiles, env, totalFiles, 0, reports);
      ghost var result := Cohorts(start, groupedFiles, 0, env, totalFiles);
      assert Progress(State(), processedCount, reports) == result;
      processingCanceled := processingCanceled || env.cancel(|groupedFiles|);
      if !processingCanceled {
        reports := reports + [100.0];
      }
      assert State() == result.st.(canceled := processingCanceled);
    }
  }

  /** The frame rules of `_update_metadata` on the tag it opened
      (AMTU.py:638-712): save the texts of TIT2, TPE1, TALB, TCON and
      TDTG, apply the rules, then write the saved texts back. */
  method MergeFrames(tag: Tag, metadata: TrackMetadata) returns (m: Merge)
    ensures m == MergeTags(tag, metadata)
  {
    var existingAlbum := TextOf(tag.album);
    var newAlbum := CleanAlbumTitle(existingAlbum);
    m := ApplyRules(tag, metadata, newAlbum);
    if m.albumSet {
      existingAlbum := newAlbum;
    }
    var audio := RestoreSaved(m.tag, tag, existingAlbum);
    m := m.(tag := audio);
  }

  /** AMTU.py:701-712: the texts of TIT2, TPE1, TCON and TDTG as `tag`
      held them before the rules, and the album text given, written back
      where non-empty. */
  method RestoreSaved(audio: Tag, tag: Tag, existingAlbum: string) returns (r: Tag)
    ensures r == RestoreFrames(audio, tag, existingAlbum)
  {
    r := audio;
    if TextOf(tag.title) != "" {
      r := r.(title := Some(TextOf(tag.title)));
    }
    if TextOf(tag.artist) != "" {
      r := r.(artist := Some(TextOf(tag.artist)));
    }
    if existingAlbum != "" {
      r := r.(album := Some(existingAlbum));
    }
    if TextOf(tag.genre) != "" {
      r := r.(genre := Some(TextOf(tag.genre)));
    }
    if TextOf(tag.taggingTime) != "" {
      r := r.(taggingTime := Some(TextOf(tag.taggingTime)));
    }
  }

  /** AMTU.py:671-685: the four substitutions of `single_patterns` in
      turn, then `strip`. */
  method CleanAlbumTitle(currentAlbum: string) returns (newAlbum: string)
    ensures newAlbum == CleanAlbum(currentAlbum)
  {
    newAlbum := currentAlbum;
    for k := 0 to |SinglePatterns|
      invariant newAlbum == SubEach(SinglePatterns[..k], currentAlbum)
    {
      SubEachSnoc(SinglePatterns[..k], SinglePatterns[k], currentAlbum);
      assert SinglePatterns[..k + 1] == SinglePatterns[..k] + [SinglePatterns[k]];
      newAlbum := Sub(SinglePatterns[k], newAlbum);
    }
    assert SinglePatterns[..|SinglePatterns|] == SinglePatterns;
    newAlbum := Strip(newAlbum);
    CleanAlbumBySubEach(currentAlbum);
  }

  /** AMTU.py:649-699: the label, catalogue-number, album and album-artist
      rules, each writing its frame only when the value changes. */
  method ApplyRules(tag: Tag, metadata: TrackMetadata, newAlbum: string) returns (m: Merge)
    ensures m == RulesWith(tag, metadata, newAlbum)
  {
    var audio := tag;
    var newLabel: Option<string> := None;
    if Truthy(metadata.recordLabel) {
      var currentLabel := TextOf(audio.composer);
      if LowerStr(currentLabel) != LowerStr(metadata.recordLabel.value) {
        audio := audio.(composer := metadata.recordLabel);
        newLabel := metadata.recordLabel;
      }
    }
    var newCatalog: Option<string> := None;
    if Truthy(metadata.catalogNumber) {
      var currentGrouping := TextOf(audio.grouping);
      if LowerStr(currentGrouping) != LowerStr(metadata.catalogNumber.value) {
        audio := audio.(grouping := metadata.catalogNumber);
        newCatalog := metadata.catalogNumber;
      }
    }
    var albumSet := false;
    if newAlbum != TextOf(tag.album) {
      audio := audio.(album := Some(newAlbum));
      albumSet := true;
    }
    var albumArtistSet := false;
    if metadata.artist != "" {
      var currentAlbumArtist := TextOf(audio.albumArtist);
      if currentAlbumArtist != metadata.artist {
        audio := audio.(albumArtist := Some(metadata.artist));
        albumArtistSet := true;
      }
    }
    m := Merge(audio, newLabel, newCatalog, albumSet, albumArtistSet);
  }

  /** One more file read by the comprehension. */
  lemma MembersStep(disk: Disk, fs: seq<File>, j: nat, album: string)
    requires j < |fs|
    ensures Members(disk, fs[..j + 1], album)
         == Members(disk, fs[..j], album) + (if Readable(disk, fs[j]) && AlbumOf(disk, fs[j]) == album then [fs[j]] else [])
  {
    assert fs[..j + 1] == fs[..j] + [fs[j]];
    MembersSnoc(disk, fs[..j], fs[j], album);
  }

  /** One more unreadable-file record, or none. */
  lemma UnreadableStep(disk: Disk, fs: seq<File>, j: nat)
    requires j < |fs|
    ensures UnreadableLog(disk, fs[..j + 1]) == UnreadableLog(disk, fs[..j]) + ReadLog(disk, fs[j])
  {
    assert fs[..j + 1][..j] == fs[..j];
  }

  /** One more not-found record. */
  lemma NotFoundStep(disk: Disk, fs: seq<File>, j: nat, reason: string)
    requires j < |fs|
    ensures NotFoundLog(disk, fs[..j + 1], reason)
         == NotFoundLog(disk, fs[..j], reason) + [NotFoundRecordFor(fs[j], ReadTags(disk, fs[j]), reason)]
  {
    assert fs[..j + 1][..j] == fs[..j];
  }

  /** One more pass of the grouping loop. */
  lemma GroupedStep(disk: Disk, all: seq<File>, i: nat)
    requires i < |all|
    ensures var f := all[i];
      GroupedPrefix(disk, all, all[..i + 1])
        == (if HasAlbum(disk, f) then Insert(GroupedPrefix(disk, all, all[..i]), AlbumOf(disk, f), IsEp(disk, all, AlbumOf(disk, f)), f)
            else GroupedPrefix(disk, all, all[..i]))
    ensures GroupLog(disk, all, all[..i + 1])
         == GroupLog(disk, all, all[..i]) + ReadLog(disk, all[i]) + (if HasAlbum(disk, all[i]) then UnreadableLog(disk, all) else [])
  {
    assert all[..i + 1][..i] == all[..i];
  }
}
