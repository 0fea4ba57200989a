/**
 * What `_update_metadata` (AMTU.py:626-740) does to one ID3 tag: the
 * label goes to the composer frame TCOM and the catalogue number to the
 * grouping frame GRP1 when they differ ignoring case, the trailing
 * "- Single" / "(Single)" is cut from the album TALB, the artist goes to
 * the album-artist frame TPE2 when it differs, and the frames it saved
 * beforehand are written back. Also the run-summary counters it bumps,
 * and the whole call on a file of the disk.
 */
module TagMerge {
  import opened Wrappers
  import opened Text
  import opened Models
  import opened Tags
  import opened Ledgers

  // ---------------------------------------------------------------------
  // The album clean-up (AMTU.py:674-690)
  // ---------------------------------------------------------------------

  /** The two suffix patterns; under IGNORECASE the third and fourth
      patterns of the list are the first and second again. */
  datatype Pattern =
    | Dash   // \s*-\s*Single\s*$
    | Paren  // \s*\(Single\)\s*$

  /** The first position at or after i that is not white space, or |s|. */
  function SkipSpace(s: string, i: nat): (j: nat)
    requires i <= |s|
    ensures i <= j <= |s|
    ensures forall k :: i <= k < j ==> IsSpace(s[k])
    ensures j < |s| ==> !IsSpace(s[j])
    decreases |s| - i
  {
    if i < |s| && IsSpace(s[i]) then SkipSpace(s, i + 1) else i
  }

  /** "single" in any ASCII letter case starts at position b. */
  predicate SingleAt(s: string, b: nat) {
    b + 6 <= |s|
    && Lower(s[b]) == 's' && Lower(s[b + 1]) == 'i' && Lower(s[b + 2]) == 'n'
    && Lower(s[b + 3]) == 'g' && Lower(s[b + 4]) == 'l' && Lower(s[b + 5]) == 'e'
  }

  /** The pattern matches s from position i to its end (the `\s*` before
      `$` takes any trailing newline). */
  predicate MatchesAt(p: Pattern, s: string, i: nat)
    requires i <= |s|
  {
    var a := SkipSpace(s, i);
    match p
    case Dash =>
      a < |s| && s[a] == '-' &&
      var b := SkipSpace(s, a + 1);
      SingleAt(s, b) && SkipSpace(s, b + 6) == |s|
    case Paren =>
      a + 8 <= |s| && s[a] == '(' && SingleAt(s, a + 1) && s[a + 7] == ')' && SkipSpace(s, a + 8) == |s|
  }

  /** The leftmost position at or after i from which the pattern matches
      to the end of s, or |s| + 1 when there is none. */
  function MatchFrom(p: Pattern, s: string, i: nat): (k: nat)
    requires i <= |s|
    ensures i <= k <= |s| + 1
    ensures k <= |s| ==> MatchesAt(p, s, k)
    ensures forall j :: i <= j < k && j <= |s| ==> !MatchesAt(p, s, j)
    decreases |s| - i
  {
    if MatchesAt(p, s, i) then i
    else if i == |s| then |s| + 1
    else MatchFrom(p, s, i + 1)
  }

  /** `re.sub(pattern, '', s, flags=re.IGNORECASE)`: every match runs to
      the end of the string, so the string up to the leftmost position
      from which the pattern matches is kept. */
  function Sub(p: Pattern, s: string): (r: string)
    ensures r == s <==> forall j :: 0 <= j <= |s| ==> !MatchesAt(p, s, j)
    ensures r != s ==> |r| < |s| && r == s[..|r|] && MatchesAt(p, s, |r|)
                       && forall j :: 0 <= j < |r| ==> !MatchesAt(p, s, j)
  {
    var k := MatchFrom(p, s, 0);
    if k <= |s| then s[..k] else s
  }

  /** The four substitutions in list order, then `strip`. */
  function CleanAlbum(album: string): (r: string)
    ensures |r| <= |album|
  {
    Strip(Sub(Paren, Sub(Dash, Sub(Paren, Sub(Dash, album)))))
  }

  /** `single_patterns` in list order. */
  const SinglePatterns: seq<Pattern> := [Dash, Paren, Dash, Paren]

  /** The substitutions of ps applied one after the other. */
  function SubEach(ps: seq<Pattern>, s: string): (r: string)
    ensures |r| <= |s|
  {
    if ps == [] then s else Sub(ps[|ps| - 1], SubEach(ps[..|ps| - 1], s))
  }

  lemma SubEachSnoc(ps: seq<Pattern>, p: Pattern, s: string)
    ensures SubEach(ps + [p], s) == Sub(p, SubEach(ps, s))
  {
    assert (ps + [p])[..|ps|] == ps;
  }

  /** The loop over `single_patterns` followed by `strip` is the clean-up. */
  lemma CleanAlbumBySubEach(album: string)
    ensures CleanAlbum(album) == Strip(SubEach(SinglePatterns, album))
  {
    var e: seq<Pattern> := [];
    assert SinglePatterns == e + [Dash] + [Paren] + [Dash] + [Paren];
    SubEachSnoc(e, Dash, album);
    SubEachSnoc(e + [Dash], Paren, album);
    SubEachSnoc(e + [Dash] + [Paren], Dash, album);
    SubEachSnoc(e + [Dash] + [Paren] + [Dash], Paren, album);
  }

  /** Without the pattern's marker character nothing is removed. */
  lemma SubWithoutMarker(p: Pattern, s: string)
    requires p.Dash? ==> '-' !in s
    requires p.Paren? ==> ')' !in s
    ensures Sub(p, s) == s
  {
    forall j | 0 <= j <= |s| ensures !MatchesAt(p, s, j) {
      var a := SkipSpace(s, j);
      assert a < |s| ==> s[a] in s;
      assert a + 8 <= |s| ==> s[a + 7] in s;
    }
  }

  /** The dash pattern removes exactly one " - Single" from the end of a
      string whose text before it ends in neither white space nor a dash. */
  lemma SubDashOnce(x: string)
    requires x != [] ==> !IsSpace(x[|x| - 1]) && x[|x| - 1] != '-'
    ensures Sub(Dash, x + " - Single") == x
  {
    var s := x + " - Single";
    assert s[|x|] == ' ' && s[|x| + 1] == '-' && s[|x| + 2] == ' ' && s[|s| - 1] == 'e';
    forall j | 0 <= j < |x| ensures !MatchesAt(Dash, s, j) {
      var a := SkipSpace(s, j);
      var b := SkipSpace(s, a + 1);
      var last, dash, end := s[|s| - 1], s[|x| + 1], s[|x| - 1];
      assert !IsSpace(last) && !IsSpace(dash) && end == x[|x| - 1];
      assert b + 6 < |s| && SkipSpace(s, b + 6) == |s| ==> IsSpace(last);
      assert a + 1 <= |x| + 1 < b ==> IsSpace(dash);
      assert j <= |x| - 1 < a ==> IsSpace(end);
    }
    assert SkipSpace(s, |x|) == |x| + 1;
    assert SkipSpace(s, |x| + 2) == |x| + 3;
    assert SingleAt(s, |x| + 3);
    assert MatchesAt(Dash, s, |x|);
    var r := Sub(Dash, s);
    assert |r| == |x|;
    assert r == s[..|x|] == x;
  }

  /** `strip` leaves a string without white space at either end alone. */
  lemma StripUntrimmed(s: string)
    requires s != [] ==> !IsSpace(s[0]) && !IsSpace(s[|s| - 1])
    ensures Strip(s) == s
  {
  }

  /** A string without white space at its ends, dashes or closing
      parentheses. */
  predicate PlainTitle(x: string) {
    x != [] && !IsSpace(x[0]) && !IsSpace(x[|x| - 1]) && '-' !in x && ')' !in x
  }

  /** The clean-up is not idempotent: each call removes at most two
      "- Single" suffixes, so a second call can still change the album;
      "X - Single - Single - Single" becomes "X - Single", then "X". */
  lemma {:induction false} CleanAlbumNotIdempotent(x: string)
    requires PlainTitle(x)
    ensures CleanAlbum(x + " - Single" + " - Single" + " - Single") == x + " - Single"
    ensures CleanAlbum(x + " - Single") == x
  {
    var x1 := x + " - Single";
    var x2 := x1 + " - Single";
    assert x1[|x1| - 1] == 'e' && x2[|x2| - 1] == 'e';
    assert x1[0] == x[0];
    assert ')' !in x1 by {
      assert forall i :: 0 <= i < |x1| ==> x1[i] == if i < |x| then x[i] else " - Single"[i - |x|];
    }
    assert ')' !in x2 by {
      assert forall i :: 0 <= i < |x2| ==> x2[i] == if i < |x1| then x1[i] else " - Single"[i - |x1|];
    }
    SubDashOnce(x2);
    SubWithoutMarker(Paren, x2);
    SubDashOnce(x1);
    SubWithoutMarker(Paren, x1);
    StripUntrimmed(x1);
    SubDashOnce(x);
    SubWithoutMarker(Paren, x);
    SubWithoutMarker(Dash, x);
    StripUntrimmed(x);
  }

  /** An album without either suffix anywhere is only stripped. */
  lemma CleanAlbumWithoutSuffix(album: string)
    requires forall j :: 0 <= j <= |album| ==> !MatchesAt(Dash, album, j) && !MatchesAt(Paren, album, j)
    ensures CleanAlbum(album) == Strip(album)
  {
  }

  /** A prefix of a prefix of a prefix of a prefix of s is a prefix of s. */
  lemma PrefixChain(s: string, a1: string, a2: string, a3: string, a4: string)
    requires |a1| <= |s| && a1 == s[..|a1|]
    requires |a2| <= |a1| && a2 == a1[..|a2|]
    requires |a3| <= |a2| && a3 == a2[..|a3|]
    requires |a4| <= |a3| && a4 == a3[..|a4|]
    ensures a4 == s[..|a4|]
  {
    assert forall i :: 0 <= i < |a4| ==> a4[i] == a3[i] == a2[i] == a1[i] == s[i];
  }

  /** What a substitution leaves is a prefix of its input. */
  lemma SubIsPrefix(p: Pattern, s: string)
    ensures |Sub(p, s)| <= |s| && Sub(p, s) == s[..|Sub(p, s)|]
  {
  }

  /** The cleaned album is a stripped prefix of the album. */
  lemma CleanAlbumIsStrippedPrefix(album: string)
    ensures exists k :: 0 <= k <= |album| && CleanAlbum(album) == Strip(album[..k])
  {
    var a1 := Sub(Dash, album);
    var a2 := Sub(Paren, a1);
    var a3 := Sub(Dash, a2);
    var a4 := Sub(Paren, a3);
    SubIsPrefix(Dash, album);
    SubIsPrefix(Paren, a1);
    SubIsPrefix(Dash, a2);
    SubIsPrefix(Paren, a3);
    PrefixChain(album, a1, a2, a3, a4);
    assert CleanAlbum(album) == Strip(album[..|a4|]);
  }

  // ---------------------------------------------------------------------
  // The frame merge (AMTU.py:638-712)
  // ---------------------------------------------------------------------

  /** The tag after the merge and what the rules wrote: the label and
      catalogue number written, if any, and whether the album and the
      album artist were rewritten. */
  datatype Merge = Merge(tag: Tag, newLabel: Option<string>, newCatalog: Option<string>, albumSet: bool, albumArtistSet: bool)
  {
    /** The `updated` flag. */
    predicate Updated() {
      newLabel.Some? || newCatalog.Some? || albumSet || albumArtistSet
    }
  }

  /** The composer/catalogue rule: the value to write when it is non-empty
      and differs, ignoring case, from the frame's text. */
  function CaselessChange(frame: Option<string>, value: Option<string>): (r: Option<string>)
    ensures r.Some? <==> Truthy(value) && LowerStr(TextOf(frame)) != LowerStr(value.value)
    ensures r.Some? ==> r == value
  {
    if Truthy(value) && LowerStr(TextOf(frame)) != LowerStr(value.value) then value else None
  }

  /** A frame after the restore: written back when its saved text is non-empty. */
  function Restore(frame: Option<string>, saved: string): Option<string> {
    if saved != "" then Some(saved) else frame
  }

  /** The four rules of `_update_metadata` in the order of the source,
      given the album as the clean-up leaves it, before the restore. */
  function RulesWith(tag: Tag, md: TrackMetadata, cleaned: string): (m: Merge)
    ensures m.newLabel == CaselessChange(tag.composer, md.recordLabel)
    ensures m.newCatalog == CaselessChange(tag.grouping, md.catalogNumber)
    ensures m.albumSet <==> cleaned != TextOf(tag.album)
    ensures m.albumArtistSet <==> md.artist != "" && TextOf(tag.albumArtist) != md.artist
  {
    var newLabel := CaselessChange(tag.composer, md.recordLabel);
    var t1 := if newLabel.Some? then tag.(composer := newLabel) else tag;
    var newCatalog := CaselessChange(t1.grouping, md.catalogNumber);
    var t2 := if newCatalog.Some? then t1.(grouping := newCatalog) else t1;
    var albumSet := cleaned != TextOf(tag.album);
    var t3 := if albumSet then t2.(album := Some(cleaned)) else t2;
    var albumArtistSet := md.artist != "" && TextOf(t3.albumArtist) != md.artist;
    var t4 := if albumArtistSet then t3.(albumArtist := Some(md.artist)) else t3;
    Merge(t4, newLabel, newCatalog, albumSet, albumArtistSet)
  }

  /** The restore: TIT2, TPE1, TALB, TCON and TDTG written back from the
      texts saved before the rules, where those are non-empty. */
  function RestoreFrames(t: Tag, saved: Tag, album: string): Tag {
    t.(title := Restore(t.title, TextOf(saved.title)),
       artist := Restore(t.artist, TextOf(saved.artist)),
       album := Restore(t.album, album),
       genre := Restore(t.genre, TextOf(saved.genre)),
       taggingTime := Restore(t.taggingTime, TextOf(saved.taggingTime)))
  }

  /** The rules, then the restore, with the saved album replaced by the
      cleaned one when the clean-up changed it. */
  function MergeWith(tag: Tag, md: TrackMetadata, cleaned: string): (m: Merge)
    ensures m.newLabel == CaselessChange(tag.composer, md.recordLabel)
    ensures m.newCatalog == CaselessChange(tag.grouping, md.catalogNumber)
    ensures m.albumSet <==> cleaned != TextOf(tag.album)
    ensures m.albumArtistSet <==> md.artist != "" && TextOf(tag.albumArtist) != md.artist
  {
    var r := RulesWith(tag, md, cleaned);
    r.(tag := RestoreFrames(r.tag, tag, if r.albumSet then cleaned else TextOf(tag.album)))
  }

  /** The tag after `_update_metadata`'s rules. */
  function MergeTags(tag: Tag, md: TrackMetadata): Merge {
    MergeWith(tag, md, CleanAlbum(TextOf(tag.album)))
  }

  /** The rules for any cleaned album: TCOM and GRP1 hold the value
      written, else keep what they held; TALB holds the cleaned album when
      it differs; TPE2 holds the artist when written; the restore leaves
      TIT2, TPE1, TCON, TDTG and every other frame as they were. */
  lemma MergeWithRules(tag: Tag, md: TrackMetadata, cleaned: string)
    ensures var m := MergeWith(tag, md, cleaned);
      && m.tag.composer == (if m.newLabel.Some? then m.newLabel else tag.composer)
      && m.tag.grouping == (if m.newCatalog.Some? then m.newCatalog else tag.grouping)
      && m.tag.album == (if m.albumSet then Some(cleaned) else tag.album)
      && m.tag.albumArtist == (if m.albumArtistSet then Some(md.artist) else tag.albumArtist)
      && m.tag.title == tag.title && m.tag.artist == tag.artist
      && m.tag.genre == tag.genre && m.tag.taggingTime == tag.taggingTime
      && m.tag.contentGroup == tag.contentGroup && m.tag.others == tag.others
  {
  }

  /** TCOM and GRP1 are set iff the new value is non-empty and differs
      ignoring case, and then hold it; otherwise they keep what they held. */
  lemma LabelAndCatalogRules(tag: Tag, md: TrackMetadata)
    ensures var m := MergeTags(tag, md);
      && (m.newLabel.Some? <==> Truthy(md.recordLabel) && LowerStr(TextOf(tag.composer)) != LowerStr(md.recordLabel.value))
      && m.tag.composer == (if m.newLabel.Some? then md.recordLabel else tag.composer)
      && (m.newCatalog.Some? <==> Truthy(md.catalogNumber) && LowerStr(TextOf(tag.grouping)) != LowerStr(md.catalogNumber.value))
      && m.tag.grouping == (if m.newCatalog.Some? then md.catalogNumber else tag.grouping)
  {
    MergeWithRules(tag, md, CleanAlbum(TextOf(tag.album)));
  }

  /** TALB holds the cleaned album when cleaning changed it, and TPE2 is
      set iff the artist is non-empty and differs, case included. */
  lemma AlbumAndAlbumArtistRules(tag: Tag, md: TrackMetadata)
    ensures var m := MergeTags(tag, md);
      && (m.albumSet <==> CleanAlbum(TextOf(tag.album)) != TextOf(tag.album))
      && m.tag.album == (if m.albumSet then Some(CleanAlbum(TextOf(tag.album))) else tag.album)
      && (m.albumArtistSet <==> md.artist != "" && TextOf(tag.albumArtist) != md.artist)
      && m.tag.albumArtist == (if m.albumArtistSet then Some(md.artist) else tag.albumArtist)
  {
    MergeWithRules(tag, md, CleanAlbum(TextOf(tag.album)));
  }

  /** The restore writes back what was there, so TIT2, TPE1, TCON and TDTG
      keep their values, and no frame outside the four rules changes. */
  lemma OtherFramesKept(tag: Tag, md: TrackMetadata)
    ensures var m := MergeTags(tag, md);
      && m.tag.title == tag.title && m.tag.artist == tag.artist
      && m.tag.genre == tag.genre && m.tag.taggingTime == tag.taggingTime
      && m.tag.contentGroup == tag.contentGroup && m.tag.others == tag.others
  {
    MergeWithRules(tag, md, CleanAlbum(TextOf(tag.album)));
  }

  /** A second merge with the same metadata writes no label, catalogue
      number or album artist; it changes the album iff the clean-up of the
      cleaned album changes it again. */
  lemma MergeTwice(tag: Tag, md: TrackMetadata)
    ensures var m := MergeTags(tag, md);
      var m' := MergeTags(m.tag, md);
      && m'.newLabel.None? && m'.newCatalog.None? && !m'.albumArtistSet
      && (m'.Updated() <==> CleanAlbum(TextOf(m.tag.album)) != TextOf(m.tag.album))
  {
    LabelAndCatalogRules(tag, md);
    AlbumAndAlbumArtistRules(tag, md);
  }

  // ---------------------------------------------------------------------
  // The summary counters and the call on a file (AMTU.py:626-740)
  // ---------------------------------------------------------------------

  /** The counters and sets bumped by the merge, before the save. */
  function Counted(summary: Summary, md: TrackMetadata, m: Merge): (s: Summary)
    ensures s.labelUpdates == summary.labelUpdates + (if m.newLabel.Some? then 1 else 0)
    ensures s.catalogUpdates == summary.catalogUpdates + (if m.newCatalog.Some? then 1 else 0)
    ensures s.labelsFound == summary.labelsFound + (if m.newLabel.Some? then {m.newLabel.value} else {})
    ensures s.catalogsFound == summary.catalogsFound + (if m.newCatalog.Some? then {m.newCatalog.value} else {})
    ensures s.updatedFiles == summary.updatedFiles + (if m.Updated() then 1 else 0)
    ensures s.sourceUsed == if m.Updated() then Some(md.source) else summary.sourceUsed
    ensures s.totalFiles == summary.totalFiles
  {
    var s1 := if m.newLabel.Some?
      then summary.(labelUpdates := summary.labelUpdates + 1, labelsFound := summary.labelsFound + {m.newLabel.value})
      else summary;
    var s2 := if m.newCatalog.Some?
      then s1.(catalogUpdates := s1.catalogUpdates + 1, catalogsFound := s1.catalogsFound + {m.newCatalog.value})
      else s1;
    if m.Updated() then s2.(updatedFiles := s2.updatedFiles + 1, sourceUsed := Some(md.source)) else s2
  }

  /** What one call of `_update_metadata` leaves behind. */
  datatype Update = Update(disk: Disk, summary: Summary, errors: seq<ErrorRecord>, raised: bool)

  /** The file as ID3 opens it: a file without a tag (or missing) first
      gets an empty tag saved to it, which stamps it with `now`. */
  function Opened(disk: Disk, f: File, now: int): Option<Disk> {
    if Readable(disk, f) then Some(disk)
    else if f in disk && !disk[f].writable then None
    else Some(disk[f := AudioFile(Some(EmptyTag), now, true)])
  }

  /** The counters, then the save when something changed, on a disk
      where f has a tag; the modification time is the one read after
      opening. */
  function Saved(ready: Disk, summary: Summary, f: File, md: TrackMetadata, m: Merge): (u: Update)
    requires Readable(ready, f)
  {
    var counted := Counted(summary, md, m);
    if !m.Updated() then Update(ready, counted.(totalFiles := counted.totalFiles + 1), [], false)
    else if !ready[f].writable then Update(ready, counted, LogErrorRecords(ready, f, TagUpdate), true)
    else
      var saved := ready[f := AudioFile(Some(m.tag), ready[f].mtime, true)];
      Update(saved, counted.(totalFiles := counted.totalFiles + 1), [], false)
  }

  /** `_update_metadata(f, md)` on the disk at time `now`: the merge, the
      counters, the save, and on failure one error record and the
      exception re-raised. */
  function UpdateFile(disk: Disk, summary: Summary, f: File, md: TrackMetadata, now: int): Update {
    match Opened(disk, f, now)
    case None => Update(disk, summary, LogErrorRecords(disk, f, TagUpdate), true)
    case Some(ready) => Saved(ready, summary, f, md, MergeTags(ready[f].tag.value, md))
  }

  /** The save saves iff the merge changed something, and then writes the
      merged tag with the modification time the file had; no other file
      changes; success counts one more file and logs nothing, failure logs
      one tag-update error and counts no file. */
  lemma SavedOutcome(ready: Disk, summary: Summary, f: File, md: TrackMetadata, m: Merge)
    requires Readable(ready, f)
    ensures var u := Saved(ready, summary, f, md, m);
      && (forall g :: g != f ==> (g in u.disk <==> g in ready) && (g in ready ==> u.disk[g] == ready[g]))
      && (!m.Updated() ==> u.disk == ready && !u.raised)
      && (m.Updated() && ready[f].writable ==>
            !u.raised && f in u.disk && u.disk[f] == AudioFile(Some(m.tag), ready[f].mtime, true))
      && (m.Updated() && !ready[f].writable ==> u.disk == ready && u.raised)
      && (!u.raised ==> u.summary.totalFiles == summary.totalFiles + 1 && u.errors == [] && Readable(u.disk, f))
      && (u.raised ==> u.summary.totalFiles == summary.totalFiles && |u.errors| == 1 && u.errors[0].error == TagUpdate)
      && u.summary.updatedFiles == summary.updatedFiles + (if m.Updated() then 1 else 0)
      && u.summary.labelUpdates == summary.labelUpdates + (if m.newLabel.Some? then 1 else 0)
      && u.summary.catalogUpdates == summary.catalogUpdates + (if m.newCatalog.Some? then 1 else 0)
  {
  }

  /** On a readable file: the call saves iff the merge changed something,
      then with the merged tag and the modification time it had before. */
  lemma UpdateFileOutcome(disk: Disk, summary: Summary, f: File, md: TrackMetadata, now: int)
    requires Readable(disk, f)
    ensures var u := UpdateFile(disk, summary, f, md, now);
      var m := MergeTags(disk[f].tag.value, md);
      && (forall g :: g != f ==> (g in u.disk <==> g in disk) && (g in disk ==> u.disk[g] == disk[g]))
      && (!m.Updated() ==> u.disk == disk && !u.raised)
      && (m.Updated() && disk[f].writable ==>
            !u.raised && f in u.disk && u.disk[f] == AudioFile(Some(m.tag), disk[f].mtime, true))
      && (m.Updated() && !disk[f].writable ==> u.disk == disk && u.raised)
      && (!u.raised ==> u.summary.totalFiles == summary.totalFiles + 1 && u.errors == [])
      && (u.raised ==> u.summary.totalFiles == summary.totalFiles && |u.errors| == 1 && u.errors[0].error == TagUpdate)
      && u.summary.updatedFiles == summary.updatedFiles + (if m.Updated() then 1 else 0)
  {
    SavedOutcome(disk, summary, f, md, MergeTags(disk[f].tag.value, md));
  }

  /** Whatever the file's state, the call raises iff it logs, it logs at
      most the one tag-update error, and it changes only that file. */
  lemma UpdateFileFrame(disk: Disk, summary: Summary, f: File, md: TrackMetadata, now: int)
    ensures var u := UpdateFile(disk, summary, f, md, now);
      && (forall g :: g != f ==> (g in u.disk <==> g in disk) && (g in disk ==> u.disk[g] == disk[g]))
      && (u.raised <==> |u.errors| == 1)
      && (u.raised ==> u.errors[0].error == TagUpdate && u.summary.totalFiles == summary.totalFiles)
      && (!u.raised ==> u.summary.totalFiles == summary.totalFiles + 1 && u.errors == [] && Readable(u.disk, f))
  {
    match Opened(disk, f, now)
    case None =>
    case Some(ready) =>
      SavedOutcome(ready, summary, f, md, MergeTags(ready[f].tag.value, md));
  }

  /** Updating a writable file twice with the same metadata: neither call
      fails, and the second counts no label or catalogue update and leaves
      TCOM, GRP1 and TPE2 as the first call wrote them. */
  lemma UpdateTwice(disk: Disk, summary: Summary, f: File, md: TrackMetadata, now: int, later: int)
    requires Readable(disk, f) && disk[f].writable
    ensures var u := UpdateFile(disk, summary, f, md, now);
      var u' := UpdateFile(u.disk, u.summary, f, md, later);
      && !u.raised && !u'.raised
      && u'.summary.labelUpdates == u.summary.labelUpdates
      && u'.summary.catalogUpdates == u.summary.catalogUpdates
      && Readable(u.disk, f) && Readable(u'.disk, f)
      && u'.disk[f].tag.value.composer == u.disk[f].tag.value.composer
      && u'.disk[f].tag.value.grouping == u.disk[f].tag.value.grouping
      && u'.disk[f].tag.value.albumArtist == u.disk[f].tag.value.albumArtist
  {
    var m := MergeTags(disk[f].tag.value, md);
    MergeTwice(disk[f].tag.value, md);
    SavedOutcome(disk, summary, f, md, m);
    var u := UpdateFile(disk, summary, f, md, now);
    SavedOutcome(u.disk, u.summary, f, md, MergeTags(u.disk[f].tag.value, md));
  }
}
