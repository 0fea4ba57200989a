/**
 * What `group_files_by_album` (AMTU.py:523-557) computes: the files with a
 * readable, non-empty album, grouped by the key (album, fewer than seven
 * files carry it), keys in the order their first file appears, and the
 * error records its reads append.
 */
module Grouping {
  import opened Wrappers
  import opened Tags
  import opened Ledgers

  /** One entry of the `grouped` dictionary: its key (album, is_ep) and its files. */
  datatype Group = Group(album: string, isEp: bool, files: seq<File>)

  /** The files of `fs`, in order, whose tag names `album` (the list
      comprehension of AMTU.py:533-534). */
  function Members(disk: Disk, fs: seq<File>, album: string): (r: seq<File>)
    ensures |r| <= |fs|
    ensures forall i :: 0 <= i < |r| ==> Readable(disk, r[i]) && AlbumOf(disk, r[i]) == album
  {
    if fs == [] then []
    else
      var rest := Members(disk, fs[..|fs| - 1], album);
      var f := fs[|fs| - 1];
      if Readable(disk, f) && AlbumOf(disk, f) == album then rest + [f] else rest
  }

  /** The `is_ep` part of a key: fewer than seven input files carry the album. */
  predicate IsEp(disk: Disk, all: seq<File>, album: string) {
    |Members(disk, all, album)| < 7
  }

  /** The position of key (album, isEp) in the groups, or -1. */
  function KeyIndex(gs: seq<Group>, album: string, isEp: bool): (k: int)
    ensures -1 <= k < |gs|
    ensures k >= 0 ==> gs[k].album == album && gs[k].isEp == isEp
    ensures k == -1 ==> forall i :: 0 <= i < |gs| ==> !(gs[i].album == album && gs[i].isEp == isEp)
  {
    if gs == [] then -1
    else if gs[0].album == album && gs[0].isEp == isEp then 0
    else
      var k := KeyIndex(gs[1..], album, isEp);
      if k == -1 then -1 else k + 1
  }

  /** AMTU.py:537-539: append the file to its key's list, adding the key
      at the end when it is new (dictionary insertion order). */
  function Insert(gs: seq<Group>, album: string, isEp: bool, f: File): seq<Group> {
    var k := KeyIndex(gs, album, isEp);
    if k == -1 then gs + [Group(album, isEp, [f])]
    else gs[k := gs[k].(files := gs[k].files + [f])]
  }

  /** The groups after the loop has visited the files `fs` (a prefix of `all`). */
  function GroupedPrefix(disk: Disk, all: seq<File>, fs: seq<File>): seq<Group> {
    if fs == [] then []
    else
      var gs := GroupedPrefix(disk, all, fs[..|fs| - 1]);
      var f := fs[|fs| - 1];
      if HasAlbum(disk, f) then Insert(gs, AlbumOf(disk, f), IsEp(disk, all, AlbumOf(disk, f)), f) else gs
  }

  /** The dictionary `group_files_by_album` returns. */
  function GroupFiles(disk: Disk, files: seq<File>): seq<Group> {
    GroupedPrefix(disk, files, files)
  }

  function Albums(gs: seq<Group>): (r: seq<string>)
    ensures |r| == |gs| && forall i :: 0 <= i < |gs| ==> r[i] == gs[i].album
  {
    seq(|gs|, i requires 0 <= i < |gs| => gs[i].album)
  }

  /** The groups of the files `fs`: each has a non-empty album, the key's
      `isEp` computed on all files, and exactly the files of `fs` with that
      album, in order; albums are distinct; and every file of `fs` with a
      non-empty album has its group. */
  ghost predicate WellGrouped(disk: Disk, all: seq<File>, fs: seq<File>, gs: seq<Group>) {
    && (forall i :: 0 <= i < |gs| ==>
          && gs[i].album != ""
          && gs[i].isEp == IsEp(disk, all, gs[i].album)
          && gs[i].files == Members(disk, fs, gs[i].album)
          && gs[i].files != [])
    && (forall i, j :: 0 <= i < j < |gs| ==> gs[i].album != gs[j].album)
    && (forall f :: f in fs && HasAlbum(disk, f) ==> AlbumOf(disk, f) in Albums(gs))
  }

  /** No file of fs carries the album: no members. */
  lemma {:induction false} MembersNone(disk: Disk, fs: seq<File>, album: string)
    requires forall f :: f in fs ==> !(Readable(disk, f) && AlbumOf(disk, f) == album)
    ensures Members(disk, fs, album) == []
  {
    if fs != [] {
      assert forall f :: f in fs[..|fs| - 1] ==> f in fs;
      MembersNone(disk, fs[..|fs| - 1], album);
    }
  }

  /** Members of a sequence extended by one file. */
  lemma MembersSnoc(disk: Disk, p: seq<File>, f: File, album: string)
    ensures Members(disk, p + [f], album)
         == Members(disk, p, album) + (if Readable(disk, f) && AlbumOf(disk, f) == album then [f] else [])
  {
    assert (p + [f])[..|p|] == p;
  }

  /** A file without a readable, non-empty album leaves the groups as they are. */
  lemma SkipStep(disk: Disk, all: seq<File>, p: seq<File>, f: File, gs: seq<Group>)
    requires WellGrouped(disk, all, p, gs) && !HasAlbum(disk, f)
    ensures WellGrouped(disk, all, p + [f], gs)
  {
    forall i | 0 <= i < |gs| ensures gs[i].files == Members(disk, p + [f], gs[i].album) {
      MembersSnoc(disk, p, f, gs[i].album);
    }
    assert forall g :: g in p + [f] ==> g in p || g == f;
  }

  /** A file whose key is already present is appended to that key's list. */
  lemma AppendStep(disk: Disk, all: seq<File>, p: seq<File>, f: File, gs: seq<Group>)
    requires WellGrouped(disk, all, p, gs) && HasAlbum(disk, f)
    requires KeyIndex(gs, AlbumOf(disk, f), IsEp(disk, all, AlbumOf(disk, f))) != -1
    ensures WellGrouped(disk, all, p + [f], Insert(gs, AlbumOf(disk, f), IsEp(disk, all, AlbumOf(disk, f)), f))
  {
    var a := AlbumOf(disk, f);
    var k := KeyIndex(gs, a, IsEp(disk, all, a));
    var gs' := Insert(gs, a, IsEp(disk, all, a), f);
    assert gs' == gs[k := gs[k].(files := gs[k].files + [f])];
    forall i | 0 <= i < |gs'| ensures gs'[i].files == Members(disk, p + [f], gs'[i].album) {
      MembersSnoc(disk, p, f, gs'[i].album);
    }
    assert Albums(gs') == Albums(gs);
    assert forall g :: g in p + [f] ==> g in p || g == f;
  }

  /** A key missing from well-formed groups means its album has no group
      and no file read so far. */
  lemma MissingKey(disk: Disk, all: seq<File>, p: seq<File>, gs: seq<Group>, a: string)
    requires WellGrouped(disk, all, p, gs)
    requires a != "" && KeyIndex(gs, a, IsEp(disk, all, a)) == -1
    ensures forall i :: 0 <= i < |gs| ==> gs[i].album != a
    ensures Members(disk, p, a) == []
  {
    forall i | 0 <= i < |gs| ensures gs[i].album != a {
      assert gs[i].isEp == IsEp(disk, all, gs[i].album);
    }
    assert a !in Albums(gs);
    forall g | g in p ensures !(Readable(disk, g) && AlbumOf(disk, g) == a) {
      if Readable(disk, g) && AlbumOf(disk, g) == a {
        assert HasAlbum(disk, g);
      }
    }
    MembersNone(disk, p, a);
  }

  /** A file whose key is new opens a group at the end. */
  lemma NewKeyStep(disk: Disk, all: seq<File>, p: seq<File>, f: File, gs: seq<Group>)
    requires WellGrouped(disk, all, p, gs) && HasAlbum(disk, f)
    requires KeyIndex(gs, AlbumOf(disk, f), IsEp(disk, all, AlbumOf(disk, f))) == -1
    ensures WellGrouped(disk, all, p + [f], Insert(gs, AlbumOf(disk, f), IsEp(disk, all, AlbumOf(disk, f)), f))
  {
    var a := AlbumOf(disk, f);
    var gs' := Insert(gs, a, IsEp(disk, all, a), f);
    assert gs' == gs + [Group(a, IsEp(disk, all, a), [f])];
    MissingKey(disk, all, p, gs, a);
    NewKeyGroups(disk, all, p, f, gs);
    assert Albums(gs') == Albums(gs) + [a];
    assert forall g :: g in p + [f] ==> g in p || g == f;
  }

  /** The groups after a new key, one by one. */
  lemma NewKeyGroups(disk: Disk, all: seq<File>, p: seq<File>, f: File, gs: seq<Group>)
    requires WellGrouped(disk, all, p, gs) && HasAlbum(disk, f)
    requires Members(disk, p, AlbumOf(disk, f)) == []
    ensures var a := AlbumOf(disk, f);
      var gs' := gs + [Group(a, IsEp(disk, all, a), [f])];
      forall i :: 0 <= i < |gs'| ==>
        && gs'[i].album != ""
        && gs'[i].isEp == IsEp(disk, all, gs'[i].album)
        && gs'[i].files == Members(disk, p + [f], gs'[i].album)
        && gs'[i].files != []
  {
    var a := AlbumOf(disk, f);
    var gs' := gs + [Group(a, IsEp(disk, all, a), [f])];
    forall i | 0 <= i < |gs'| ensures gs'[i].files == Members(disk, p + [f], gs'[i].album) {
      MembersSnoc(disk, p, f, gs'[i].album);
    }
  }

  /** The loop keeps the groups well formed. */
  lemma {:induction false} GroupedPrefixWellGrouped(disk: Disk, all: seq<File>, fs: seq<File>)
    ensures WellGrouped(disk, all, fs, GroupedPrefix(disk, all, fs))
  {
    if fs != [] {
      var p, f := fs[..|fs| - 1], fs[|fs| - 1];
      assert fs == p + [f];
      GroupedPrefixWellGrouped(disk, all, p);
      var gs := GroupedPrefix(disk, all, p);
      if !HasAlbum(disk, f) {
        SkipStep(disk, all, p, f, gs);
      } else if KeyIndex(gs, AlbumOf(disk, f), IsEp(disk, all, AlbumOf(disk, f))) == -1 {
        NewKeyStep(disk, all, p, f, gs);
      } else {
        AppendStep(disk, all, p, f, gs);
      }
    }
  }

  /** Every grouped file is readable with a non-empty album equal to its
      key's album, each album has exactly one key, `isEp` holds iff fewer
      than seven input files carry the album, each group lists those files
      in input order, and every file with a non-empty album is grouped. */
  lemma GroupFilesSpec(disk: Disk, files: seq<File>)
    ensures var gs := GroupFiles(disk, files);
      && (forall i, k :: 0 <= i < |gs| && 0 <= k < |gs[i].files| ==>
            HasAlbum(disk, gs[i].files[k]) && AlbumOf(disk, gs[i].files[k]) == gs[i].album)
      && (forall i, j :: 0 <= i < j < |gs| ==> gs[i].album != gs[j].album)
      && (forall i :: 0 <= i < |gs| ==> (gs[i].isEp <==> |Members(disk, files, gs[i].album)| < 7))
      && (forall i :: 0 <= i < |gs| ==> gs[i].files == Members(disk, files, gs[i].album))
      && (forall f :: f in files && HasAlbum(disk, f) ==> AlbumOf(disk, f) in Albums(gs))
  {
    GroupedPrefixWellGrouped(disk, files, files);
  }

  /** Every key has at least one file. */
  lemma GroupsHaveFiles(disk: Disk, files: seq<File>)
    ensures forall g :: g in GroupFiles(disk, files) ==> g.files != []
  {
    GroupedPrefixWellGrouped(disk, files, files);
  }

  // ---------------------------------------------------------------------
  // The singles count (AMTU.py:544-546)
  // ---------------------------------------------------------------------

  function SumSizes(gs: seq<Group>): nat {
    if gs == [] then 0 else SumSizes(gs[..|gs| - 1]) + |gs[|gs| - 1].files|
  }

  /** The number of files of fs with a readable, non-empty album. */
  function CountGrouped(disk: Disk, fs: seq<File>): (n: nat)
    ensures n <= |fs|
  {
    if fs == [] then 0 else CountGrouped(disk, fs[..|fs| - 1]) + (if HasAlbum(disk, fs[|fs| - 1]) then 1 else 0)
  }

  lemma {:induction false} SumSizesAppend(gs: seq<Group>, g: Group)
    ensures SumSizes(gs + [g]) == SumSizes(gs) + |g.files|
  {
    assert (gs + [g])[..|gs|] == gs;
  }

  lemma {:induction false} SumSizesUpdate(gs: seq<Group>, k: nat, g: Group)
    requires k < |gs|
    ensures SumSizes(gs[k := g]) + |gs[k].files| == SumSizes(gs) + |g.files|
    decreases |gs|
  {
    var n := |gs| - 1;
    if k < n {
      assert gs[k := g][..n] == gs[..n][k := g];
      SumSizesUpdate(gs[..n], k, g);
    } else {
      assert gs[k := g][..n] == gs[..n];
    }
  }

  lemma {:induction false} SumSizesGrouped(disk: Disk, all: seq<File>, fs: seq<File>)
    ensures SumSizes(GroupedPrefix(disk, all, fs)) == CountGrouped(disk, fs)
  {
    if fs != [] {
      var gs := GroupedPrefix(disk, all, fs[..|fs| - 1]);
      SumSizesGrouped(disk, all, fs[..|fs| - 1]);
      var f := fs[|fs| - 1];
      if HasAlbum(disk, f) {
        var a := AlbumOf(disk, f);
        var e := IsEp(disk, all, a);
        var k := KeyIndex(gs, a, e);
        if k == -1 {
          SumSizesAppend(gs, Group(a, e, [f]));
        } else {
          SumSizesUpdate(gs, k, gs[k].(files := gs[k].files + [f]));
        }
      }
    }
  }

  /** `singles_count`: the files left out of every group are those without
      a readable, non-empty album. */
  lemma SinglesCount(disk: Disk, files: seq<File>)
    ensures |files| - SumSizes(GroupFiles(disk, files)) == |files| - CountGrouped(disk, files)
    ensures SumSizes(GroupFiles(disk, files)) <= |files|
  {
    SumSizesGrouped(disk, files, files);
  }

  // ---------------------------------------------------------------------
  // The error records the grouping reads append
  // ---------------------------------------------------------------------

  /** The records of reading every file of fs once, in order. */
  function UnreadableLog(disk: Disk, fs: seq<File>): seq<ErrorRecord> {
    if fs == [] then [] else UnreadableLog(disk, fs[..|fs| - 1]) + ReadLog(disk, fs[|fs| - 1])
  }

  /** The records appended while the loop visits fs: the outer read of each
      file, and, for a file with a non-empty album, one more read of every
      input file (the second read in the comprehension only happens for
      readable files, which log nothing). */
  function GroupLog(disk: Disk, all: seq<File>, fs: seq<File>): seq<ErrorRecord> {
    if fs == [] then []
    else
      var f := fs[|fs| - 1];
      GroupLog(disk, all, fs[..|fs| - 1]) + ReadLog(disk, f) + (if HasAlbum(disk, f) then UnreadableLog(disk, all) else [])
  }

  /** The number of files of fs EasyID3 cannot open. */
  function CountUnreadable(disk: Disk, fs: seq<File>): nat {
    if fs == [] then 0 else CountUnreadable(disk, fs[..|fs| - 1]) + (if Readable(disk, fs[|fs| - 1]) then 0 else 1)
  }

  lemma {:induction false} UnreadableLogLength(disk: Disk, fs: seq<File>)
    ensures |UnreadableLog(disk, fs)| == CountUnreadable(disk, fs)
  {
    if fs != [] {
      UnreadableLogLength(disk, fs[..|fs| - 1]);
    }
  }

  lemma MulSucc(g: nat, u: nat, grouped: bool)
    ensures (g + (if grouped then 1 else 0)) * u == g * u + (if grouped then u else 0)
  {
  }

  /** Each unreadable input file is logged once by its own read and once
      more for every file that has a non-empty album. */
  lemma {:induction false} GroupLogLength(disk: Disk, all: seq<File>, fs: seq<File>)
    ensures |GroupLog(disk, all, fs)| == CountUnreadable(disk, fs) + CountGrouped(disk, fs) * CountUnreadable(disk, all)
  {
    if fs != [] {
      var p, f := fs[..|fs| - 1], fs[|fs| - 1];
      GroupLogLength(disk, all, p);
      UnreadableLogLength(disk, all);
      var g, u, grouped := CountGrouped(disk, p), CountUnreadable(disk, all), HasAlbum(disk, f);
      assert CountGrouped(disk, fs) == g + (if grouped then 1 else 0);
      MulSucc(g, u, grouped);
    }
  }

  /** Every record the grouping appends is a read failure of an unreadable
      input file, with empty title, artist and album. */
  lemma {:induction false} GroupLogRecords(disk: Disk, all: seq<File>, fs: seq<File>)
    requires forall f :: f in fs ==> f in all
    ensures forall r :: r in GroupLog(disk, all, fs) ==>
      r.file in all && !Readable(disk, r.file) && r == ErrorRecordFor(r.file, None, TagRead)
  {
    if fs != [] {
      assert forall f :: f in fs[..|fs| - 1] ==> f in fs;
      GroupLogRecords(disk, all, fs[..|fs| - 1]);
      UnreadableLogRecords(disk, all);
    }
  }

  lemma {:induction false} UnreadableLogRecords(disk: Disk, fs: seq<File>)
    ensures forall r :: r in UnreadableLog(disk, fs) ==>
      r.file in fs && !Readable(disk, r.file) && r == ErrorRecordFor(r.file, None, TagRead)
  {
    if fs != [] {
      assert forall f :: f in fs[..|fs| - 1] ==> f in fs;
      UnreadableLogRecords(disk, fs[..|fs| - 1]);
    }
  }
}
