/**
 * MP3 files as the processor sees them: a disk maps each path to its ID3
 * tag (absent when the file has no ID3 header), its modification time
 * and whether it can be written.
 */
module Tags {
  import opened Wrappers
  import opened Models

  type File = string

  /** An ID3 tag: the text of the first value of each frame the
      processor touches, None when the frame is absent, and the other
      frames by id, which nothing here changes. */
  datatype Tag = Tag(
    title: Option<string>,         // TIT2
    artist: Option<string>,        // TPE1
    album: Option<string>,         // TALB
    composer: Option<string>,      // TCOM, where the label is kept
    contentGroup: Option<string>,  // TIT1, what EasyID3 calls 'grouping'
    grouping: Option<string>,      // GRP1, where the catalogue number is written
    albumArtist: Option<string>,   // TPE2
    genre: Option<string>,         // TCON
    taggingTime: Option<string>,   // TDTG
    others: map<string, string>)

  /** The tag `ID3()` creates: no frames at all. */
  const EmptyTag := Tag(None, None, None, None, None, None, None, None, None, map[])

  /** A file: its ID3 tag (None without an ID3 header), its modification
      time, and whether saving to it succeeds. */
  datatype AudioFile = AudioFile(tag: Option<Tag>, mtime: int, writable: bool)

  /** The files on disk; a path missing from the map does not exist. */
  type Disk = map<File, AudioFile>

  /** EasyID3 can open the file: it exists and has an ID3 tag. */
  predicate Readable(disk: Disk, f: File) {
    f in disk && disk[f].tag.Some?
  }

  /** What `_read_metadata` returns for a file (AMTU.py:742-756): the
      EasyID3 view of its tag, or None when EasyID3 raises. EasyID3 reads
      title, artist, album, composer and grouping from TIT2, TPE1, TALB,
      TCOM and TIT1; the composer is the label and the grouping the
      catalogue number; a missing key reads as ''. */
  function ReadTags(disk: Disk, f: File): (r: Option<TrackMetadata>)
    ensures r.Some? <==> Readable(disk, f)
    ensures r.Some? ==> var tag := disk[f].tag.value;
      && r.value.title == TextOf(tag.title)
      && r.value.artist == TextOf(tag.artist)
      && r.value.album == TextOf(tag.album)
      && r.value.recordLabel == Some(TextOf(tag.composer))
      && r.value.catalogNumber == Some(TextOf(tag.contentGroup))
      && r.value.artistSort == None && r.value.year == None && r.value.genre == None
      && !r.value.isSingle && r.value.confidence == 0.0 && r.value.source == ""
  {
    if !Readable(disk, f) then None
    else
      var tag := disk[f].tag.value;
      var t := NewTrack(TextOf(tag.title), TextOf(tag.artist), TextOf(tag.album));
      Some(t.(recordLabel := Some(TextOf(tag.composer)), catalogNumber := Some(TextOf(tag.contentGroup))))
  }

  /** The album a readable file's tag names. */
  function AlbumOf(disk: Disk, f: File): string
    requires Readable(disk, f)
  {
    TextOf(disk[f].tag.value.album)
  }

  /** A file `group_files_by_album` groups: readable, with a non-empty album. */
  predicate HasAlbum(disk: Disk, f: File) {
    Readable(disk, f) && AlbumOf(disk, f) != ""
  }

  /** Reading a file depends only on that file's entry. */
  lemma ReadTagsLocal(disk: Disk, disk': Disk, f: File)
    requires f in disk <==> f in disk'
    requires f in disk ==> disk[f].tag == disk'[f].tag
    ensures ReadTags(disk, f) == ReadTags(disk', f)
  {
  }
}
