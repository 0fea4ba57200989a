/**
 * The processor's ledgers: the error records of `_log_error`
 * (AMTU.py:599-613), the not-found records of `_log_not_found`
 * (AMTU.py:758-771) and the update summary (AMTU.py:511-519); and how a
 * failed read is recorded.
 */
module Ledgers {
  import opened Wrappers
  import opened Models
  import opened Tags

  /** Which handler produced an error record; the exception text is not modelled. */
  datatype Failure =
    | TagRead                         // "Erreur de lecture des tags"
    | TagUpdate                       // "Erreur de mise à jour des tags"
    | FileUpdate                      // "Erreur lors de la mise à jour du fichier"
    | AlbumProcessing(album: string)  // "Erreur lors du traitement de l'album"

  datatype ErrorRecord = ErrorRecord(file: File, title: string, artist: string, album: string, error: Failure)

  datatype NotFoundRecord = NotFoundRecord(file: File, title: string, artist: string, album: string, reason: string)

  const NoResultReason := "Aucun résultat trouvé"
  const NoLabelReason := "Pas de label trouvé"

  /** `self.update_summary`; it is created once and never reset. */
  datatype Summary = Summary(
    totalFiles: nat,
    updatedFiles: nat,
    labelUpdates: nat,
    catalogUpdates: nat,
    sourceUsed: Option<string>,
    labelsFound: set<string>,
    catalogsFound: set<string>)

  const InitialSummary := Summary(0, 0, 0, 0, None, {}, {})

  /** The record `_log_error` builds: the fields of the metadata read back,
      or '' for each when there is none. */
  function ErrorRecordFor(f: File, m: Option<TrackMetadata>, failure: Failure): (r: ErrorRecord)
    ensures r.file == f && r.error == failure
    ensures m.None? ==> r.title == "" && r.artist == "" && r.album == ""
    ensures m.Some? ==> r.title == m.value.title && r.artist == m.value.artist && r.album == m.value.album
  {
    if m.Some? then ErrorRecord(f, m.value.title, m.value.artist, m.value.album, failure)
    else ErrorRecord(f, "", "", "", failure)
  }

  /** The record `_log_not_found` builds. */
  function NotFoundRecordFor(f: File, m: Option<TrackMetadata>, reason: string): (r: NotFoundRecord)
    ensures r.file == f && r.reason == reason
    ensures m.None? ==> r.title == "" && r.artist == "" && r.album == ""
    ensures m.Some? ==> r.title == m.value.title && r.artist == m.value.artist && r.album == m.value.album
  {
    if m.Some? then NotFoundRecord(f, m.value.title, m.value.artist, m.value.album, reason)
    else NotFoundRecord(f, "", "", "", reason)
  }

  // ---------------------------------------------------------------------
  // Reading with error logging
  // ---------------------------------------------------------------------

  /** The error records one call of `_read_metadata` appends: one record
      with empty fields for a file EasyID3 cannot open, none otherwise.
      This is the repaired behaviour: `_log_error` reads the file back
      without logging a second failure. */
  function ReadLog(disk: Disk, f: File): (r: seq<ErrorRecord>)
    ensures |r| <= 1
    ensures r == [] <==> Readable(disk, f)
    ensures r != [] ==> r[0] == ErrorRecordFor(f, None, TagRead)
  {
    if Readable(disk, f) then [] else [ErrorRecordFor(f, None, TagRead)]
  }

  /** The records `_log_error` appends in the repaired behaviour: one
      record whose fields are those of the tags read back silently. */
  function LogErrorRecords(disk: Disk, f: File, failure: Failure): (r: seq<ErrorRecord>)
    ensures |r| == 1 && r[0].file == f && r[0].error == failure
    ensures Readable(disk, f) ==>
              && r[0].title == ReadTags(disk, f).value.title
              && r[0].artist == ReadTags(disk, f).value.artist
              && r[0].album == ReadTags(disk, f).value.album
    ensures !Readable(disk, f) ==> r[0].title == "" && r[0].artist == "" && r[0].album == ""
  {
    [ErrorRecordFor(f, ReadTags(disk, f), failure)]
  }

  // ---------------------------------------------------------------------
  // The read/log recursion as written
  // ---------------------------------------------------------------------

  /** How a call of the mutually recursive `_read_metadata` and
      `_log_error` ends: with the records appended and the value returned,
      or with a RecursionError escaping it. */
  datatype Unwinding = Finished(records: seq<ErrorRecord>, result: Option<TrackMetadata>) | Overflow

  /** `_read_metadata` as written (AMTU.py:742-756) when `depth` more
      nested calls fit on the stack: a failed read calls `_log_error` from
      its handler, and an exception escaping that handler escapes the read. */
  function ReadAsWritten(disk: Disk, f: File, loggerDepth: nat, depth: nat): Unwinding
    decreases depth
  {
    if depth == 0 then Overflow
    else if Readable(disk, f) then Finished([], ReadTags(disk, f))
    else match LogErrorAsWritten(disk, f, TagRead, loggerDepth, depth - 1)
      case Overflow => Overflow
      case Finished(records, _) => Finished(records, None)
  }

  /** `_log_error` as written (AMTU.py:599-613) starts by calling
      `_read_metadata` on the same file; when that raises, its handler calls
      the logger, which itself needs more than `loggerDepth` free frames,
      and no record is appended. */
  function LogErrorAsWritten(disk: Disk, f: File, failure: Failure, loggerDepth: nat, depth: nat): Unwinding
    decreases depth
  {
    if depth == 0 then Overflow
    else match ReadAsWritten(disk, f, loggerDepth, depth - 1)
      case Overflow => if depth > loggerDepth then Finished([], None) else Overflow
      case Finished(records, m) => Finished(records + [ErrorRecordFor(f, m, failure)], None)
  }

  /** n copies of one record. */
  function Copies(r: ErrorRecord, n: nat): (rs: seq<ErrorRecord>)
    ensures |rs| == n && forall i :: 0 <= i < n ==> rs[i] == r
  {
    if n == 0 then [] else Copies(r, n - 1) + [r]
  }

  /** While the logger cannot run, a read of an unreadable file overflows. */
  lemma {:induction false} ShallowReadsOverflow(disk: Disk, f: File, loggerDepth: nat, depth: nat)
    requires !Readable(disk, f) && depth <= loggerDepth
    ensures ReadAsWritten(disk, f, loggerDepth, depth) == Overflow
    ensures LogErrorAsWritten(disk, f, TagRead, loggerDepth, depth) == Overflow
  {
    if depth > 0 {
      ShallowReadsOverflow(disk, f, loggerDepth, depth - 1);
    }
  }

  /** As written, one read of an unreadable file appends as many identical
      records as half the spare stack allows, not one: with loggerDepth + 2
      + 2n or loggerDepth + 3 + 2n free frames, exactly n. */
  lemma {:induction false} UnreadableDuplicates(disk: Disk, f: File, loggerDepth: nat, n: nat)
    requires !Readable(disk, f)
    ensures ReadAsWritten(disk, f, loggerDepth, loggerDepth + 2 + 2 * n)
         == Finished(Copies(ErrorRecordFor(f, None, TagRead), n), None)
    ensures ReadAsWritten(disk, f, loggerDepth, loggerDepth + 3 + 2 * n)
         == Finished(Copies(ErrorRecordFor(f, None, TagRead), n), None)
  {
    if n == 0 {
      ShallowReadsOverflow(disk, f, loggerDepth, loggerDepth);
      assert ReadAsWritten(disk, f, loggerDepth, loggerDepth + 1) == Overflow;
    } else {
      UnreadableDuplicates(disk, f, loggerDepth, n - 1);
    }
  }

  /** A concrete case: a file without an ID3 header, read with six free
      frames and a logger needing none, is recorded twice; with two free
      frames it is not recorded at all. */
  lemma HeaderlessFileRecordedTwice()
    ensures ReadAsWritten(map["a.mp3" := AudioFile(None, 0, true)], "a.mp3", 0, 6)
         == Finished([ErrorRecordFor("a.mp3", None, TagRead), ErrorRecordFor("a.mp3", None, TagRead)], None)
    ensures ReadAsWritten(map["a.mp3" := AudioFile(None, 0, true)], "a.mp3", 0, 2) == Finished([], None)
  {
    UnreadableDuplicates(map["a.mp3" := AudioFile(None, 0, true)], "a.mp3", 0, 2);
    UnreadableDuplicates(map["a.mp3" := AudioFile(None, 0, true)], "a.mp3", 0, 0);
  }

  /** The repaired read agrees with the code as written wherever no
      recursion happens: on readable files it logs nothing and returns the tags. */
  lemma ReadLogAgreesWhenReadable(disk: Disk, f: File, loggerDepth: nat, depth: nat)
    requires Readable(disk, f) && depth > 0
    ensures ReadAsWritten(disk, f, loggerDepth, depth) == Finished(ReadLog(disk, f), ReadTags(disk, f))
  {
  }
}
