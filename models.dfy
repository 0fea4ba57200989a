/**
 * The TrackMetadata record (models.py; AMTU.py:42-55 declares the same
 * dataclass field for field).
 */
module Models {
  import opened Wrappers

  /** One track's metadata, locally read or proposed by a catalogue. */
  datatype TrackMetadata = TrackMetadata(
    title: string,
    artist: string,
    album: string,
    recordLabel: Option<string>,
    catalogNumber: Option<string>,
    artistSort: Option<string>,
    isSingle: bool,
    confidence: real,
    source: string,
    year: Option<int>,
    genre: Option<string>)

  /** `TrackMetadata(title, artist, album)`: the three required fields, every other field at its default. */
  function NewTrack(title: string, artist: string, album: string): (t: TrackMetadata)
    ensures t.title == title && t.artist == artist && t.album == album
    ensures t.recordLabel == None && t.catalogNumber == None && t.artistSort == None
    ensures t.year == None && t.genre == None
    ensures !t.isSingle && t.confidence == 0.0 && t.source == ""
  {
    TrackMetadata(title, artist, album, None, None, None, false, 0.0, "", None, None)
  }

  /** Python truthiness of an optional string: present and not empty. */
  predicate Truthy(s: Option<string>) {
    s.Some? && s.value != ""
  }

  /** The text of an optional string, empty when absent. */
  function TextOf(s: Option<string>): string {
    if s.Some? then s.value else ""
  }
}
