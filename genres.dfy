/**
 * `GenreManager` (genre_manager.py): three ordered rule tables, the
 * first-match genre detection over them, and the merge of custom tables
 * read from a configuration file. Python dicts keep insertion order, so a
 * table is a sequence of entries; assigning to a present key keeps its
 * place and a new key goes to the end.
 */
module Genres {
  import opened Wrappers
  import opened Text
  import opened Models

  datatype Entry = Entry(key: string, value: string)

  /** An ordered dict from strings to strings. */
  type Table = seq<Entry>

  function Keys(t: Table): (ks: seq<string>)
    ensures |ks| == |t| && forall i :: 0 <= i < |t| ==> ks[i] == t[i].key
  {
    if t == [] then [] else [t[0].key] + Keys(t[1..])
  }

  ghost predicate DistinctKeys(t: Table) {
    forall i, j :: 0 <= i < j < |t| ==> t[i].key != t[j].key
  }

  /** The position of key k, or -1. */
  function IndexOf(t: Table, k: string): (i: int)
    ensures -1 <= i < |t|
    ensures i >= 0 ==> t[i].key == k && forall j :: 0 <= j < i ==> t[j].key != k
    ensures i == -1 ==> forall j :: 0 <= j < |t| ==> t[j].key != k
  {
    if t == [] then -1
    else if t[0].key == k then 0
    else var i := IndexOf(t[1..], k); if i == -1 then -1 else i + 1
  }

  /** `d.get(k)`. */
  function Get(t: Table, k: string): (r: Option<string>)
    ensures r.Some? <==> k in Keys(t)
    ensures r.Some? ==> r.value == t[IndexOf(t, k)].value
  {
    var i := IndexOf(t, k);
    if i == -1 then None else Some(t[i].value)
  }

  /** `d[e.key] = e.value`: replace in place, or append. */
  function Put(t: Table, e: Entry): (r: Table)
    ensures |r| == |t| || r == t + [e]
  {
    var i := IndexOf(t, e.key);
    if i == -1 then t + [e] else t[i := e]
  }

  /** `d.update(u)`: the entries of u assigned in order. */
  function UpdateWith(t: Table, u: Table): (r: Table)
    ensures |r| >= |t|
    decreases |u|
  {
    if u == [] then t else UpdateWith(Put(t, u[0]), u[1..])
  }

  /** The initial `genre_mapping` (genre_manager.py:15-49). */
  const InitialGenreMapping: Table := [
    Entry("drum and bass", "Drum & Bass"),
    Entry("dnb", "Drum & Bass"),
    Entry("liquid funk", "Drum & Bass"),
    Entry("neurofunk", "Drum & Bass"),
    Entry("jump up", "Drum & Bass"),
    Entry("jungle", "Drum & Bass"),
    Entry("dubstep", "Dubstep"),
    Entry("brostep", "Dubstep"),
    Entry("riddim", "Dubstep"),
    Entry("melodic dubstep", "Melodic Dubstep"),
    Entry("house", "House"),
    Entry("deep house", "Deep House"),
    Entry("tech house", "Tech House"),
    Entry("progressive house", "Progressive House"),
    Entry("electro house", "Electro House"),
    Entry("future house", "Future House"),
    Entry("bass house", "Bass House"),
    Entry("drumstep", "Drumstep"),
    Entry("breakbeat", "Breakbeat"),
    Entry("trap", "Trap"),
    Entry("future bass", "Future Bass"),
    Entry("hardstyle", "Hardstyle"),
    Entry("trance", "Trance"),
    Entry("psytrance", "Psytrance"),
    Entry("ambient", "Ambient"),
    Entry("synthwave", "Synthwave")]

  /** The initial `label_genre_rules` (genre_manager.py:52-60). */
  const InitialLabelRules: Table := [
    Entry("hospital records", "Drum & Bass"),
    Entry("ram records", "Drum & Bass"),
    Entry("monstercat", "EDM"),
    Entry("spinnin", "House"),
    Entry("revealed", "Electro House"),
    Entry("mau5trap", "Progressive House"),
    Entry("never say die", "Dubstep")]

  /** The initial `artist_genre_rules` (genre_manager.py:63-72). */
  const InitialArtistRules: Table := [
    Entry("noisia", "Drum & Bass"),
    Entry("pendulum", "Drum & Bass"),
    Entry("skrillex", "Dubstep"),
    Entry("deadmau5", "Progressive House"),
    Entry("martin garrix", "Electro House"),
    Entry("andy c", "Drum & Bass"),
    Entry("sub focus", "Drum & Bass"),
    Entry("dj zinc", "Drum & Bass")]

  const DefaultGenre := "Electronic"

  // ---------------------------------------------------------------------
  // Detection (genre_manager.py:87-112)
  // ---------------------------------------------------------------------

  /** The first rule, in table order, whose key occurs in s; -1 if none. */
  function FirstMatch(t: Table, s: string): (k: int)
    ensures -1 <= k < |t|
    ensures k >= 0 ==> IsSubstring(t[k].key, s) && forall j :: 0 <= j < k ==> !IsSubstring(t[j].key, s)
    ensures k == -1 ==> forall j :: 0 <= j < |t| ==> !IsSubstring(t[j].key, s)
  {
    if t == [] then -1
    else if IsSubstring(t[0].key, s) then 0
    else var k := FirstMatch(t[1..], s); if k == -1 then -1 else k + 1
  }

  /** One rule loop: the genre of the first matching rule, otherwise the
      value `detected_genre` already had. */
  function RuleGenre(t: Table, s: string, detected: Option<string>): Option<string> {
    var k := FirstMatch(t, s);
    if k == -1 then detected else Some(t[k].value)
  }

  /** `detect_genre`: the label rules on the lowercased label; if nothing
      truthy was found, the artist rules on the lowercased artist; if still
      nothing, the genre mapping looked up with the lowercased genre, the
      genre itself when unmapped; and 'Electronic' when all that left
      nothing truthy. */
  function GenreFor(labels: Table, artists: Table, genres: Table, md: TrackMetadata): (r: string)
    ensures r != ""
  {
    var d1 := if Truthy(md.recordLabel) then RuleGenre(labels, LowerStr(md.recordLabel.value), None) else None;
    var d2 := if !Truthy(d1) && md.artist != "" then RuleGenre(artists, LowerStr(md.artist), d1) else d1;
    var d3 := if !Truthy(d2) && Truthy(md.genre) then
        var mapped := Get(genres, LowerStr(md.genre.value));
        Some(if mapped.Some? then mapped.value else md.genre.value)
      else d2;
    if Truthy(d3) then d3.value else DefaultGenre
  }

  /** The label rule wins: a label whose first matching rule has a
      non-empty genre gets that genre, whatever the artist and genre. */
  lemma LabelRuleWins(labels: Table, artists: Table, genres: Table, md: TrackMetadata)
    requires Truthy(md.recordLabel)
    requires var k := FirstMatch(labels, LowerStr(md.recordLabel.value)); k >= 0 && labels[k].value != ""
    ensures GenreFor(labels, artists, genres, md) == labels[FirstMatch(labels, LowerStr(md.recordLabel.value))].value
  {
  }

  /** Without a label genre, an artist whose first matching rule has a
      non-empty genre gets that genre. */
  lemma ArtistRuleNext(labels: Table, artists: Table, genres: Table, md: TrackMetadata)
    requires !Truthy(md.recordLabel) || FirstMatch(labels, LowerStr(md.recordLabel.value)) == -1
    requires md.artist != ""
    requires var k := FirstMatch(artists, LowerStr(md.artist)); k >= 0 && artists[k].value != ""
    ensures GenreFor(labels, artists, genres, md) == artists[FirstMatch(artists, LowerStr(md.artist))].value
  {
  }

  /** With no rule matching, a track's existing genre is looked up
      exactly, after lowercasing; an unmapped genre comes back as it is. */
  lemma ExistingGenreLast(labels: Table, artists: Table, genres: Table, md: TrackMetadata)
    requires !Truthy(md.recordLabel) || FirstMatch(labels, LowerStr(md.recordLabel.value)) == -1
    requires md.artist == "" || FirstMatch(artists, LowerStr(md.artist)) == -1
    requires Truthy(md.genre)
    ensures var mapped := Get(genres, LowerStr(md.genre.value));
      && (mapped.None? ==> GenreFor(labels, artists, genres, md) == md.genre.value)
      && (mapped.Some? && mapped.value != "" ==> GenreFor(labels, artists, genres, md) == mapped.value)
  {
  }

  /** With no label rule, no artist rule and no genre, the result is 'Electronic'. */
  lemma DefaultWhenNothingApplies(labels: Table, artists: Table, genres: Table, md: TrackMetadata)
    requires !Truthy(md.recordLabel) || FirstMatch(labels, LowerStr(md.recordLabel.value)) == -1
    requires md.artist == "" || FirstMatch(artists, LowerStr(md.artist)) == -1
    requires !Truthy(md.genre)
    ensures GenreFor(labels, artists, genres, md) == DefaultGenre
  {
  }

  /** An empty label, artist or genre counts as absent. */
  lemma EmptyFieldsAbsent(labels: Table, artists: Table, genres: Table, md: TrackMetadata)
    ensures GenreFor(labels, artists, genres, md)
         == GenreFor(labels, artists, genres,
                     md.(recordLabel := if Truthy(md.recordLabel) then md.recordLabel else None,
                         genre := if Truthy(md.genre) then md.genre else None))
  {
  }

  /** "Hospital Records" with "Skrillex" is Drum & Bass: the label rule is
      decided before the artist rule for Skrillex is looked at. */
  lemma HospitalBeatsSkrillex()
    ensures var md := NewTrack("Title", "Skrillex", "Album").(recordLabel := Some("Hospital Records"));
      GenreFor(InitialLabelRules, InitialArtistRules, InitialGenreMapping, md) == "Drum & Bass"
  {
    var name := "Hospital Records";
    assert LowerStr(name) == "hospital records" by {
      LowerHospitalRecords(name);
    }
    assert IsSubstring(InitialLabelRules[0].key, "hospital records");
    assert FirstMatch(InitialLabelRules, "hospital records") == 0;
  }

  lemma LowerHospitalRecords(s: string)
    requires s == "Hospital Records"
    ensures LowerStr(s) == "hospital records"
  {
    var r := LowerStr(s);
    assert Lower('H') == 'h' && Lower('R') == 'r';
    assert forall i :: 0 <= i < |s| ==> r[i] == "hospital records"[i];
  }

  // ---------------------------------------------------------------------
  // Custom mappings (genre_manager.py:74-85)
  // ---------------------------------------------------------------------

  /** A section of the configuration file: an object whose entries
      `dict.update` can take, or a value it refuses. */
  datatype Section = Entries(entries: Table) | Malformed

  /** The parsed file: its 'genres', 'labels' and 'artists' members, each
      None when missing. A file that cannot be opened or parsed, or whose
      top level is not an object, is None as a whole. */
  datatype Config = Config(genres: Option<Section>, labels: Option<Section>, artists: Option<Section>)

  datatype Tables = Tables(genres: Table, labels: Table, artists: Table)

  const InitialTables := Tables(InitialGenreMapping, InitialLabelRules, InitialArtistRules)

  /** One `update` with a member defaulting to `{}`; None if it raises. */
  function ApplySection(t: Table, s: Option<Section>): Option<Table> {
    match s
    case None => Some(t)
    case Some(Entries(u)) => Some(UpdateWith(t, u))
    case Some(Malformed) => None
  }

  /** The three updates in order; the first one that raises stops the
      rest, leaving the earlier ones done, and the result is False. */
  function Loaded(ts: Tables, config: Option<Config>): (Tables, bool) {
    if config.None? then (ts, false)
    else
      var c := config.value;
      match ApplySection(ts.genres, c.genres)
      case None => (ts, false)
      case Some(g) =>
        var ts1 := ts.(genres := g);
        match ApplySection(ts1.labels, c.labels)
        case None => (ts1, false)
        case Some(l) =>
          var ts2 := ts1.(labels := l);
          match ApplySection(ts2.artists, c.artists)
          case None => (ts2, false)
          case Some(a) => (ts2.(artists := a), true)
  }

  /** A well-formed file: each table gets exactly its section's entries
      added or overridden, a missing section leaves its table alone, and
      the result is True. */
  lemma LoadedWellFormed(ts: Tables, c: Config)
    requires c.genres.Some? ==> c.genres.value.Entries?
    requires c.labels.Some? ==> c.labels.value.Entries?
    requires c.artists.Some? ==> c.artists.value.Entries?
    ensures var (ts', ok) := Loaded(ts, Some(c));
      && ok
      && ts'.genres == (if c.genres.Some? then UpdateWith(ts.genres, c.genres.value.entries) else ts.genres)
      && ts'.labels == (if c.labels.Some? then UpdateWith(ts.labels, c.labels.value.entries) else ts.labels)
      && ts'.artists == (if c.artists.Some? then UpdateWith(ts.artists, c.artists.value.entries) else ts.artists)
  {
  }

  /** A file that cannot be read or parsed changes nothing and gives False. */
  lemma UnreadableFileChangesNothing(ts: Tables)
    ensures Loaded(ts, None) == (ts, false)
  {
  }

  /** False exactly when some section is malformed or there is no file;
      a malformed 'genres' section changes nothing. */
  lemma LoadedFails(ts: Tables, config: Option<Config>)
    ensures !Loaded(ts, config).1 <==>
      config.None? || config.value.genres == Some(Malformed) || config.value.labels == Some(Malformed)
      || config.value.artists == Some(Malformed)
    ensures config.Some? && config.value.genres == Some(Malformed) ==> Loaded(ts, config).0 == ts
  {
  }

  // ---------------------------------------------------------------------
  // dict.update
  // ---------------------------------------------------------------------

  /** After an assignment the key maps to the new value and every other key keeps its value. */
  lemma PutGet(t: Table, e: Entry, k: string)
    ensures Get(Put(t, e), k) == if k == e.key then Some(e.value) else Get(t, k)
  {
    var i := IndexOf(t, e.key);
    var r := Put(t, e);
    var j := IndexOf(t, k);
    if k == e.key {
      IndexOfAt(r, k, if i == -1 then |t| else i);
    } else if j >= 0 {
      IndexOfAt(r, k, j);
    } else {
      assert forall m :: 0 <= m < |r| ==> r[m].key != k;
    }
  }

  /** The first position holding key k is what IndexOf finds. */
  lemma IndexOfAt(t: Table, k: string, i: nat)
    requires i < |t| && t[i].key == k && forall j :: 0 <= j < i ==> t[j].key != k
    ensures IndexOf(t, k) == i
  {
  }

  lemma PutDistinct(t: Table, e: Entry)
    requires DistinctKeys(t)
    ensures DistinctKeys(Put(t, e))
  {
  }

  /** Assignments keep the order: the old keys stay where they were. */
  lemma PutKeepsOrder(t: Table, e: Entry)
    ensures |Put(t, e)| >= |t| && Keys(Put(t, e))[..|t|] == Keys(t)
  {
    var i := IndexOf(t, e.key);
    if i != -1 {
      assert Keys(Put(t, e)) == Keys(t)[i := e.key];
    } else {
      assert Keys(Put(t, e)) == Keys(t) + [e.key];
    }
  }

  /** `update` with a dict: its keys map to its values, every other key
      keeps its value, and no key is duplicated. */
  lemma {:induction false} UpdateGet(t: Table, u: Table, k: string)
    requires DistinctKeys(t) && DistinctKeys(u)
    ensures DistinctKeys(UpdateWith(t, u))
    ensures Get(UpdateWith(t, u), k) == if k in Keys(u) then Get(u, k) else Get(t, k)
    decreases |u|
  {
    if u != [] {
      PutDistinct(t, u[0]);
      PutGet(t, u[0], k);
      assert DistinctKeys(u[1..]);
      UpdateGet(Put(t, u[0]), u[1..], k);
      assert Keys(u) == [u[0].key] + Keys(u[1..]);
      if k in Keys(u[1..]) {
        var j := IndexOf(u[1..], k);
        assert u[j + 1].key == k;
        assert IndexOf(u, k) == j + 1;
      }
    }
  }

  /** The keys of u that `seen` lacks, each once, in the order of their
      first occurrence in u. */
  function NewKeys(seen: seq<string>, u: Table): (r: seq<string>)
    ensures forall k :: k in r <==> k in Keys(u) && k !in seen
    ensures forall i, j :: 0 <= i < j < |r| ==> r[i] != r[j] && IndexOf(u, r[i]) < IndexOf(u, r[j])
    decreases |u|
  {
    if u == [] then []
    else
      var k := u[0].key;
      var rest := NewKeys(if k in seen then seen else seen + [k], u[1..]);
      assert Keys(u) == [k] + Keys(u[1..]);
      assert forall x :: x in rest ==> x != k && IndexOf(u, x) == IndexOf(u[1..], x) + 1;
      if k in seen then rest else [k] + rest
  }

  /** An assignment keeps the keys, or appends the new one. */
  lemma PutKeys(t: Table, e: Entry)
    ensures Keys(Put(t, e)) == if e.key in Keys(t) then Keys(t) else Keys(t) + [e.key]
  {
    var i := IndexOf(t, e.key);
    if i != -1 {
      assert Keys(Put(t, e)) == Keys(t)[i := e.key];
    } else {
      assert Keys(Put(t, e)) == Keys(t) + [e.key];
    }
  }

  /** `update` keeps the order: the old keys stay where they were and the
      new keys follow them in the order the section gives them. */
  lemma {:induction false} UpdateKeepsOrder(t: Table, u: Table)
    ensures Keys(UpdateWith(t, u)) == Keys(t) + NewKeys(Keys(t), u)
    ensures Keys(UpdateWith(t, u))[..|t|] == Keys(t)
    decreases |u|
  {
    if u != [] {
      var e, rest := u[0], u[1..];
      var p := Put(t, e);
      PutKeys(t, e);
      UpdateKeepsOrder(p, rest);
      NewKeysFront(Keys(t), u);
      assert UpdateWith(t, u) == UpdateWith(p, rest);
      if e.key !in Keys(t) {
        assert Keys(p) == Keys(t) + [e.key];
        AppendAssoc3(Keys(t), [e.key], NewKeys(Keys(t) + [e.key], rest));
      }
    }
  }

  lemma NewKeysFront(seen: seq<string>, u: Table)
    requires u != []
    ensures NewKeys(seen, u)
         == if u[0].key in seen then NewKeys(seen, u[1..]) else [u[0].key] + NewKeys(seen + [u[0].key], u[1..])
  {
  }

  // ---------------------------------------------------------------------
  // The class
  // ---------------------------------------------------------------------

  class GenreManager {
    var genreMapping: Table
    var labelGenreRules: Table
    var artistGenreRules: Table

    function State(): Tables
      reads this
    {
      Tables(genreMapping, labelGenreRules, artistGenreRules)
    }

    /** `__init__`: the three built-in tables. */
    constructor ()
      ensures State() == InitialTables
    {
      genreMapping := InitialGenreMapping;
      labelGenreRules := InitialLabelRules;
      artistGenreRules := InitialArtistRules;
    }

    /** `load_custom_mappings(file_path)`, given what reading and parsing
        the file produced. */
    method LoadCustomMappings(config: Option<Config>) returns (ok: bool)
      modifies this
      ensures (State(), ok) == Loaded(old(State()), config)
    {
      if config.None? {
        return false;
      }
      var customMappings := config.value;
      var g := ApplySection(genreMapping, customMappings.genres);
      if g.None? {
        return false;
      }
      genreMapping := g.value;
      var l := ApplySection(labelGenreRules, customMappings.labels);
      if l.None? {
        return false;
      }
      labelGenreRules := l.value;
      var a := ApplySection(artistGenreRules, customMappings.artists);
      if a.None? {
        return false;
      }
      artistGenreRules := a.value;
      return true;
    }

    /** `detect_genre(metadata)`. */
    method DetectGenre(metadata: TrackMetadata) returns (r: string)
      ensures r == GenreFor(labelGenreRules, artistGenreRules, genreMapping, metadata)
    {
      var detectedGenre: Option<string> := None;
      if Truthy(metadata.recordLabel) {
        var labelLower := LowerStr(metadata.recordLabel.value);
        detectedGenre := ScanRules(labelGenreRules, labelLower, detectedGenre);
      }
      if !Truthy(detectedGenre) && metadata.artist != "" {
        var artistLower := LowerStr(metadata.artist);
        detectedGenre := ScanRules(artistGenreRules, artistLower, detectedGenre);
      }
      if !Truthy(detectedGenre) && Truthy(metadata.genre) {
        var genreLower := LowerStr(metadata.genre.value);
        var mapped := Get(genreMapping, genreLower);
        detectedGenre := Some(if mapped.Some? then mapped.value else metadata.genre.value);
      }
      if Truthy(detectedGenre) {
        return detectedGenre.value;
      }
      return DefaultGenre;
    }
  }

  /** The `for key, genre in rules.items()` loop with its `break`. */
  method ScanRules(rules: Table, s: string, detected: Option<string>) returns (r: Option<string>)
    ensures r == RuleGenre(rules, s, detected)
  {
    r := detected;
    var i := 0;
    while i < |rules|
      invariant i <= |rules|
      invariant forall j :: 0 <= j < i ==> !IsSubstring(rules[j].key, s)
      invariant r == detected
    {
      if IsSubstring(rules[i].key, s) {
        r := Some(rules[i].value);
        assert FirstMatch(rules, s) == i;
        return;
      }
      i := i + 1;
    }
  }
}
