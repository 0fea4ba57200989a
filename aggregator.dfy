/**
 * The result aggregator of APIManager: `_execute_search` (AMTU.py:217-259),
 * which asks the enabled catalogues in a fixed order and keeps one
 * labelled best candidate, and `search_track` (AMTU.py:201-215), its retry
 * loop. What each catalogue answers is an input: the network adapters are
 * not part of this model.
 */
module Aggregator {
  import opened Wrappers
  import opened Models

  /** The three catalogues, in the order `_execute_search` asks them. */
  datatype Service = MusicBrainz | Spotify | Discogs

  const Providers: seq<Service> := [MusicBrainz, Spotify, Discogs]

  /** The key of a catalogue in the `services` section of the configuration. */
  function ConfigKey(s: Service): string {
    match s
    case MusicBrainz => "musicbrainz"
    case Spotify => "spotify"
    case Discogs => "discogs"
  }

  /** `enabled_services.get(service_name, False)`: a missing key disables. */
  predicate Enabled(services: map<string, bool>, s: Service) {
    ConfigKey(s) in services && services[ConfigKey(s)]
  }

  /** What one catalogue search does: it raises, or returns a candidate list. */
  datatype Reply = Failed | Found(candidates: seq<TrackMetadata>)

  /** The replies the three catalogues give to one `_execute_search` call. */
  datatype Replies = Replies(musicBrainz: Reply, spotify: Reply, discogs: Reply) {
    function Of(s: Service): Reply {
      match s
      case MusicBrainz => musicBrainz
      case Spotify => spotify
      case Discogs => discogs
    }
  }

  // ---------------------------------------------------------------------
  // max(results, key=lambda x: x.confidence)
  // ---------------------------------------------------------------------

  /** The index `max` picks: the first candidate of maximal confidence. */
  function PickIndex(c: seq<TrackMetadata>): (k: nat)
    requires |c| > 0
    ensures k < |c|
    ensures forall i :: 0 <= i < |c| ==> c[i].confidence <= c[k].confidence
    ensures forall i :: 0 <= i < k ==> c[i].confidence < c[k].confidence
  {
    if |c| == 1 then 0
    else
      var k := PickIndex(c[..|c| - 1]);
      assert forall i :: 0 <= i < |c| - 1 ==> c[..|c| - 1][i] == c[i];
      if c[|c| - 1].confidence > c[k].confidence then |c| - 1 else k
  }

  /** The candidate `max` returns. */
  function Pick(c: seq<TrackMetadata>): TrackMetadata
    requires |c| > 0
  {
    c[PickIndex(c)]
  }

  // ---------------------------------------------------------------------
  // _execute_search
  // ---------------------------------------------------------------------

  /** What catalogue `s` offers to the comparison of AMTU.py:240-246: its
      `max` pick, when it is enabled, did not raise, returned a non-empty
      list, and the pick has a non-empty label; otherwise nothing. */
  function Offer(services: map<string, bool>, replies: Replies, s: Service): Option<TrackMetadata> {
    if !Enabled(services, s) then None
    else match replies.Of(s)
      case Failed => None
      case Found(c) =>
        if c == [] then None
        else if Truthy(Pick(c).recordLabel) then Some(Pick(c))
        else None
  }

  /** One turn of the provider loop: an offer replaces the best so far when
      there is none yet or the offer's confidence is strictly greater. */
  function Keep(best: Option<TrackMetadata>, offer: Option<TrackMetadata>): Option<TrackMetadata> {
    match offer
    case None => best
    case Some(m) => if best.None? || m.confidence > best.value.confidence then offer else best
  }

  /** The best result after the first n catalogues of `Providers`. */
  function BestAfter(services: map<string, bool>, replies: Replies, n: nat): Option<TrackMetadata>
    requires n <= |Providers|
  {
    if n == 0 then None
    else Keep(BestAfter(services, replies, n - 1), Offer(services, replies, Providers[n - 1]))
  }

  /** The list `_execute_search` returns: `[best_result]`, or `[]`. */
  function SearchResult(services: map<string, bool>, replies: Replies): seq<TrackMetadata> {
    match BestAfter(services, replies, |Providers|)
    case None => []
    case Some(m) => [m]
  }

  /** The best after n catalogues is the offer of some catalogue w < n such
      that every earlier offer has strictly smaller confidence and every
      later one at most the same; there is none exactly when no catalogue
      among the first n makes an offer. */
  lemma {:induction false} BestAfterWinner(services: map<string, bool>, replies: Replies, n: nat)
    requires n <= |Providers|
    ensures BestAfter(services, replies, n).None? <==>
      forall k :: 0 <= k < n ==> Offer(services, replies, Providers[k]).None?
    ensures BestAfter(services, replies, n).Some? ==>
      exists w :: 0 <= w < n && IsWinner(services, replies, n, w, BestAfter(services, replies, n).value)
  {
    if n > 0 {
      BestAfterWinner(services, replies, n - 1);
      var prev := BestAfter(services, replies, n - 1);
      var offer := Offer(services, replies, Providers[n - 1]);
      if offer.Some? && (prev.None? || offer.value.confidence > prev.value.confidence) {
        assert IsWinner(services, replies, n, n - 1, offer.value);
      } else if prev.Some? {
        var w :| 0 <= w < n - 1 && IsWinner(services, replies, n - 1, w, prev.value);
        assert IsWinner(services, replies, n, w, prev.value);
      }
    }
  }

  /** Catalogue w wins among the first n with candidate m. */
  ghost predicate IsWinner(services: map<string, bool>, replies: Replies, n: nat, w: nat, m: TrackMetadata)
    requires w < n <= |Providers|
  {
    && Offer(services, replies, Providers[w]) == Some(m)
    && (forall k :: 0 <= k < w && Offer(services, replies, Providers[k]).Some? ==>
          Offer(services, replies, Providers[k]).value.confidence < m.confidence)
    && (forall k :: w < k < n && Offer(services, replies, Providers[k]).Some? ==>
          Offer(services, replies, Providers[k]).value.confidence <= m.confidence)
  }

  /** The result of `_execute_search` is empty or one candidate which has a
      non-empty label, comes from an enabled catalogue that did not fail,
      and is that catalogue's first candidate of maximal confidence; it is
      empty exactly when no catalogue offers a labelled pick. */
  lemma SearchResultShape(services: map<string, bool>, replies: Replies)
    ensures var r := SearchResult(services, replies);
      && |r| <= 1
      && (r == [] <==> forall s :: Offer(services, replies, s).None?)
      && (r != [] ==> exists s ::
            && Enabled(services, s) && replies.Of(s).Found? && replies.Of(s).candidates != []
            && r[0] == Pick(replies.Of(s).candidates) && Truthy(r[0].recordLabel))
  {
    BestAfterWinner(services, replies, |Providers|);
    var r := SearchResult(services, replies);
    if r == [] {
      forall s ensures Offer(services, replies, s).None? {
        assert s == Providers[0] || s == Providers[1] || s == Providers[2];
      }
    } else {
      var w :| 0 <= w < |Providers| && IsWinner(services, replies, |Providers|, w, r[0]);
      assert Offer(services, replies, Providers[w]) == Some(r[0]);
    }
  }

  /** A catalogue that raises is skipped: the result is the same as if it were disabled. */
  lemma FailedIsSkipped(services: map<string, bool>, replies: Replies, s: Service)
    requires replies.Of(s).Failed?
    ensures SearchResult(services, replies) == SearchResult(services[ConfigKey(s) := false], replies)
  {
    var off := services[ConfigKey(s) := false];
    forall t ensures Offer(services, replies, t) == Offer(off, replies, t) {
      if t != s {
        assert ConfigKey(t) != ConfigKey(s);
      }
    }
    assert BestAfter(services, replies, 1) == BestAfter(off, replies, 1);
    assert BestAfter(services, replies, 2) == BestAfter(off, replies, 2);
    assert BestAfter(services, replies, 3) == BestAfter(off, replies, 3);
  }

  /** `_execute_search`: the provider loop in its fixed order. */
  method ExecuteSearch(services: map<string, bool>, replies: Replies) returns (results: seq<TrackMetadata>)
    ensures results == SearchResult(services, replies)
  {
    var best: Option<TrackMetadata> := None;
    for i := 0 to |Providers|
      invariant best == BestAfter(services, replies, i)
    {
      var service := Providers[i];
      if !Enabled(services, service) {
        continue;
      }
      match replies.Of(service) {
        case Failed =>
          continue;
        case Found(candidates) =>
          if candidates == [] {
            continue;
          }
          var currentBest := Pick(candidates);
          if Truthy(currentBest.recordLabel) {
            if best.None? || currentBest.confidence > best.value.confidence {
              best := Some(currentBest);
            }
          }
      }
    }
    if best.Some? {
      return [best.value];
    }
    return [];
  }

  // ---------------------------------------------------------------------
  // search_track
  // ---------------------------------------------------------------------

  /** One call of `_execute_search`: it raises outside the per-catalogue
      handlers, or runs with these replies. */
  datatype Attempt = Escaped | Ran(replies: Replies)

  /** A successful attempt: it ran and found a non-empty result. */
  predicate Succeeds(services: map<string, bool>, a: Attempt) {
    a.Ran? && SearchResult(services, a.replies) != []
  }

  /** What `search_track` does from attempt k on: a non-empty result is
      returned; an empty result or an exception tries again, except that an
      exception at the last attempt propagates; after `retries` attempts
      the result is []. */
  function SearchFrom(services: map<string, bool>, retries: int, attempts: nat -> Attempt, k: nat): Raising<seq<TrackMetadata>>
    decreases retries - k
  {
    if k >= retries then Returned([])
    else match attempts(k)
      case Escaped => if k == retries - 1 then Raised else SearchFrom(services, retries, attempts, k + 1)
      case Ran(replies) =>
        var results := SearchResult(services, replies);
        if results != [] then Returned(results) else SearchFrom(services, retries, attempts, k + 1)
  }

  function SearchTrackSpec(services: map<string, bool>, retries: int, attempts: nat -> Attempt): Raising<seq<TrackMetadata>> {
    SearchFrom(services, retries, attempts, 0)
  }

  /** From attempt k: the result is the first success at or after k, if
      one comes before `retries`; otherwise it raises exactly when the last
      attempt raised, and returns [] else. */
  lemma {:induction false} SearchFromOutcome(services: map<string, bool>, retries: int, attempts: nat -> Attempt, k: nat)
    ensures var r := SearchFrom(services, retries, attempts, k);
      && (r.Returned? && r.value != [] <==>
            exists j :: k <= j < retries && Succeeds(services, attempts(j)) && NoSuccessBetween(services, attempts, k, j))
      && (r.Returned? && r.value != [] ==>
            exists j :: k <= j < retries && Succeeds(services, attempts(j)) && NoSuccessBetween(services, attempts, k, j)
              && r.value == SearchResult(services, attempts(j).replies))
      && (r == Raised <==>
            k < retries && attempts(retries - 1).Escaped? && NoSuccessBetween(services, attempts, k, retries - 1))
    decreases retries - k
  {
    if k < retries {
      SearchFromOutcome(services, retries, attempts, k + 1);
      if Succeeds(services, attempts(k)) {
        assert NoSuccessBetween(services, attempts, k, k);
      } else {
        forall j | k < j ensures NoSuccessBetween(services, attempts, k, j) <==> NoSuccessBetween(services, attempts, k + 1, j) {
        }
      }
    }
  }

  /** No attempt in [from, to) succeeds. */
  predicate NoSuccessBetween(services: map<string, bool>, attempts: nat -> Attempt, from: nat, to: int) {
    forall i :: from <= i < to ==> !Succeeds(services, attempts(i))
  }

  /** `search_track` returns a non-empty result exactly when one of its
      first `retries` attempts succeeds, and then the first such result;
      with no success it raises exactly when the last attempt raised, and
      returns [] otherwise. */
  lemma SearchTrackOutcome(services: map<string, bool>, retries: int, attempts: nat -> Attempt)
    ensures var r := SearchTrackSpec(services, retries, attempts);
      && (r.Returned? && r.value != [] ==>
            exists j :: 0 <= j < retries && Succeeds(services, attempts(j)) && NoSuccessBetween(services, attempts, 0, j)
              && r.value == SearchResult(services, attempts(j).replies))
      && (r.Returned? && r.value != [] <==>
            exists j :: 0 <= j < retries && Succeeds(services, attempts(j)) && NoSuccessBetween(services, attempts, 0, j))
      && (NoSuccessBetween(services, attempts, 0, retries) ==>
            r == if retries >= 1 && attempts(retries - 1).Escaped? then Raised else Returned([]))
  {
    SearchFromOutcome(services, retries, attempts, 0);
  }

  /** Only the first `retries` attempts are ever made. */
  lemma {:induction false} SearchFromUsesFirstAttempts(services: map<string, bool>, retries: int,
                                                       attempts: nat -> Attempt, attempts': nat -> Attempt, k: nat)
    requires forall i :: k <= i < retries ==> attempts(i) == attempts'(i)
    ensures SearchFrom(services, retries, attempts, k) == SearchFrom(services, retries, attempts', k)
    decreases retries - k
  {
    if k < retries {
      SearchFromUsesFirstAttempts(services, retries, attempts, attempts', k + 1);
    }
  }

  /** With no attempt allowed, the search returns [] at once. */
  lemma NoRetries(services: map<string, bool>, retries: int, attempts: nat -> Attempt)
    requires retries <= 0
    ensures SearchTrackSpec(services, retries, attempts) == Returned([])
  {
  }

  /** `search_track`: the retry loop; `attempts(k)` is what attempt k of
      `_execute_search` does. The one-second pause between attempts is
      not modelled. */
  method SearchTrack(services: map<string, bool>, retries: int, attempts: nat -> Attempt)
    returns (r: Raising<seq<TrackMetadata>>)
    ensures r == SearchTrackSpec(services, retries, attempts)
  {
    var attempt: nat := 0;
    while attempt < retries
      invariant SearchFrom(services, retries, attempts, attempt) == SearchTrackSpec(services, retries, attempts)
      decreases retries - attempt
    {
      match attempts(attempt) {
        case Escaped =>
          if attempt == retries - 1 {
            return Raised;
          }
        case Ran(replies) =>
          var results := ExecuteSearch(services, replies);
          if results != [] {
            return Returned(results);
          }
      }
      attempt := attempt + 1;
    }
    return Returned([]);
  }
}
