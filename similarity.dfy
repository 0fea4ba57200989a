/**
 * The similarity scorer of APIManager: `clean_text`, `_levenshtein_ratio`
 * and `_calculate_confidence` (AMTU.py:427-502). Scores are `real`.
 */
module Similarity {
  import opened Wrappers
  import opened Text

  // ---------------------------------------------------------------------
  // clean_text (AMTU.py:433-447)
  // ---------------------------------------------------------------------

  /** One turn of the parenthesis loop of `clean_text`: when a '(' comes
      before the first ')', the text from the first '(' through the first
      ')' is cut out; otherwise (no '(', no ')', or a ')' first) the loop
      ends. */
  function Cut(t: string): (r: Option<string>)
    ensures r.Some? ==> |r.value| < |t|
    ensures r.Some? <==> Find(t, '(') >= 0 && Find(t, ')') >= 0 && Find(t, '(') < Find(t, ')')
  {
    var open := Find(t, '(');
    var close := Find(t, ')');
    if open >= 0 && close >= 0 && open < close then Some(t[..open] + t[close + 1..])
    else None
  }

  /** What the parenthesis loop of `clean_text` leaves: groups are cut out
      until no '(' precedes the first ')'. */
  function StripParens(t: string): (r: string)
    ensures |r| <= |t| && Cut(r).None?
    decreases |t|
  {
    match Cut(t)
    case Some(u) => StripParens(u)
    case None => t
  }

  /** The result of `clean_text(t)`. */
  function Cleaned(t: string): (r: string)
    ensures forall i :: 0 <= i < |r| ==> IsCleanChar(r[i])
    ensures r != [] ==> !IsSpace(r[0]) && !IsSpace(r[|r| - 1])
  {
    var lowered := LowerStr(StripParens(t));
    assert forall i :: 0 <= i < |lowered| ==> !IsUpper(lowered[i]);
    Strip(KeepAlnumSpace(Strip(lowered)))
  }

  /** `clean_text`, with its loop: the parenthesis groups are removed one
      at a time, then the text is lower-cased, stripped, reduced to
      letters, digits and white space, and stripped again. */
  method CleanText(text: string) returns (r: string)
    ensures r == Cleaned(text)
  {
    var t := text;
    while '(' in t && ')' in t
      invariant StripParens(t) == StripParens(text)
      decreases |t|
    {
      var start := Find(t, '(');
      var end := Find(t, ')');
      if start < end {
        t := t[..start] + t[end + 1..];
      } else {
        break;
      }
    }
    assert t == StripParens(text);
    var lowered := Strip(LowerStr(t));
    var kept := KeepAlnumSpace(lowered);
    r := Strip(kept);
  }

  // ---------------------------------------------------------------------
  // Edit distance (AMTU.py:479-496)
  // ---------------------------------------------------------------------

  function Min3(x: nat, y: nat, z: nat): nat {
    if x <= y && x <= z then x else if y <= z then y else z
  }

  function MaxNat(x: nat, y: nat): nat { if x >= y then x else y }

  /** The textbook edit distance (insertions, deletions, substitutions of
      one character, each of cost 1) of the prefixes a[..i] and b[..j]. */
  function Dist(a: string, b: string, i: nat, j: nat): nat
    requires i <= |a| && j <= |b|
    decreases i + j
  {
    if i == 0 then j
    else if j == 0 then i
    else Min3(Dist(a, b, i - 1, j) + 1,
              Dist(a, b, i, j - 1) + 1,
              Dist(a, b, i - 1, j - 1) + (if a[i - 1] == b[j - 1] then 0 else 1))
  }

  /** The edit distance of two whole strings. */
  function EditDistance(a: string, b: string): nat {
    Dist(a, b, |a|, |b|)
  }

  /** Dist(a, b, i, j) depends only on the prefixes a[..i] and b[..j]:
      it is the edit distance of those prefixes. */
  lemma {:induction false} DistOfPrefixes(a: string, b: string, a': string, b': string, i: nat, j: nat)
    requires i <= |a| && i <= |a'| && j <= |b| && j <= |b'|
    requires a[..i] == a'[..i] && b[..j] == b'[..j]
    ensures Dist(a, b, i, j) == Dist(a', b', i, j)
    decreases i + j
  {
    if i > 0 && j > 0 {
      assert a[i - 1] == a[..i][i - 1] == a'[..i][i - 1] == a'[i - 1];
      assert b[j - 1] == b[..j][j - 1] == b'[..j][j - 1] == b'[j - 1];
      assert a[..i - 1] == a[..i][..i - 1];
      assert a'[..i - 1] == a'[..i][..i - 1];
      assert b[..j - 1] == b[..j][..j - 1];
      assert b'[..j - 1] == b'[..j][..j - 1];
      DistOfPrefixes(a, b, a', b', i - 1, j);
      DistOfPrefixes(a, b, a', b', i, j - 1);
      DistOfPrefixes(a, b, a', b', i - 1, j - 1);
    }
  }

  lemma PrefixDistance(a: string, b: string, i: nat, j: nat)
    requires i <= |a| && j <= |b|
    ensures Dist(a, b, i, j) == EditDistance(a[..i], b[..j])
  {
    DistOfPrefixes(a, b, a[..i], b[..j], i, j);
  }

  /** Dropping the last character of b lowers the distance by at most one. */
  lemma {:induction false} ShorterB(a: string, b: string, i: nat, j: nat)
    requires i <= |a| && 1 <= j <= |b|
    ensures Dist(a, b, i, j - 1) <= Dist(a, b, i, j) + 1
    decreases i
  {
    if i > 0 {
      ShorterB(a, b, i - 1, j);
      assert Dist(a, b, i, j - 1) <= Dist(a, b, i - 1, j - 1) + 1;
    }
  }

  /** Dropping the last character of a lowers the distance by at most one. */
  lemma {:induction false} ShorterA(a: string, b: string, i: nat, j: nat)
    requires 1 <= i <= |a| && j <= |b|
    ensures Dist(a, b, i - 1, j) <= Dist(a, b, i, j) + 1
    decreases j
  {
    if j > 0 {
      ShorterA(a, b, i, j - 1);
      assert Dist(a, b, i - 1, j) <= Dist(a, b, i - 1, j - 1) + 1;
    }
  }

  /** The recurrence `_levenshtein_ratio` uses for equal characters
      (AMTU.py:491-492) agrees with the textbook edit distance. */
  lemma MatchingCharacters(a: string, b: string, i: nat, j: nat)
    requires 1 <= i <= |a| && 1 <= j <= |b| && a[i - 1] == b[j - 1]
    ensures Dist(a, b, i, j) == Dist(a, b, i - 1, j - 1)
  {
    ShorterB(a, b, i - 1, j);
    ShorterA(a, b, i, j - 1);
  }

  /** The recurrence `_levenshtein_ratio` uses for different characters
      (AMTU.py:493-496). */
  lemma Mismatch(a: string, b: string, i: nat, j: nat)
    requires 1 <= i <= |a| && 1 <= j <= |b| && a[i - 1] != b[j - 1]
    ensures Dist(a, b, i, j) == Min3(Dist(a, b, i - 1, j), Dist(a, b, i, j - 1), Dist(a, b, i - 1, j - 1)) + 1
  {
  }

  /** The distance never exceeds the longer prefix. */
  lemma {:induction false} DistAtMostLonger(a: string, b: string, i: nat, j: nat)
    requires i <= |a| && j <= |b|
    ensures Dist(a, b, i, j) <= MaxNat(i, j)
    decreases i + j
  {
    if i > 0 && j > 0 {
      DistAtMostLonger(a, b, i - 1, j - 1);
    }
  }

  /** The distance is at least the difference of the lengths. */
  lemma {:induction false} DistAtLeastGap(a: string, b: string, i: nat, j: nat)
    requires i <= |a| && j <= |b|
    ensures Dist(a, b, i, j) >= if i >= j then i - j else j - i
    decreases i + j
  {
    if i > 0 && j > 0 {
      DistAtLeastGap(a, b, i - 1, j);
      DistAtLeastGap(a, b, i, j - 1);
      DistAtLeastGap(a, b, i - 1, j - 1);
    }
  }

  /** A string is at distance 0 from itself. */
  lemma {:induction false} DistSelf(a: string, i: nat)
    requires i <= |a|
    ensures Dist(a, a, i, i) == 0
  {
    if i > 0 {
      DistSelf(a, i - 1);
    }
  }

  /** Distance 0 only between equal prefixes. */
  lemma {:induction false} DistZero(a: string, b: string, i: nat, j: nat)
    requires i <= |a| && j <= |b| && Dist(a, b, i, j) == 0
    ensures i == j && a[..i] == b[..j]
    decreases i + j
  {
    if i > 0 {
      assert j > 0;
      DistZero(a, b, i - 1, j - 1);
      assert a[..i] == a[..i - 1] + [a[i - 1]];
      assert b[..j] == b[..j - 1] + [b[j - 1]];
    }
  }

  // ---------------------------------------------------------------------
  // _levenshtein_ratio (AMTU.py:474-502)
  // ---------------------------------------------------------------------

  /** The similarity ratio: 0 when either string is empty (so also for two
      empty strings), otherwise 1 - distance / longer length. */
  function Ratio(s1: string, s2: string): real {
    if s1 == [] || s2 == [] then 0.0
    else 1.0 - (EditDistance(s1, s2) as real) / (MaxNat(|s1|, |s2|) as real)
  }

  lemma QuotientAtMostOne(d: nat, m: nat)
    requires d <= m && m > 0
    ensures 0.0 <= (d as real) / (m as real) <= 1.0
  {
  }

  lemma QuotientZero(d: nat, m: nat)
    requires m > 0
    ensures (d as real) / (m as real) == 0.0 <==> d == 0
  {
  }

  /** The ratio lies in [0, 1]. */
  lemma RatioBounds(s1: string, s2: string)
    ensures 0.0 <= Ratio(s1, s2) <= 1.0
  {
    if s1 != [] && s2 != [] {
      DistAtMostLonger(s1, s2, |s1|, |s2|);
      QuotientAtMostOne(EditDistance(s1, s2), MaxNat(|s1|, |s2|));
    }
  }

  /** For non-empty strings the ratio is 1 exactly when they are equal. */
  lemma RatioOneIff(s1: string, s2: string)
    requires s1 != [] && s2 != []
    ensures Ratio(s1, s2) == 1.0 <==> s1 == s2
  {
    QuotientZero(EditDistance(s1, s2), MaxNat(|s1|, |s2|));
    if s1 == s2 {
      DistSelf(s1, |s1|);
    }
    if EditDistance(s1, s2) == 0 {
      DistZero(s1, s2, |s1|, |s2|);
      assert s1 == s1[..|s1|] && s2 == s2[..|s2|];
    }
  }

  /** All cells of the rows before `i` hold their edit distance. */
  ghost predicate RowsFilled(distances: array2<nat>, s1: string, s2: string, i: nat)
    reads distances
    requires distances.Length0 == |s1| + 1 && distances.Length1 == |s2| + 1 && i <= |s1| + 1
  {
    forall p, q {:trigger distances[p, q]} :: 0 <= p < i && 0 <= q <= |s2| ==> distances[p, q] == Dist(s1, s2, p, q)
  }

  /** The inner loop of AMTU.py:488-496: fills row `i` from the row above;
      the first column below row `i` keeps its initial values. */
  method FillRow(distances: array2<nat>, s1: string, s2: string, i: nat)
    requires distances.Length0 == |s1| + 1 && distances.Length1 == |s2| + 1 && 1 <= i <= |s1|
    requires RowsFilled(distances, s1, s2, i)
    requires forall p :: i <= p <= |s1| ==> distances[p, 0] == p
    modifies distances
    ensures RowsFilled(distances, s1, s2, i + 1)
    ensures forall p :: i < p <= |s1| ==> distances[p, 0] == p
  {
    for j := 1 to |s2| + 1
      invariant RowsFilled(distances, s1, s2, i)
      invariant forall q {:trigger distances[i, q]} :: 0 <= q < j ==> distances[i, q] == Dist(s1, s2, i, q)
      invariant forall p :: i < p <= |s1| ==> distances[p, 0] == p
    {
      var up, left, diagonal := distances[i - 1, j], distances[i, j - 1], distances[i - 1, j - 1];
      var cell;
      if s1[i - 1] == s2[j - 1] {
        MatchingCharacters(s1, s2, i, j);
        cell := diagonal;
      } else {
        Mismatch(s1, s2, i, j);
        cell := Min3(up, left, diagonal) + 1;
      }
      assert cell == Dist(s1, s2, i, j);
      distances[i, j] := cell;
    }
    assert RowsFilled(distances, s1, s2, i + 1);
  }

  /** The table of AMTU.py:479-496: cell [i, j] holds the edit distance of
      s1[..i] and s2[..j]. */
  method DistanceTable(s1: string, s2: string) returns (distances: array2<nat>)
    ensures distances.Length0 == |s1| + 1 && distances.Length1 == |s2| + 1
    ensures forall i, j :: 0 <= i <= |s1| && 0 <= j <= |s2| ==> distances[i, j] == Dist(s1, s2, i, j)
  {
    var len1, len2 := |s1|, |s2|;
    distances := new nat[len1 + 1, len2 + 1];
    for i := 0 to len1 + 1
      invariant forall p :: 0 <= p < i ==> distances[p, 0] == p
    {
      distances[i, 0] := i;
    }
    for j := 0 to len2 + 1
      invariant forall p :: 0 <= p <= len1 ==> distances[p, 0] == p
      invariant forall q :: 0 <= q < j ==> distances[0, q] == q
    {
      distances[0, j] := j;
    }
    for i := 1 to len1 + 1
      invariant RowsFilled(distances, s1, s2, i)
      invariant forall p :: i <= p <= len1 ==> distances[p, 0] == p
    {
      FillRow(distances, s1, s2, i);
    }
    assert RowsFilled(distances, s1, s2, len1 + 1);
  }

  /** `_levenshtein_ratio` (AMTU.py:474-502). Its `max_length == 0` branch
      is unreachable after the emptiness guard and is not modelled. */
  method LevenshteinRatio(s1: string, s2: string) returns (r: real)
    ensures r == Ratio(s1, s2)
  {
    if s1 == [] || s2 == [] {
      return 0.0;
    }
    var distances := DistanceTable(s1, s2);
    var maxLength := MaxNat(|s1|, |s2|);
    r := 1.0 - (distances[|s1|, |s2|] as real) / (maxLength as real);
  }

  // ---------------------------------------------------------------------
  // _calculate_confidence (AMTU.py:427-472)
  // ---------------------------------------------------------------------

  function MinReal(x: real, y: real): real { if x <= y then x else y }

  /** The weighted title/artist score of AMTU.py:465, on 0-100. */
  function Weighted(titleRatio: real, artistRatio: real): real {
    (titleRatio * 0.6 + artistRatio * 0.4) * 100.0
  }

  /** The bonus condition of AMTU.py:468: one cleaned title contains the other. */
  predicate TitlesOverlap(queryTitle: string, resultTitle: string) {
    IsSubstring(queryTitle, resultTitle) || IsSubstring(resultTitle, queryTitle)
  }

  /** The score from the two ratios: the weighted ratio, plus 20 capped at
      100 when the cleaned titles overlap. */
  function Score(titleRatio: real, artistRatio: real, overlap: bool): real {
    var c := Weighted(titleRatio, artistRatio);
    if overlap then MinReal(100.0, c + 20.0) else c
  }

  /** The confidence of a result (resultTitle, resultArtist) for the query
      (queryTitle, queryArtist): 0 if any of the four is empty; otherwise
      the score of the cleaned titles and of the cleaned text before the
      first '&' of the artists. */
  function Confidence(queryTitle: string, queryArtist: string, resultTitle: string, resultArtist: string): real {
    if queryTitle == [] || queryArtist == [] || resultTitle == [] || resultArtist == [] then 0.0
    else
      var qt, qa := Cleaned(queryTitle), Cleaned(BeforeFirst(queryArtist, '&'));
      var rt, ra := Cleaned(resultTitle), Cleaned(BeforeFirst(resultArtist, '&'));
      Score(Ratio(qt, rt), Ratio(qa, ra), TitlesOverlap(qt, rt))
  }

  /** Ratios in [0, 1] give a score in [0, 100]. */
  lemma ScoreBounds(titleRatio: real, artistRatio: real, overlap: bool)
    requires 0.0 <= titleRatio <= 1.0 && 0.0 <= artistRatio <= 1.0
    ensures 0.0 <= Score(titleRatio, artistRatio, overlap) <= 100.0
  {
  }

  /** The confidence always lies in [0, 100]. */
  lemma ConfidenceBounds(queryTitle: string, queryArtist: string, resultTitle: string, resultArtist: string)
    ensures 0.0 <= Confidence(queryTitle, queryArtist, resultTitle, resultArtist) <= 100.0
  {
    var qt, qa := Cleaned(queryTitle), Cleaned(BeforeFirst(queryArtist, '&'));
    var rt, ra := Cleaned(resultTitle), Cleaned(BeforeFirst(resultArtist, '&'));
    RatioBounds(qt, rt);
    RatioBounds(qa, ra);
    ScoreBounds(Ratio(qt, rt), Ratio(qa, ra), TitlesOverlap(qt, rt));
  }

  /** Only the text before the first '&' of each artist matters. */
  lemma ConfidenceFirstArtistOnly(queryTitle: string, queryArtist: string, queryArtist': string,
                                  resultTitle: string, resultArtist: string, resultArtist': string)
    requires queryArtist != [] && queryArtist' != [] && resultArtist != [] && resultArtist' != []
    requires BeforeFirst(queryArtist, '&') == BeforeFirst(queryArtist', '&')
    requires BeforeFirst(resultArtist, '&') == BeforeFirst(resultArtist', '&')
    ensures Confidence(queryTitle, queryArtist, resultTitle, resultArtist)
         == Confidence(queryTitle, queryArtist', resultTitle, resultArtist')
  {
  }

  /** Titles and first artists that clean to the same non-empty text score 100. */
  lemma ConfidenceFullMatch(queryTitle: string, queryArtist: string, resultTitle: string, resultArtist: string)
    requires queryTitle != [] && queryArtist != [] && resultTitle != [] && resultArtist != []
    requires Cleaned(queryTitle) == Cleaned(resultTitle) != []
    requires Cleaned(BeforeFirst(queryArtist, '&')) == Cleaned(BeforeFirst(resultArtist, '&')) != []
    ensures Confidence(queryTitle, queryArtist, resultTitle, resultArtist) == 100.0
  {
    var qt := Cleaned(queryTitle);
    var qa := Cleaned(BeforeFirst(queryArtist, '&'));
    RatioOneIff(qt, qt);
    RatioOneIff(qa, qa);
    assert IsSubstring(qt, qt);
  }

  /** `_calculate_confidence`: the empty-input guard, the four `clean_text`
      calls, the two ratios and the weighted score with its bonus. */
  method CalculateConfidence(queryTitle: string, queryArtist: string, resultTitle: string, resultArtist: string)
    returns (confidence: real)
    ensures confidence == Confidence(queryTitle, queryArtist, resultTitle, resultArtist)
    ensures 0.0 <= confidence <= 100.0
  {
    ConfidenceBounds(queryTitle, queryArtist, resultTitle, resultArtist);
    if queryTitle == [] || queryArtist == [] || resultTitle == [] || resultArtist == [] {
      return 0.0;
    }
    var queryTitleClean := CleanText(queryTitle);
    var queryArtistClean := CleanText(BeforeFirst(queryArtist, '&'));
    var resultTitleClean := CleanText(resultTitle);
    var resultArtistClean := CleanText(BeforeFirst(resultArtist, '&'));
    var titleRatio := LevenshteinRatio(queryTitleClean, resultTitleClean);
    var artistRatio := LevenshteinRatio(queryArtistClean, resultArtistClean);
    confidence := Score(titleRatio, artistRatio, TitlesOverlap(queryTitleClean, resultTitleClean));
  }
}
