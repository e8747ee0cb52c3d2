/** The ranking post-processing of relevance_model.py. The TF-IDF and embedding
    similarities come from machine-learning libraries and are inputs here, as are
    the matches of the keyword patterns; what is modelled is everything the scorer
    does around them: which sections are scored, the bonuses added to the library
    scores, the weighted sum, the descending sort, and the greedy duplicate filter. */
module Relevance {
  import opened Text
  import opened Records

  // ---------------------------------------------------------------------------
  // Keywords

  /** The keyword list `extract_keywords` keeps: the first ten pattern matches. */
  function TopKeywords(matches: seq<string>): (r: seq<string>)
    ensures |r| <= 10
    ensures r <= matches
    ensures |r| == 10 || r == matches
  {
    if |matches| <= 10 then matches else matches[..10]
  }

  /** `extract_keywords`: the matches of its three patterns over the lowered text
      (with the stop words blanked out) are given; at most ten of them are kept,
      joined by blanks. */
  function ExtractKeywords(matches: seq<string>): string {
    Join(" ", TopKeywords(matches))
  }

  // ---------------------------------------------------------------------------
  // Bonuses

  function Max0(x: real): real {
    if x > 0.0 then x else 0.0
  }

  /** `max(0, (10 - page) / 10 * 0.1)`: pages before the tenth earn up to 0.1. */
  function PageBonus(page: int): (b: real)
    ensures 0.0 <= b
    ensures page >= 10 ==> b == 0.0
    ensures page >= 0 ==> b <= 0.1
    ensures page < 10 ==> b > 0.0
  {
    Max0((10 - page) as real / 10.0 * 0.1)
  }

  /** `max(0, (n - i) / n * 0.05)`: the first of `n` sections earns 0.05, later ones less. */
  function OrderBonus(i: nat, n: nat): (b: real)
    requires i < n
    ensures 0.0 < b <= 0.05
  {
    Max0((n - i) as real / n as real * 0.05)
  }

  /** A later position never earns as much as an earlier one. */
  lemma OrderBonusDecreases(i: nat, j: nat, n: nat)
    requires i < j < n
    ensures OrderBonus(j, n) < OrderBonus(i, n)
  {
    var a := (n - i) as real;
    var b := (n - j) as real;
    var d := n as real;
    assert 0.0 < b < a;
    assert b / d < a / d by {
      assert (a - b) / d > 0.0;
      assert a / d - b / d == (a - b) / d;
    }
  }

  /** The bonus of the `i`-th of `n` sections: its page bonus (a missing page counts
      as page 10) plus its order bonus. */
  function PositionBonus(s: Section, i: nat, n: nat): (b: real)
    requires i < n
    ensures Get(s.page, 10) >= 0 ==> 0.0 < b <= 0.15
    ensures b > 0.0
  {
    PageBonus(Get(s.page, 10)) + OrderBonus(i, n)
  }

  /** `calculate_position_bonus`: one bonus per position of the list, keyed by the
      position. */
  method PositionBonuses(sections: seq<Section>) returns (bonuses: map<int, real>)
    ensures forall i :: i in bonuses <==> 0 <= i < |sections|
    ensures forall i :: 0 <= i < |sections| ==> bonuses[i] == PositionBonus(sections[i], i, |sections|)
  {
    bonuses := map[];
    for i := 0 to |sections|
      invariant forall k :: k in bonuses <==> 0 <= k < i
      invariant forall k :: 0 <= k < i ==> bonuses[k] == PositionBonus(sections[k], k, |sections|)
    {
      bonuses := bonuses[i := PositionBonus(sections[i], i, |sections|)];
    }
  }

  /** The words whose presence in the lowered heading earns the quality bonus. */
  const QualityWords: seq<string> := ["method", "result", "analysis", "approach", "technique"]

  predicate NamesQuality(heading: string) {
    exists w :: w in QualityWords && Contains(Lower(heading), w)
  }

  /** The heading-quality bonus: 0.05 for a heading of two words or more, and 0.1
      more when the lowered heading contains one of the quality words. */
  function HeadingBonus(heading: string): (b: real)
    ensures b == 0.0 || b == 0.05 || b == 0.1 || b == 0.15
    ensures (b == 0.05 || b == 0.15) <==> WordCount(heading) >= 2
    ensures b >= 0.1 <==> NamesQuality(heading)
  {
    (if WordCount(heading) >= 2 then 0.05 else 0.0) + (if NamesQuality(heading) then 0.1 else 0.0)
  }

  /** The content-length bonus: a hundredth per word of the summary, capped at 0.1. */
  function LengthBonus(summary: string): (b: real)
    ensures 0.0 <= b <= 0.1
    ensures WordCount(summary) >= 10 <==> b == 0.1
  {
    var len := WordCount(summary) as real / 100.0;
    if len < 0.1 then len else 0.1
  }

  /** `set(re.findall(r'\w+', s.lower()))`. */
  function TokenSet(s: string): set<string> {
    SetOf(WordRuns(Lower(s)))
  }

  lemma SubsetNoLarger(a: set<string>, c: set<string>)
    requires a <= c
    ensures |a| <= |c|
  {
    assert c == a + (c - a);
  }

  lemma SameSizeSubset(a: set<string>, b: set<string>)
    requires a <= b
    ensures |a| == |b| ==> a == b
  {
    if a != b {
      var x :| x in b && x !in a;
      SubsetNoLarger(a, b - {x});
    }
  }

  /** The share of the query's words that also occur in the section text. */
  function KeywordOverlap(query: string, text: string): (r: real)
    ensures 0.0 <= r <= 1.0
    ensures r == 0.0 <==> TokenSet(query) * TokenSet(text) == {}
    ensures r == 1.0 <==> TokenSet(query) != {} && TokenSet(query) <= TokenSet(text)
  {
    var q := TokenSet(query);
    var s := TokenSet(text);
    SubsetNoLarger(q * s, q);
    SameSizeSubset(q * s, q);
    assert q * s == q <==> q <= s;
    var den := if |q| > 1 then |q| else 1;
    RatioBounds(|q * s|, den);
    (|q * s| as real) / den as real
  }

  /** A share of a positive whole lies between 0 and 1, is 0 only for nothing and 1
      only for everything. */
  lemma RatioBounds(part: nat, whole: nat)
    requires 0 < whole && part <= whole
    ensures 0.0 <= (part as real) / (whole as real) <= 1.0
    ensures (part as real) / (whole as real) == 0.0 <==> part == 0
    ensures (part as real) / (whole as real) == 1.0 <==> part == whole
  {
    var r := (part as real) / (whole as real);
    assert r * (whole as real) == part as real;
  }

  /** The weighted sum `score_sections` ranks by. */
  function TotalScore(semantic: real, tfidf: real, overlap: real, position: real, heading: real, length: real): real {
    0.4 * semantic + 0.3 * tfidf + 0.1 * (overlap * 0.2) + 0.1 * position + 0.05 * heading + 0.05 * length
  }

  /** Whatever the library scores, the bonuses move a section's total by at most
      0.0475 when its page is not negative. */
  lemma BonusesAreSmall(semantic: real, tfidf: real, query: string, text: string, s: Section, i: nat, n: nat)
    requires i < n && Get(s.page, 10) >= 0
    ensures var total := TotalScore(semantic, tfidf, KeywordOverlap(query, text), PositionBonus(s, i, n),
                                    HeadingBonus(HeadingOf(s)), LengthBonus(SummaryOf(s)));
            0.0 < total - (0.4 * semantic + 0.3 * tfidf) <= 0.0475
  {
    var o := KeywordOverlap(query, text);
    var p := PositionBonus(s, i, n);
    var h := HeadingBonus(HeadingOf(s));
    var l := LengthBonus(SummaryOf(s));
    assert 0.0 <= o <= 1.0 && 0.0 < p <= 0.15 && 0.0 <= h <= 0.15 && 0.0 <= l <= 0.1;
  }

  // ---------------------------------------------------------------------------
  // Scoring

  /** The sections `score_sections` scores: those whose stripped heading is not empty,
      in order. */
  function Clean(sections: seq<Section>): (r: seq<Section>)
    ensures |r| <= |sections|
    ensures forall k :: 0 <= k < |r| ==> Strip(HeadingOf(r[k])) != []
  {
    if sections == [] then []
    else
      var prev := Clean(sections[..|sections| - 1]);
      var s := sections[|sections| - 1];
      if Strip(HeadingOf(s)) == [] then prev else prev + [s]
  }

  /** A section is scored as often as it occurs, unless its stripped heading is
      empty, and then never. */
  lemma {:induction false} CleanDropsExactlyBlankHeadings(sections: seq<Section>, s: Section)
    ensures multiset(Clean(sections))[s] == if Strip(HeadingOf(s)) == [] then 0 else multiset(sections)[s]
    decreases |sections|
  {
    if sections != [] {
      var init := sections[..|sections| - 1];
      CleanDropsExactlyBlankHeadings(init, s);
      assert sections == init + [sections[|sections| - 1]];
    }
  }

  /** The text a section is matched by: its stripped heading, a full stop, its
      stripped summary and its keywords. */
  function Enhanced(s: Section, matcher: string -> seq<string>): string {
    var heading := Strip(HeadingOf(s));
    var summary := Strip(SummaryOf(s));
    Strip(heading + ". " + summary + " " + ExtractKeywords(matcher(heading + " " + summary)))
  }

  /** The library scores as the scorer reads them: position `idx` of the vector, or 0.0
      past its end. */
  function ScoreAt(scores: seq<real>, idx: nat): real {
    if idx < |scores| then scores[idx] else 0.0
  }

  /** The TF-IDF vector actually used: zeros when the vectorizer raised. */
  function TfidfUsed(tfidf: Option<seq<real>>, n: nat): (r: seq<real>)
    ensures tfidf.None? ==> |r| == n && forall k :: 0 <= k < n ==> r[k] == 0.0
  {
    match tfidf
    case Some(v) => v
    case None => seq(n, k => 0.0)
  }

  /** The semantic vector actually used: the TF-IDF one when no model is loaded or
      encoding raised. */
  function SemanticUsed(semantic: Option<seq<real>>, tfidf: seq<real>): seq<real> {
    Get(semantic, tfidf)
  }

  /** The score of section `s`, the `idx`-th scored one, whose match text is `text`
      and whose position bonus is `position`. */
  function SectionScore(query: string, text: string, s: Section, position: real, idx: nat,
                        tfidf: seq<real>, semantic: seq<real>): real
  {
    TotalScore(ScoreAt(semantic, idx), ScoreAt(tfidf, idx), KeywordOverlap(query, text), position,
               HeadingBonus(HeadingOf(s)), LengthBonus(SummaryOf(s)))
  }

  /** The `(score, section)` pairs before sorting, one per scored section. */
  function Unsorted(query: string, clean: seq<Section>, matcher: string -> seq<string>,
                    tfidf: seq<real>, semantic: seq<real>): (r: seq<Scored>)
    ensures |r| == |clean|
    ensures SectionsOf(r) == clean
  {
    var r := seq(|clean|, idx requires 0 <= idx < |clean| => Scored(SectionScore(query, Enhanced(clean[idx], matcher), clean[idx], PositionBonus(clean[idx], idx, |clean|), idx, tfidf, semantic), clean[idx]));
    assert SectionsOf(r) == clean;
    r
  }

  /** Inserts `x` behind every entry that scores at least as much. */
  function InsertScored(x: Scored, ys: seq<Scored>): (r: seq<Scored>)
    ensures multiset(r) == multiset(ys) + multiset{x}
  {
    if ys == [] || ys[0].score < x.score then [x] + ys
    else
      assert ys == [ys[0]] + ys[1..];
      [ys[0]] + InsertScored(x, ys[1..])
  }

  /** `results.sort(reverse=True, key=lambda x: x[0])`: Python's sort is stable even
      when reversed, which inserting each entry behind its equals gives. */
  function SortByScore(xs: seq<Scored>): (r: seq<Scored>)
    ensures multiset(r) == multiset(xs)
  {
    if xs == [] then []
    else
      assert xs == xs[..|xs| - 1] + [xs[|xs| - 1]];
      InsertScored(xs[|xs| - 1], SortByScore(xs[..|xs| - 1]))
  }

  predicate NonIncreasing(xs: seq<Scored>) {
    forall i, j :: 0 <= i < j < |xs| ==> xs[i].score >= xs[j].score
  }

  /** The entries of `xs` that score exactly `v`, in order. */
  function WithScore(xs: seq<Scored>, v: real): seq<Scored> {
    if xs == [] then []
    else (if xs[0].score == v then [xs[0]] else []) + WithScore(xs[1..], v)
  }

  lemma {:induction false} InsertKeepsOrder(x: Scored, ys: seq<Scored>)
    requires NonIncreasing(ys)
    ensures NonIncreasing(InsertScored(x, ys))
    decreases |ys|
  {
    if ys == [] || ys[0].score < x.score {
    } else {
      InsertKeepsOrder(x, ys[1..]);
      var t := InsertScored(x, ys[1..]);
      forall k | 0 <= k < |t| ensures ys[0].score >= t[k].score {
        assert t[k] in multiset(ys[1..]) + multiset{x};
        if t[k] != x {
          assert t[k] in ys[1..];
        }
      }
    }
  }

  lemma {:induction false} SortedByScore(xs: seq<Scored>)
    ensures NonIncreasing(SortByScore(xs))
    decreases |xs|
  {
    if xs != [] {
      SortedByScore(xs[..|xs| - 1]);
      InsertKeepsOrder(xs[|xs| - 1], SortByScore(xs[..|xs| - 1]));
    }
  }

  /** No entry of a list sorted by score below `v` scores `v`. */
  lemma {:induction false} NoneWithScore(ys: seq<Scored>, v: real)
    requires forall k :: 0 <= k < |ys| ==> ys[k].score < v
    ensures WithScore(ys, v) == []
    decreases |ys|
  {
    if ys != [] {
      NoneWithScore(ys[1..], v);
    }
  }

  /** Inserting `x` puts it behind every entry of its own score. */
  lemma {:induction false} InsertIsStable(x: Scored, ys: seq<Scored>, v: real)
    requires NonIncreasing(ys)
    ensures WithScore(InsertScored(x, ys), v) == WithScore(ys, v) + if x.score == v then [x] else []
    decreases |ys|
  {
    if ys == [] {
      assert InsertScored(x, ys) == [x];
    } else if ys[0].score < x.score {
      var r := InsertScored(x, ys);
      assert r == [x] + ys && r[1..] == ys;
      if x.score == v {
        NoneWithScore(ys, v);
      }
    } else {
      InsertIsStable(x, ys[1..], v);
      var r := InsertScored(x, ys);
      assert r[0] == ys[0] && r[1..] == InsertScored(x, ys[1..]);
    }
  }

  lemma {:induction false} WithScoreSnoc(xs: seq<Scored>, x: Scored, v: real)
    ensures WithScore(xs + [x], v) == WithScore(xs, v) + if x.score == v then [x] else []
    decreases |xs|
  {
    if xs == [] {
      assert xs + [x] == [x];
    } else {
      WithScoreSnoc(xs[1..], x, v);
      var head := if xs[0].score == v then [xs[0]] else [];
      var tail := if x.score == v then [x] else [];
      assert (xs + [x])[1..] == xs[1..] + [x];
      assert WithScore(xs + [x], v) == head + (WithScore(xs[1..], v) + tail);
      assert WithScore(xs, v) == head + WithScore(xs[1..], v);
    }
  }

  /** The sort is stable: the entries of any one score keep their input order. */
  lemma {:induction false} SortIsStable(xs: seq<Scored>, v: real)
    ensures WithScore(SortByScore(xs), v) == WithScore(xs, v)
    decreases |xs|
  {
    if xs != [] {
      var init := xs[..|xs| - 1];
      SortIsStable(init, v);
      SortedByScore(init);
      WithScoreSnoc(init, xs[|xs| - 1], v);
      assert xs == init + [xs[|xs| - 1]];
      InsertIsStable(xs[|xs| - 1], SortByScore(init), v);
    }
  }

  /** The first loop of `score_sections`: the sections with a heading and their
      match texts. */
  method EnhanceAll(sections: seq<Section>, matcher: string -> seq<string>)
    returns (clean: seq<Section>, corpus: seq<string>)
    ensures clean == Clean(sections)
    ensures |corpus| == |clean|
    ensures forall j :: 0 <= j < |corpus| ==> corpus[j] == Enhanced(clean[j], matcher)
  {
    corpus := [];
    clean := [];
    for k := 0 to |sections|
      invariant clean == Clean(sections[..k])
      invariant |corpus| == |clean|
      invariant forall j :: 0 <= j < |corpus| ==> corpus[j] == Enhanced(clean[j], matcher)
    {
      assert sections[..k + 1][..k] == sections[..k];
      var section := sections[k];
      var heading := Strip(HeadingOf(section));
      assert Clean(sections[..k + 1]) == if heading == [] then clean else clean + [section];
      if heading == [] {
        continue;
      }
      // heading, summary and keywords joined as the scorer's text
      var enhanced := Enhanced(section, matcher);
      corpus := corpus + [enhanced];
      clean := clean + [section];
    }
    assert sections[..|sections|] == sections;
  }

  /** The second loop of `score_sections`: one `(score, section)` pair per section,
      in order. */
  method ScoreAll(query: string, clean: seq<Section>, corpus: seq<string>, bonuses: map<int, real>,
                  tfidfScores: seq<real>, semanticScores: seq<real>)
    returns (results: seq<Scored>)
    requires |corpus| == |clean|
    requires forall i :: 0 <= i < |clean| ==> i in bonuses
    ensures |results| == |clean|
    ensures forall j :: 0 <= j < |clean| ==>
      results[j] == Scored(SectionScore(query, corpus[j], clean[j], bonuses[j], j, tfidfScores, semanticScores), clean[j])
  {
    results := [];
    for idx := 0 to |clean|
      invariant |results| == idx
      invariant forall j :: 0 <= j < idx ==>
        results[j] == Scored(SectionScore(query, corpus[j], clean[j], bonuses[j], j, tfidfScores, semanticScores), clean[j])
    {
      var section := clean[idx];
      var total := SectionScore(query, corpus[idx], section, bonuses[idx], idx, tfidfScores, semanticScores);
      results := results + [Scored(total, section)];
    }
  }

  /** `score_sections(query, sections)`, given the patterns' matches, the TF-IDF
      similarities (or `None` when the vectorizer raised) and the embedding
      similarities (or `None` when no model is loaded or encoding raised). */
  method ScoreSections(query: string, sections: seq<Section>, matcher: string -> seq<string>,
                       tfidf: Option<seq<real>>, semantic: Option<seq<real>>)
    returns (results: seq<Scored>)
    ensures var clean := Clean(sections);
            var t := TfidfUsed(tfidf, |clean|);
            results == SortByScore(Unsorted(query, clean, matcher, t, SemanticUsed(semantic, t)))
  {
    if sections == [] {
      return [];
    }
    var clean, corpus := EnhanceAll(sections, matcher);
    if corpus == [] {
      return [];
    }
    var bonuses := PositionBonuses(clean);
    var tfidfScores := TfidfUsed(tfidf, |corpus|);
    var semanticScores := SemanticUsed(semantic, tfidfScores);
    results := ScoreAll(query, clean, corpus, bonuses, tfidfScores, semanticScores);
    ghost var unsorted := Unsorted(query, clean, matcher, tfidfScores, semanticScores);
    forall j | 0 <= j < |clean| ensures results[j] == unsorted[j] {
      assert corpus[j] == Enhanced(clean[j], matcher);
      assert bonuses[j] == PositionBonus(clean[j], j, |clean|);
    }
    assert results == unsorted;
    results := SortByScore(results);
  }

  /** What `score_sections` promises: one entry per section with a heading, the
      entries ordered by non-increasing score, ties in input order. */
  lemma ScoredSectionsShape(query: string, clean: seq<Section>, matcher: string -> seq<string>,
                            tfidf: seq<real>, semantic: seq<real>, v: real)
    ensures var u := Unsorted(query, clean, matcher, tfidf, semantic);
            var r := SortByScore(u);
            && |r| == |clean|
            && multiset(r) == multiset(u) && SectionsOf(u) == clean
            && NonIncreasing(r)
            && WithScore(r, v) == WithScore(u, v)
  {
    var u := Unsorted(query, clean, matcher, tfidf, semantic);
    SortedByScore(u);
    SortIsStable(u, v);
    assert |SortByScore(u)| == |multiset(SortByScore(u))| == |multiset(u)| == |u|;
  }

  // ---------------------------------------------------------------------------
  // Duplicate filter

  /** The heading the duplicate filter compares: lowered, then stripped. */
  function DedupKey(x: Scored): string {
    Strip(Lower(HeadingOf(x.section)))
  }

  /** `len(words1 & words2) / len(words1 | words2)` for the word sets of two headings. */
  function Jaccard(h1: string, h2: string): real
    requires SetOf(Words(h1)) + SetOf(Words(h2)) != {}
  {
    var w1 := SetOf(Words(h1));
    var w2 := SetOf(Words(h2));
    (|w1 * w2| as real) / (|w1 + w2| as real)
  }

  /** Two headings are judged the same section when both have words and their word
      sets overlap by more than the threshold. */
  predicate TooSimilar(h1: string, h2: string, threshold: real) {
    && SetOf(Words(h1)) != {} && SetOf(Words(h2)) != {}
    && Jaccard(h1, h2) > threshold
  }

  /** `TooSimilar` at a fixed threshold, as the relation the greedy filter uses. The
      filter's own lemmas hold for any relation. */
  function Similar(threshold: real): (string, string) -> bool {
    (h1, h2) => TooSimilar(h1, h2, threshold)
  }

  /** Some heading seen so far is similar to `h`. */
  predicate Duplicate(h: string, seen: seq<string>, similar: (string, string) -> bool) {
    exists k :: 0 <= k < |seen| && similar(h, seen[k])
  }

  /** The compared heading of every entry, in order. */
  function Keys(xs: seq<Scored>): (r: seq<string>)
    ensures |r| == |xs| && forall i :: 0 <= i < |xs| ==> r[i] == DedupKey(xs[i])
  {
    seq(|xs|, i requires 0 <= i < |xs| => DedupKey(xs[i]))
  }

  /** The positions among the first `n` that the greedy filter keeps: a heading is
      kept unless it is similar to one kept before it. */
  function Survivors(keys: seq<string>, similar: (string, string) -> bool, n: nat): (idx: seq<nat>)
    requires n <= |keys|
    ensures forall k :: 0 <= k < |idx| ==> idx[k] < n
  {
    if n == 0 then []
    else
      var prev := Survivors(keys, similar, n - 1);
      if Duplicate(keys[n - 1], At(keys, prev), similar) then prev else prev + [n - 1]
  }

  /** The positions `filter_duplicates(ranked, threshold)` keeps. */
  function Kept(xs: seq<Scored>, threshold: real): (idx: seq<nat>)
    ensures InRange(xs, idx)
  {
    Survivors(Keys(xs), Similar(threshold), |xs|)
  }

  /** `filter_duplicates(ranked, threshold)` as a value: the kept entries in order. */
  function Dedup(xs: seq<Scored>, threshold: real): seq<Scored> {
    At(xs, Kept(xs, threshold))
  }

  /** The inner loop of `filter_duplicates`: compares `heading` with each heading
      kept so far and stops at the first that is too similar. */
  method IsDuplicate(heading: string, seen: seq<string>, threshold: real) returns (isDuplicate: bool)
    ensures isDuplicate <==> Duplicate(heading, seen, Similar(threshold))
  {
    isDuplicate := false;
    var j := 0;
    while j < |seen|
      invariant 0 <= j <= |seen|
      invariant forall k :: 0 <= k < j ==> !TooSimilar(heading, seen[k], threshold)
    {
      var words1 := SetOf(Words(heading));
      var words2 := SetOf(Words(seen[j]));
      if words1 != {} && words2 != {} {
        var overlap := (|words1 * words2| as real) / (|words1 + words2| as real);
        if overlap > threshold {
          isDuplicate := true;
          assert Similar(threshold)(heading, seen[j]);
          return;
        }
      }
      j := j + 1;
    }
  }

  /** `filter_duplicates`: each entry is compared with the headings kept so far and
      kept unless one of them is too similar. */
  method FilterDuplicates(ranked: seq<Scored>, threshold: real) returns (filtered: seq<Scored>)
    ensures filtered == Dedup(ranked, threshold)
  {
    if ranked == [] {
      return ranked;
    }
    ghost var keys := Keys(ranked);
    filtered := [];
    var seen: seq<string> := [];
    ghost var kept: seq<nat> := [];
    for i := 0 to |ranked|
      invariant kept == Survivors(keys, Similar(threshold), i)
      invariant filtered == At(ranked, kept)
      invariant seen == At(keys, kept)
    {
      var heading := DedupKey(ranked[i]);
      var isDuplicate := IsDuplicate(heading, seen, threshold);
      assert heading == keys[i];
      SurvivorsStep(keys, Similar(threshold), i + 1);
      if !isDuplicate {
        AtSnoc(ranked, kept, i);
        AtSnoc(keys, kept, i);
        filtered := filtered + [ranked[i]];
        seen := seen + [heading];
        kept := kept + [i];
      }
    }
    assert kept == Kept(ranked, threshold);
  }

  /** One step of the filter keeps the positions kept so far and adds at most the new one. */
  lemma SurvivorsStep(keys: seq<string>, similar: (string, string) -> bool, n: nat)
    requires 0 < n <= |keys|
    ensures var prev := Survivors(keys, similar, n - 1);
            Survivors(keys, similar, n) == if Duplicate(keys[n - 1], At(keys, prev), similar) then prev else prev + [n - 1]
  {
  }

  lemma {:induction false} SurvivorsIncrease(keys: seq<string>, similar: (string, string) -> bool, n: nat)
    requires n <= |keys|
    ensures var idx := Survivors(keys, similar, n);
            forall a, b :: 0 <= a < b < |idx| ==> idx[a] < idx[b]
    decreases n
  {
    if n > 0 {
      SurvivorsIncrease(keys, similar, n - 1);
      SurvivorsStep(keys, similar, n);
    }
  }

  /** The filter's output is a subsequence of its input: the entries at increasing
      positions. */
  lemma DedupIsSubsequence(xs: seq<Scored>, threshold: real)
    ensures var idx := Kept(xs, threshold);
            && |Dedup(xs, threshold)| == |idx|
            && (forall k :: 0 <= k < |idx| ==> idx[k] < |xs| && Dedup(xs, threshold)[k] == xs[idx[k]])
            && (forall a, b :: 0 <= a < b < |idx| ==> idx[a] < idx[b])
  {
    var keys := Keys(xs);
    var similar := Similar(threshold);
    SurvivorsIncrease(keys, similar, |xs|);
    assert Kept(xs, threshold) == Survivors(keys, similar, |xs|);
  }

  /** Later steps of the filter only add positions: the `k`-th kept position stays
      the `k`-th. */
  lemma {:induction false} SurvivorsGrow(keys: seq<string>, similar: (string, string) -> bool, n: nat, m: nat, k: nat)
    requires n <= m <= |keys| && k < |Survivors(keys, similar, n)|
    ensures k < |Survivors(keys, similar, m)|
    ensures Survivors(keys, similar, m)[k] == Survivors(keys, similar, n)[k]
    decreases m - n
  {
    if n < m {
      SurvivorsGrow(keys, similar, n, m - 1, k);
      SurvivorsStep(keys, similar, m);
    }
  }

  /** The first entry is always kept. */
  lemma DedupKeepsFirst(xs: seq<Scored>, threshold: real)
    requires xs != []
    ensures Dedup(xs, threshold) != [] && Dedup(xs, threshold)[0] == xs[0]
  {
    SurvivorsStep(Keys(xs), Similar(threshold), 1);
    assert Survivors(Keys(xs), Similar(threshold), 1) == [0];
    SurvivorsGrow(Keys(xs), Similar(threshold), 1, |xs|, 0);
  }

  /** An entry whose heading has no words is never judged a duplicate. */
  lemma DedupKeepsWordless(xs: seq<Scored>, threshold: real, i: nat)
    requires i < |xs| && Words(DedupKey(xs[i])) == []
    ensures i in Kept(xs, threshold)
  {
    var keys := Keys(xs);
    var similar := Similar(threshold);
    var prev := Survivors(keys, similar, i);
    WordlessNeverDuplicate(keys[i], At(keys, prev), threshold);
    SurvivorsStep(keys, similar, i + 1);
    assert Survivors(keys, similar, i + 1)[|prev|] == i;
    SurvivorsGrow(keys, similar, i + 1, |xs|, |prev|);
  }

  lemma WordlessNeverDuplicate(h: string, seen: seq<string>, threshold: real)
    requires Words(h) == []
    ensures !Duplicate(h, seen, Similar(threshold))
  {
    assert SetOf(Words(h)) == {};
  }

  /** A position the filter drops has a heading similar to one it kept earlier. */
  lemma {:induction false} SurvivorsDropOnlySimilar(keys: seq<string>, similar: (string, string) -> bool, n: nat, i: nat)
    requires i < n <= |keys| && i !in Survivors(keys, similar, n)
    ensures exists j :: j in Survivors(keys, similar, n) && j < i && similar(keys[i], keys[j])
    decreases n
  {
    SurvivorsStep(keys, similar, n);
    var prev := Survivors(keys, similar, n - 1);
    var cur := Survivors(keys, similar, n);
    assert forall j :: j in prev ==> j in cur;
    if i < n - 1 {
      SurvivorsDropOnlySimilar(keys, similar, n - 1, i);
      var j :| j in prev && j < i && similar(keys[i], keys[j]);
      assert j in cur;
    } else {
      assert Duplicate(keys[n - 1], At(keys, prev), similar);
      var k :| 0 <= k < |prev| && similar(keys[n - 1], At(keys, prev)[k]);
      assert prev[k] in cur && prev[k] < i && similar(keys[i], keys[prev[k]]);
    }
  }

  /** `filter_duplicates` drops an entry only because its heading is too similar to
      that of an entry kept before it; with `DedupPairwise` this pins the
      filter down: it keeps exactly the entries that are not too similar to a kept
      earlier one. */
  lemma DedupDropsOnlySimilar(xs: seq<Scored>, threshold: real, i: nat)
    requires i < |xs| && i !in Kept(xs, threshold)
    ensures exists j :: j in Kept(xs, threshold) && j < i && TooSimilar(DedupKey(xs[i]), DedupKey(xs[j]), threshold)
  {
    var keys := Keys(xs);
    SurvivorsDropOnlySimilar(keys, Similar(threshold), |xs|, i);
    var j :| j in Kept(xs, threshold) && j < i && Similar(threshold)(keys[i], keys[j]);
    assert TooSimilar(DedupKey(xs[i]), DedupKey(xs[j]), threshold);
  }

  /** No heading is similar to one before it. */
  predicate NoneSimilar(keys: seq<string>, similar: (string, string) -> bool) {
    forall a, b :: 0 <= a < b < |keys| ==> !similar(keys[b], keys[a])
  }

  /** Among the kept headings, no later one is similar to an earlier one. */
  lemma {:induction false} SurvivorsNoneSimilar(keys: seq<string>, similar: (string, string) -> bool, n: nat)
    requires n <= |keys|
    ensures NoneSimilar(At(keys, Survivors(keys, similar, n)), similar)
    decreases n
  {
    if n > 0 {
      SurvivorsNoneSimilar(keys, similar, n - 1);
      SurvivorsStep(keys, similar, n);
      var prev := Survivors(keys, similar, n - 1);
      if !Duplicate(keys[n - 1], At(keys, prev), similar) {
        AtSnoc(keys, prev, n - 1);
        KeptNoneSimilar(At(keys, prev), keys[n - 1], similar);
      }
    }
  }

  /** Appending a heading no kept heading is similar to keeps the list free of
      similar pairs. */
  lemma KeptNoneSimilar(seen: seq<string>, h: string, similar: (string, string) -> bool)
    requires NoneSimilar(seen, similar)
    requires !Duplicate(h, seen, similar)
    ensures NoneSimilar(seen + [h], similar)
  {
    var zs := seen + [h];
    forall a, b | 0 <= a < b < |zs| ensures !similar(zs[b], zs[a]) {
      assert zs[a] == seen[a];
      if b < |seen| {
        assert zs[b] == seen[b];
      }
    }
  }

  /** Any two kept headings that both have words overlap by at most the threshold. */
  lemma DedupPairwise(xs: seq<Scored>, threshold: real, a: nat, b: nat)
    requires a < b < |Dedup(xs, threshold)|
    requires var ys := Dedup(xs, threshold);
             SetOf(Words(DedupKey(ys[a]))) != {} && SetOf(Words(DedupKey(ys[b]))) != {}
    ensures var ys := Dedup(xs, threshold);
            Jaccard(DedupKey(ys[b]), DedupKey(ys[a])) <= threshold
  {
    var keys := Keys(xs);
    var idx := Kept(xs, threshold);
    SurvivorsNoneSimilar(keys, Similar(threshold), |xs|);
    var ys := Dedup(xs, threshold);
    assert At(keys, idx)[a] == DedupKey(ys[a]);
    assert At(keys, idx)[b] == DedupKey(ys[b]);
    assert !Similar(threshold)(DedupKey(ys[b]), DedupKey(ys[a]));
  }

  /** The positions `0, 1, ..., n - 1`. */
  function Upto(n: nat): (r: seq<nat>)
    ensures |r| == n && forall k :: 0 <= k < n ==> r[k] == k
  {
    if n == 0 then [] else Upto(n - 1) + [n - 1]
  }

  /** A list of headings none of which is similar to an earlier one passes unchanged. */
  lemma {:induction false} NoneSimilarKeepsAll(keys: seq<string>, similar: (string, string) -> bool, n: nat)
    requires n <= |keys| && NoneSimilar(keys, similar)
    ensures Survivors(keys, similar, n) == Upto(n)
    decreases n
  {
    if n > 0 {
      NoneSimilarKeepsAll(keys, similar, n - 1);
      SurvivorsStep(keys, similar, n);
      var seen := At(keys, Upto(n - 1));
      assert !Duplicate(keys[n - 1], seen, similar) by {
        forall k | 0 <= k < |seen| ensures !similar(keys[n - 1], seen[k]) {
          assert seen[k] == keys[k];
        }
      }
    }
  }

  /** Filtering twice with the same threshold filters nothing more. */
  lemma DedupIdempotent(xs: seq<Scored>, threshold: real)
    ensures Dedup(Dedup(xs, threshold), threshold) == Dedup(xs, threshold)
  {
    var ys := Dedup(xs, threshold);
    var idx := Kept(xs, threshold);
    SurvivorsNoneSimilar(Keys(xs), Similar(threshold), |xs|);
    assert Keys(ys) == At(Keys(xs), idx);
    NoneSimilarKeepsAll(Keys(ys), Similar(threshold), |ys|);
    assert At(ys, Upto(|ys|)) == ys;
  }
}
