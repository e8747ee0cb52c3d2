/** The extractive summariser of summarizer.py. Splitting the text into sentences and
    weighting them by TF-IDF are library calls; here the sentences and their
    importance values are inputs, and what is modelled is the choice: keep the
    `maxSentences` most important sentences and put them back in reading order. */
module Summarizer {
  import opened Text

  /** `clean_text`: collapse every whitespace run to one blank, then strip. The
      result keeps the words of `s` and is exactly `" ".join(s.split())`. */
  function CleanText(s: string): (r: string)
    ensures Normalised(r)
    ensures |r| <= |s|
    ensures Words(r) == Words(s)
    ensures r == Join(" ", Words(s))
  {
    CollapsedLength(s);
    StripOfCollapsed(Collapse(s));
    WordsOfCollapse(s);
    WordsOfStrip(Collapse(s));
    NormalisedIsJoin(Strip(Collapse(s)));
    Strip(Collapse(s))
  }

  lemma StripOfCollapsed(c: string)
    requires NoDoubleSpace(c) && OnlyBlanks(c)
    ensures Normalised(Strip(c))
  {
    var l := LStrip(c);
    var r := RStrip(l);
    assert Strip(c) == r;
    LStripSuffix(c);
    RStripPrefix(l);
    SliceKeepsCollapsed(c, |c| - |l|, |c| - |l| + |r|);
    assert r == c[|c| - |l|..|c| - |l| + |r|];
  }

  lemma SliceKeepsCollapsed(c: string, a: nat, b: nat)
    requires a <= b <= |c| && NoDoubleSpace(c) && OnlyBlanks(c)
    ensures NoDoubleSpace(c[a..b]) && OnlyBlanks(c[a..b])
  {
    var t := c[a..b];
    forall i | 0 <= i < |t| - 1 ensures !(IsSpace(t[i]) && IsSpace(t[i + 1])) {
      assert t[i] == c[a + i] && t[i + 1] == c[a + i + 1];
    }
    forall i | 0 <= i < |t| ensures IsSpace(t[i]) ==> t[i] == ' ' {
      assert t[i] == c[a + i];
    }
  }

  lemma {:induction false} CollapsedLength(s: string)
    ensures |Collapse(s)| <= |s|
    decreases |s|
  {
    if s == [] {
    } else if IsSpace(s[0]) {
      CollapsedLength(LStrip(s[1..]));
    } else {
      CollapsedLength(s[1..]);
    }
  }

  /** Cleaning an already cleaned text changes nothing. */
  lemma CleanTextIdempotent(s: string)
    ensures CleanText(CleanText(s)) == CleanText(s)
  {
    var c := CleanText(s);
    CollapseKeepsCollapsed(c);
    StripKeepsStripped(c);
  }

  /** No index occurs twice. */
  predicate Distinct(s: seq<nat>) {
    forall i, j :: 0 <= i < j < |s| ==> s[i] != s[j]
  }

  /** Inserts index `x` into `order`, which lists indices by non-increasing
      importance, in front of the first index that is not more important. */
  function InsertDesc(key: seq<real>, x: nat, order: seq<nat>): (r: seq<nat>)
    requires x < |key|
    requires forall i :: 0 <= i < |order| ==> order[i] < |key|
    ensures multiset(r) == multiset(order) + multiset{x}
    ensures forall i :: 0 <= i < |r| ==> r[i] < |key|
  {
    if order == [] || key[x] >= key[order[0]] then [x] + order
    else
      assert order == [order[0]] + order[1..];
      [order[0]] + InsertDesc(key, x, order[1..])
  }

  /** `np.argsort(importance)[::-1]` restricted to the first `n` indices: every index
      below `n`, most important first. */
  function RankDesc(key: seq<real>, n: nat): (r: seq<nat>)
    requires n <= |key|
    ensures |r| == n
    ensures forall i :: 0 <= i < |r| ==> r[i] < n
  {
    if n == 0 then []
    else
      var prev := RankDesc(key, n - 1);
      var r := InsertDesc(key, n - 1, prev);
      assert forall i :: 0 <= i < |r| ==> r[i] in multiset(r);
      r
  }

  predicate SortedDesc(key: seq<real>, order: seq<nat>)
    requires forall i :: 0 <= i < |order| ==> order[i] < |key|
  {
    forall i, j :: 0 <= i < j < |order| ==> key[order[i]] >= key[order[j]]
  }

  lemma {:induction false} InsertDescSorted(key: seq<real>, x: nat, order: seq<nat>)
    requires x < |key|
    requires forall i :: 0 <= i < |order| ==> order[i] < |key|
    requires SortedDesc(key, order)
    ensures SortedDesc(key, InsertDesc(key, x, order))
    decreases |order|
  {
    if order == [] || key[x] >= key[order[0]] {
    } else {
      InsertDescSorted(key, x, order[1..]);
      var t := InsertDesc(key, x, order[1..]);
      forall i | 0 <= i < |t| ensures key[order[0]] >= key[t[i]] {
        assert t[i] in multiset(order[1..]) + multiset{x};
        if t[i] != x {
          assert t[i] in order[1..];
        }
      }
    }
  }

  lemma RankDescProperties(key: seq<real>, n: nat)
    requires n <= |key|
    ensures SortedDesc(key, RankDesc(key, n))
    ensures forall x: nat :: multiset(RankDesc(key, n))[x] == if x < n then 1 else 0
  {
    RankDescSorted(key, n);
    RankDescCounts(key, n);
    forall x: nat ensures multiset(RankDesc(key, n))[x] == if x < n then 1 else 0 {
      BelowCounts(n, x);
    }
  }

  lemma {:induction false} RankDescSorted(key: seq<real>, n: nat)
    requires n <= |key|
    ensures SortedDesc(key, RankDesc(key, n))
  {
    if n > 0 {
      RankDescSorted(key, n - 1);
      InsertDescSorted(key, n - 1, RankDesc(key, n - 1));
    }
  }

  /** The indices below `n`, each once. */
  function Below(n: nat): multiset<nat> {
    if n == 0 then multiset{} else Below(n - 1) + multiset{n - 1}
  }

  lemma {:induction false} BelowCounts(n: nat, x: nat)
    ensures Below(n)[x] == if x < n then 1 else 0
  {
    if n > 0 {
      BelowCounts(n - 1, x);
    }
  }

  /** The ranking holds every index below `n` exactly once. */
  lemma {:induction false} RankDescCounts(key: seq<real>, n: nat)
    requires n <= |key|
    ensures multiset(RankDesc(key, n)) == Below(n)
  {
    if n > 0 {
      RankDescCounts(key, n - 1);
    }
  }

  /** Two positions holding the same value make it occur twice. */
  lemma TwiceCounted(s: seq<nat>, i: nat, j: nat)
    requires 0 <= i < j < |s| && s[i] == s[j]
    ensures multiset(s)[s[i]] >= 2
  {
    assert s == s[..j] + [s[j]] + s[j + 1..];
    assert s[i] in multiset(s[..j]);
  }

  lemma {:induction false} DistinctCountsOnce(s: seq<nat>, x: nat)
    requires Distinct(s)
    ensures multiset(s)[x] == if x in s then 1 else 0
    decreases |s|
  {
    if s != [] {
      var p := s[..|s| - 1];
      assert s == p + [s[|s| - 1]];
      DistinctCountsOnce(p, x);
      if x == s[|s| - 1] {
        assert x !in p;
      }
    }
  }

  /** The indices below `n` that occur in `chosen`, in increasing order
      (`sorted(...)` of a list of distinct indices). */
  function InOriginalOrder(chosen: seq<nat>, n: nat): (r: seq<nat>)
    ensures forall i, j :: 0 <= i < j < |r| ==> r[i] < r[j]
    ensures forall i :: 0 <= i < |r| ==> r[i] < n && r[i] in chosen
  {
    if n == 0 then []
    else
      var prev := InOriginalOrder(chosen, n - 1);
      if n - 1 in chosen then prev + [n - 1] else prev
  }

  /** Restoring reading order keeps each index below `n` that occurs in `chosen` once. */
  lemma {:induction false} InOriginalOrderCounts(chosen: seq<nat>, n: nat, x: nat)
    ensures multiset(InOriginalOrder(chosen, n))[x] == if x < n && x in chosen then 1 else 0
  {
    if n > 0 {
      InOriginalOrderCounts(chosen, n - 1, x);
      var prev := InOriginalOrder(chosen, n - 1);
      if n - 1 in chosen {
        assert multiset(prev + [n - 1]) == multiset(prev) + multiset{n - 1};
      }
    }
  }

  /** The indices of the sentences `summarize_text` keeps when there are more than
      `k`: exactly `k` distinct indices, in increasing order, and no sentence left
      out is more important than one that is kept. */
  function SelectIndices(importance: seq<real>, k: nat): (r: seq<nat>)
    requires k <= |importance|
    ensures |r| == k
    ensures forall i, j :: 0 <= i < j < |r| ==> r[i] < r[j]
    ensures forall i :: 0 <= i < |r| ==> r[i] < |importance|
    ensures forall i, u :: 0 <= i < |r| && 0 <= u < |importance| && u !in r ==>
              importance[u] <= importance[r[i]]
  {
    var n := |importance|;
    var top := RankDesc(importance, n)[..k];
    var r := InOriginalOrder(top, n);
    TopInOrder(importance, k);
    r
  }

  /** What `SelectIndices` needs of the top `k` of the ranking: they are distinct, so
      restoring reading order keeps all `k` of them, and none of the rest beats them. */
  lemma TopInOrder(importance: seq<real>, k: nat)
    requires k <= |importance|
    ensures var n := |importance|;
            var r := InOriginalOrder(RankDesc(importance, n)[..k], n);
            |r| == k &&
            forall i, u :: 0 <= i < |r| && 0 <= u < n && u !in r ==> importance[u] <= importance[r[i]]
  {
    RankDescProperties(importance, |importance|);
    TopOfAnyRanking(importance, RankDesc(importance, |importance|), k);
  }

  /** The same holds for every ranking that lists each sentence once by
      non-increasing importance, however it orders sentences of equal importance:
      such a tie changes which sentences are kept, not that the kept ones are the
      most important ones. */
  lemma TopOfAnyRanking(importance: seq<real>, rank: seq<nat>, k: nat)
    requires k <= |importance| == |rank|
    requires forall i :: 0 <= i < |rank| ==> rank[i] < |importance|
    requires SortedDesc(importance, rank)
    requires forall x: nat :: multiset(rank)[x] == if x < |importance| then 1 else 0
    ensures var n := |importance|;
            var r := InOriginalOrder(rank[..k], n);
            |r| == k &&
            forall i, u :: 0 <= i < |r| && 0 <= u < n && u !in r ==> importance[u] <= importance[r[i]]
  {
    var n := |importance|;
    var top := rank[..k];
    TopDistinct(rank, k);
    var r := InOriginalOrder(top, n);
    KeepsAllChosen(top, n);
    assert |r| == |multiset(r)| == |multiset(top)| == k;
    forall i, u | 0 <= i < |r| && 0 <= u < n && u !in r
      ensures importance[u] <= importance[r[i]]
    {
      assert multiset(rank)[u] == 1;
      assert u in multiset(rank);
      assert u !in multiset(top) by {
        assert u !in multiset(r);
      }
      assert r[i] in multiset(top) by {
        assert r[i] in multiset(r);
      }
      TopBeatsRest(importance, rank, k, r[i], u);
    }
  }

  /** Restoring reading order loses none of a list of distinct indices below `n`. */
  lemma KeepsAllChosen(chosen: seq<nat>, n: nat)
    requires Distinct(chosen)
    requires forall i :: 0 <= i < |chosen| ==> chosen[i] < n
    ensures multiset(InOriginalOrder(chosen, n)) == multiset(chosen)
  {
    var mr: multiset<nat> := multiset(InOriginalOrder(chosen, n));
    var mc: multiset<nat> := multiset(chosen);
    forall x: nat ensures mr[x] == mc[x] {
      DistinctCountsOnce(chosen, x);
      InOriginalOrderCounts(chosen, n, x);
    }
    assert mr == mc;
  }

  lemma TopDistinct(rank: seq<nat>, k: nat)
    requires k <= |rank|
    requires forall x :: multiset(rank)[x] <= 1
    ensures Distinct(rank[..k])
  {
    var top := rank[..k];
    forall i, j | 0 <= i < j < |top| ensures top[i] != top[j] {
      if top[i] == top[j] { TwiceCounted(rank, i, j); }
    }
  }

  /** An index among the first `k` of a ranking by non-increasing importance is at
      least as important as any index that every position of the ranking holds
      outside the first `k`. */
  lemma TopBeatsRest(importance: seq<real>, rank: seq<nat>, k: nat, s: nat, u: nat)
    requires k <= |rank|
    requires forall i :: 0 <= i < |rank| ==> rank[i] < |importance|
    requires SortedDesc(importance, rank)
    requires s in rank[..k] && u in rank && u !in rank[..k]
    ensures importance[u] <= importance[s]
  {
    var p :| 0 <= p < k && rank[p] == s;
    var q :| 0 <= q < |rank| && rank[q] == u;
  }

  /** `[sentences[i] for i in indices]`. */
  function Pick(sentences: seq<string>, indices: seq<nat>): (r: seq<string>)
    requires forall i :: 0 <= i < |indices| ==> indices[i] < |sentences|
    ensures |r| == |indices|
    ensures forall i :: 0 <= i < |r| ==> r[i] == sentences[indices[i]]
  {
    seq(|indices|, i requires 0 <= i < |indices| => sentences[indices[i]])
  }

  /** `summarize_text(text, max_sentences)`, given the sentence split of `text` and
      one importance value per sentence. The result is always whitespace-normalised;
      a text of at most `maxSentences` sentences comes back only cleaned, with its
      words unchanged; a longer one consists of exactly the words of the sentences
      `SelectIndices` keeps, in reading order. */
  function Summarize(text: string, sentences: seq<string>, importance: seq<real>, maxSentences: nat): (r: string)
    requires |importance| == |sentences|
    ensures Normalised(r)
    ensures |sentences| <= maxSentences ==> r == CleanText(text) && Words(r) == Words(text)
    ensures |sentences| > maxSentences ==>
              Words(r) == AllWords(Pick(sentences, SelectIndices(importance, maxSentences)))
  {
    if |sentences| <= maxSentences then CleanText(text)
    else
      var kept := SelectIndices(importance, maxSentences);
      WordsOfJoinAll(Pick(sentences, kept));
      CleanText(Join(" ", Pick(sentences, kept)))
  }
}
