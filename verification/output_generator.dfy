/** output_generator.py: the choice of at most five sections from the ranked list,
    spread over the documents, and the two arrays of the result record. Writing the
    JSON file and the timestamp are not modelled. */
module OutputGenerator {
  import opened Text
  import opened Records

  /** At most this many sections are reported. */
  const MaxSections: nat := 5

  function Max(a: int, b: int): int {
    if a >= b then a else b
  }

  /** `max(1, max_sections // max(len(documents), 1))`: the first pass's quota per
      document, by floor division. */
  function MaxPerDoc(numDocuments: nat): (q: int)
    ensures 1 <= q <= MaxSections
  {
    Max(1, MaxSections / Max(numDocuments, 1))
  }

  /** The quota is five for one document, two for two (rounded down, not up), and
      one from three documents on. */
  lemma MaxPerDocValues(numDocuments: nat)
    ensures numDocuments <= 1 ==> MaxPerDoc(numDocuments) == 5
    ensures numDocuments == 2 ==> MaxPerDoc(numDocuments) == 2
    ensures numDocuments >= 3 ==> MaxPerDoc(numDocuments) == 1
  {
    if numDocuments >= 3 {
      assert MaxSections / numDocuments <= 1 by {
        assert MaxSections < 2 * numDocuments;
      }
    }
  }

  /** `section["document"]`: every ranked section carries its file name. */
  predicate HasDocuments(xs: seq<Scored>) {
    forall i :: 0 <= i < |xs| ==> xs[i].section.document.Some?
  }

  function DocOf(s: Section): string {
    Get(s.document, "")
  }

  /** `section.get("section_title", "").strip()`. */
  function TitleOf(s: Section): string {
    Strip(Get(s.sectionTitle, ""))
  }

  /** `section.get("page", 1)`. */
  function PageOf(s: Section): int {
    Get(s.page, 1)
  }

  /** A title the selection accepts: not empty and at least three characters once
      stripped. */
  predicate TitleOk(s: Section) {
    |TitleOf(s)| >= 3
  }

  /** `(doc, section_title.lower(), page)`: what makes two ranked entries the same section. */
  datatype Key = Key(document: string, title: string, page: int)

  function KeyOf(s: Section): Key {
    Key(DocOf(s), Lower(TitleOf(s)), PageOf(s))
  }

  /** What the selection reads of a ranked entry: its key and whether its title is
      acceptable. */
  datatype Entry = Entry(key: Key, titleOk: bool)

  function EntryOf(s: Section): Entry {
    Entry(KeyOf(s), TitleOk(s))
  }

  function Entries(xs: seq<Scored>): (es: seq<Entry>)
    ensures |es| == |xs|
  {
    seq(|xs|, i requires 0 <= i < |xs| => EntryOf(xs[i].section))
  }

  lemma EntryAt(xs: seq<Scored>, i: nat)
    requires i < |xs|
    ensures Entries(xs)[i] == EntryOf(xs[i].section)
  {
  }

  /** `doc_counts.get(doc, 0)`. */
  function Count(counts: map<string, int>, doc: string): int {
    if doc in counts then counts[doc] else 0
  }

  /** The selection state: the positions picked (`final_sections`), `seen_sections`
      and `doc_counts`. */
  datatype Pass = Pass(picked: seq<nat>, seen: set<Key>, counts: map<string, int>)

  /** One entry of the first pass: skipped when its key was seen, its document has
      filled its quota, or its title is too short; picked otherwise. */
  function FirstStep(es: seq<Entry>, quota: int, p: Pass, i: nat): Pass
    requires i < |es|
  {
    var e := es[i];
    var doc := e.key.document;
    if e.key in p.seen || Count(p.counts, doc) >= quota || !e.titleOk then p
    else Pass(p.picked + [i], p.seen + {e.key}, p.counts[doc := Count(p.counts, doc) + 1])
  }

  /** The first pass over the first `n` entries; it stops once five are picked. */
  function FirstPass(es: seq<Entry>, quota: int, n: nat): Pass
    requires n <= |es|
  {
    if n == 0 then Pass([], {}, map[])
    else
      var p := FirstPass(es, quota, n - 1);
      if |p.picked| >= MaxSections then p else FirstStep(es, quota, p, n - 1)
  }

  /** One entry of the second pass: the quota no longer applies, and the counts are
      not updated. */
  function SecondStep(es: seq<Entry>, p: Pass, i: nat): Pass
    requires i < |es|
  {
    var e := es[i];
    if e.key in p.seen then p
    else if e.titleOk then p.(picked := p.picked + [i], seen := p.seen + {e.key})
    else p
  }

  /** The second pass over the first `n` entries, from the state the first pass left;
      it stops once no slot remains. */
  function SecondPass(es: seq<Entry>, start: Pass, n: nat): Pass
    requires n <= |es|
  {
    if n == 0 then start
    else
      var p := SecondPass(es, start, n - 1);
      if |p.picked| >= MaxSections then p else SecondStep(es, p, n - 1)
  }

  /** The second pass runs when the first picked fewer than five and left some entry out. */
  predicate Relaxes(n: nat, first: Pass) {
    |first.picked| < MaxSections && n > |first.picked|
  }

  /** The positions of the selected entries, in the order they are reported. */
  function Picks(es: seq<Entry>, numDocuments: nat): seq<nat> {
    var first := FirstPass(es, MaxPerDoc(numDocuments), |es|);
    if Relaxes(|es|, first) then SecondPass(es, first, |es|).picked else first.picked
  }

  /** The selected ranked entries, in the order they are reported. */
  function Selected(xs: seq<Scored>, numDocuments: nat): seq<Scored> {
    PicksInRange(Entries(xs), numDocuments);
    At(xs, Picks(Entries(xs), numDocuments))
  }

  // ---------------------------------------------------------------------------
  // The selection loops

  /** The first loop of `generate_combined_output`. */
  method SelectFirst(ranked: seq<Scored>, maxPerDoc: int, ghost es: seq<Entry>)
    returns (final: seq<Scored>, seenSections: set<Key>, docCounts: map<string, int>, ghost picked: seq<nat>)
    requires es == Entries(ranked)
    ensures Pass(picked, seenSections, docCounts) == FirstPass(es, maxPerDoc, |ranked|)
    ensures InRange(ranked, picked) && final == At(ranked, picked)
  {
    docCounts := map[];
    seenSections := {};
    final := [];
    picked := [];
    for i := 0 to |ranked|
      invariant Pass(picked, seenSections, docCounts) == FirstPass(es, maxPerDoc, i)
      invariant |picked| < MaxSections
      invariant InRange(ranked, picked) && final == At(ranked, picked)
    {
      FirstPassUnfold(es, maxPerDoc, i + 1);
      final, seenSections, docCounts, picked := ConsiderFirst(ranked, maxPerDoc, es, i, final, seenSections, docCounts, picked);
      if |final| >= MaxSections {
        FirstPassStops(es, maxPerDoc, i + 1, |ranked|);
        break;
      }
    }
  }

  /** One iteration of the first loop: the entry at `i` is skipped when its key was
      seen, its document filled its quota or its title is too short, and picked
      otherwise. */
  method ConsiderFirst(ranked: seq<Scored>, maxPerDoc: int, ghost es: seq<Entry>, i: nat,
                       final0: seq<Scored>, seen0: set<Key>, counts0: map<string, int>, ghost picked0: seq<nat>)
    returns (final: seq<Scored>, seenSections: set<Key>, docCounts: map<string, int>, ghost picked: seq<nat>)
    requires es == Entries(ranked) && i < |ranked|
    requires InRange(ranked, picked0) && final0 == At(ranked, picked0)
    ensures Pass(picked, seenSections, docCounts) == FirstStep(es, maxPerDoc, Pass(picked0, seen0, counts0), i)
    ensures InRange(ranked, picked) && final == At(ranked, picked)
  {
    final, seenSections, docCounts, picked := final0, seen0, counts0, picked0;
    // the key (document, lower-cased stripped title, page) and the title test
    var entry := EntryOf(ranked[i].section);
    var sectionKey, doc := entry.key, entry.key.document;
    EntryAt(ranked, i);
    if sectionKey in seenSections {
      return;
    }
    if Count(docCounts, doc) >= maxPerDoc {
      return;
    }
    if !entry.titleOk {
      return;
    }
    seenSections := seenSections + {sectionKey};
    docCounts := docCounts[doc := Count(docCounts, doc) + 1];
    AtSnoc(ranked, picked, i);
    final := final + [ranked[i]];
    picked := picked + [i];
  }

  /** The second loop of `generate_combined_output`. */
  method SelectSecond(ranked: seq<Scored>, final0: seq<Scored>, seen0: set<Key>, ghost es: seq<Entry>, ghost start: Pass)
    returns (final: seq<Scored>, ghost picked: seq<nat>)
    requires HasDocuments(ranked) && es == Entries(ranked)
    requires start.seen == seen0 && |start.picked| < MaxSections
    requires InRange(ranked, start.picked) && final0 == At(ranked, start.picked)
    ensures picked == SecondPass(es, start, |ranked|).picked
    ensures InRange(ranked, picked) && final == At(ranked, picked)
  {
    var seenSections := seen0;
    final := final0;
    picked := start.picked;
    var remainingSlots := MaxSections - |final|;
    for i := 0 to |ranked|
      invariant Pass(picked, seenSections, start.counts) == SecondPass(es, start, i)
      invariant InRange(ranked, picked) && final == At(ranked, picked)
      invariant remainingSlots == MaxSections - |picked|
    {
      if remainingSlots <= 0 {
        SecondPassStops(es, start, i, |ranked|);
        break;
      }
      var entry := EntryOf(ranked[i].section);
      var sectionKey := entry.key;
      EntryAt(ranked, i);
      assert SecondPass(es, start, i + 1) == SecondStep(es, SecondPass(es, start, i), i);
      if sectionKey in seenSections {
        continue;
      }
      if entry.titleOk {
        seenSections := seenSections + {sectionKey};
        AtSnoc(ranked, picked, i);
        final := final + [ranked[i]];
        picked := picked + [i];
        remainingSlots := remainingSlots - 1;
      }
    }
  }

  /** Both passes of `generate_combined_output` over a non-empty ranked list. */
  method SelectSections(ranked: seq<Scored>, numDocuments: nat) returns (final: seq<Scored>)
    requires HasDocuments(ranked)
    ensures final == Selected(ranked, numDocuments)
  {
    ghost var es := Entries(ranked);
    var maxPerDoc := Max(1, MaxSections / Max(numDocuments, 1));
    var seenSections, docCounts;
    ghost var picked;
    final, seenSections, docCounts, picked := SelectFirst(ranked, maxPerDoc, es);
    ghost var first := Pass(picked, seenSections, docCounts);
    if |final| < MaxSections && |ranked| > |final| {
      final, picked := SelectSecond(ranked, final, seenSections, es, first);
    }
  }

  /** Before the fifth pick the first pass takes one step per entry. */
  lemma FirstPassUnfold(es: seq<Entry>, quota: int, n: nat)
    requires 0 < n <= |es| && |FirstPass(es, quota, n - 1).picked| < MaxSections
    ensures FirstPass(es, quota, n) == FirstStep(es, quota, FirstPass(es, quota, n - 1), n - 1)
  {
  }

  /** After the fifth pick the first pass changes nothing. */
  lemma {:induction false} FirstPassStops(es: seq<Entry>, quota: int, n: nat, m: nat)
    requires n <= m <= |es| && |FirstPass(es, quota, n).picked| >= MaxSections
    ensures FirstPass(es, quota, m) == FirstPass(es, quota, n)
    decreases m - n
  {
    if n < m {
      FirstPassStops(es, quota, n, m - 1);
    }
  }

  /** Once no slot remains the second pass changes nothing. */
  lemma {:induction false} SecondPassStops(es: seq<Entry>, start: Pass, n: nat, m: nat)
    requires n <= m <= |es| && |SecondPass(es, start, n).picked| >= MaxSections
    ensures SecondPass(es, start, m) == SecondPass(es, start, n)
    decreases m - n
  {
    if n < m {
      SecondPassStops(es, start, n, m - 1);
    }
  }

  // ---------------------------------------------------------------------------
  // What the selection promises

  /** The keys of the entries at positions `idx`. */
  function KeySet(es: seq<Entry>, idx: seq<nat>): set<Key>
    requires InRange(es, idx)
  {
    if idx == [] then {}
    else KeySet(es, idx[..|idx| - 1]) + {es[idx[|idx| - 1]].key}
  }

  lemma {:induction false} KeySetHas(es: seq<Entry>, idx: seq<nat>, k: nat)
    requires InRange(es, idx) && k < |idx|
    ensures es[idx[k]].key in KeySet(es, idx)
    decreases |idx|
  {
    if k < |idx| - 1 {
      KeySetHas(es, idx[..|idx| - 1], k);
    }
  }

  /** How many of the entries at positions `idx` come from document `doc`. */
  function DocOccurrences(es: seq<Entry>, idx: seq<nat>, doc: string): nat
    requires InRange(es, idx)
  {
    if idx == [] then 0
    else DocOccurrences(es, idx[..|idx| - 1], doc) + if es[idx[|idx| - 1]].key.document == doc then 1 else 0
  }

  /** The invariant both passes keep: at most five picks, each with an acceptable
      title, no two with the same key, and `seen` holding exactly their keys. */
  ghost predicate Sound(es: seq<Entry>, p: Pass) {
    && |p.picked| <= MaxSections
    && InRange(es, p.picked)
    && (forall k :: 0 <= k < |p.picked| ==> es[p.picked[k]].titleOk)
    && (forall a, b :: 0 <= a < b < |p.picked| ==> es[p.picked[a]].key != es[p.picked[b]].key)
    && p.seen == KeySet(es, p.picked)
  }

  /** Positions from `from` on increase. */
  predicate IncreasingFrom(idx: seq<nat>, from: nat) {
    forall a, b :: from <= a < b < |idx| ==> idx[a] < idx[b]
  }

  /** The first pass's counts are the number of picks per document, none above the quota. */
  ghost predicate WithinQuota(es: seq<Entry>, quota: int, p: Pass)
    requires InRange(es, p.picked)
  {
    forall doc :: Count(p.counts, doc) == DocOccurrences(es, p.picked, doc) <= quota
  }

  /** Picking the entry at `i` keeps the pass sound when its key is new and its title
      acceptable. */
  lemma PickKeepsSound(es: seq<Entry>, p: Pass, i: nat)
    requires Sound(es, p) && |p.picked| < MaxSections && i < |es|
    requires es[i].key !in p.seen && es[i].titleOk
    ensures Sound(es, p.(picked := p.picked + [i], seen := p.seen + {es[i].key}))
  {
    var q := p.(picked := p.picked + [i], seen := p.seen + {es[i].key});
    assert q.picked[..|q.picked| - 1] == p.picked;
    forall a, b | 0 <= a < b < |q.picked| ensures es[q.picked[a]].key != es[q.picked[b]].key {
      if b == |p.picked| {
        KeySetHas(es, p.picked, a);
      }
    }
  }

  /** The state after the first pass picks the entry at `i`. */
  function Picked(es: seq<Entry>, p: Pass, i: nat): Pass
    requires i < |es|
  {
    var doc := es[i].key.document;
    Pass(p.picked + [i], p.seen + {es[i].key}, p.counts[doc := Count(p.counts, doc) + 1])
  }

  /** Picking the entry at `i` adds one to its document's count and to nobody else's. */
  lemma PickKeepsQuota(es: seq<Entry>, quota: int, p: Pass, i: nat)
    requires InRange(es, p.picked) && WithinQuota(es, quota, p) && i < |es|
    requires Count(p.counts, es[i].key.document) < quota
    ensures InRange(es, Picked(es, p, i).picked) && WithinQuota(es, quota, Picked(es, p, i))
  {
    var q := Picked(es, p, i);
    forall d ensures Count(q.counts, d) == DocOccurrences(es, q.picked, d) <= quota {
      PickCountsOne(es, quota, p, i, d);
    }
  }

  lemma PickCountsOne(es: seq<Entry>, quota: int, p: Pass, i: nat, d: string)
    requires InRange(es, p.picked) && WithinQuota(es, quota, p) && i < |es|
    requires Count(p.counts, es[i].key.document) < quota
    ensures InRange(es, Picked(es, p, i).picked)
    ensures Count(Picked(es, p, i).counts, d) == DocOccurrences(es, Picked(es, p, i).picked, d) <= quota
  {
    var q := Picked(es, p, i);
    assert q.picked[..|q.picked| - 1] == p.picked;
    assert Count(p.counts, d) == DocOccurrences(es, p.picked, d) <= quota;
    var one := if es[i].key.document == d then 1 else 0;
    assert DocOccurrences(es, q.picked, d) == DocOccurrences(es, p.picked, d) + one;
    assert Count(q.counts, d) == Count(p.counts, d) + one;
  }

  /** One step of the first pass either picks the entry or changes nothing. */
  lemma FirstPassStep(es: seq<Entry>, quota: int, n: nat)
    requires 0 < n <= |es|
    ensures var p := FirstPass(es, quota, n - 1);
            var e := es[n - 1];
            FirstPass(es, quota, n)
              == if |p.picked| < MaxSections && e.key !in p.seen && Count(p.counts, e.key.document) < quota && e.titleOk
                 then Picked(es, p, n - 1) else p
  {
  }

  /** The first pass picks at increasing positions below `n`. */
  lemma {:induction false} FirstPassOrdered(es: seq<Entry>, quota: int, n: nat)
    requires n <= |es|
    ensures var p := FirstPass(es, quota, n);
            IncreasingFrom(p.picked, 0) && (forall k :: 0 <= k < |p.picked| ==> p.picked[k] < n)
    decreases n
  {
    if n > 0 {
      FirstPassOrdered(es, quota, n - 1);
      FirstPassStep(es, quota, n);
    }
  }

  lemma {:induction false} FirstPassSound(es: seq<Entry>, quota: int, n: nat)
    requires n <= |es|
    ensures Sound(es, FirstPass(es, quota, n))
    decreases n
  {
    if n > 0 {
      FirstPassSound(es, quota, n - 1);
      FirstPassStep(es, quota, n);
      var p := FirstPass(es, quota, n - 1);
      var e := es[n - 1];
      if |p.picked| < MaxSections && e.key !in p.seen && Count(p.counts, e.key.document) < quota && e.titleOk {
        PickKeepsSound(es, p, n - 1);
        assert Picked(es, p, n - 1).picked == p.picked + [n - 1];
      }
    }
  }

  /** The first pass keeps every document within its quota. */
  lemma {:induction false} FirstPassQuota(es: seq<Entry>, quota: int, n: nat)
    requires n <= |es| && quota >= 0
    ensures InRange(es, FirstPass(es, quota, n).picked) && WithinQuota(es, quota, FirstPass(es, quota, n))
    decreases n
  {
    FirstPassOrdered(es, quota, n);
    if n > 0 {
      FirstPassQuota(es, quota, n - 1);
      FirstPassQuotaStep(es, quota, n);
    }
  }

  lemma FirstPassQuotaStep(es: seq<Entry>, quota: int, n: nat)
    requires 0 < n <= |es|
    requires InRange(es, FirstPass(es, quota, n - 1).picked) && WithinQuota(es, quota, FirstPass(es, quota, n - 1))
    requires InRange(es, FirstPass(es, quota, n).picked)
    ensures WithinQuota(es, quota, FirstPass(es, quota, n))
  {
    FirstPassStep(es, quota, n);
    var p := FirstPass(es, quota, n - 1);
    var e := es[n - 1];
    if |p.picked| < MaxSections && e.key !in p.seen && Count(p.counts, e.key.document) < quota && e.titleOk {
      PickKeepsQuota(es, quota, p, n - 1);
      assert FirstPass(es, quota, n) == Picked(es, p, n - 1);
    } else {
      assert FirstPass(es, quota, n) == p;
    }
  }

  /** One step of the second pass either picks the entry or changes nothing. */
  lemma SecondPassStep(es: seq<Entry>, start: Pass, n: nat)
    requires 0 < n <= |es|
    ensures var p := SecondPass(es, start, n - 1);
            var e := es[n - 1];
            SecondPass(es, start, n)
              == if |p.picked| < MaxSections && e.key !in p.seen && e.titleOk
                 then p.(picked := p.picked + [n - 1], seen := p.seen + {e.key}) else p
  {
  }

  /** The second pass appends increasing positions below `n` to the first pass's picks. */
  lemma {:induction false} SecondPassOrdered(es: seq<Entry>, start: Pass, n: nat)
    requires n <= |es|
    ensures var p := SecondPass(es, start, n);
            && start.picked <= p.picked
            && IncreasingFrom(p.picked, |start.picked|)
            && (forall k :: |start.picked| <= k < |p.picked| ==> p.picked[k] < n)
    decreases n
  {
    if n > 0 {
      SecondPassOrdered(es, start, n - 1);
      SecondPassStep(es, start, n);
    }
  }

  lemma {:induction false} SecondPassSound(es: seq<Entry>, start: Pass, n: nat)
    requires n <= |es| && Sound(es, start)
    ensures Sound(es, SecondPass(es, start, n))
    decreases n
  {
    if n > 0 {
      SecondPassSound(es, start, n - 1);
      SecondPassStep(es, start, n);
      var p := SecondPass(es, start, n - 1);
      var e := es[n - 1];
      if |p.picked| < MaxSections && e.key !in p.seen && e.titleOk {
        PickKeepsSound(es, p, n - 1);
      }
    }
  }

  lemma PicksInRange(es: seq<Entry>, numDocuments: nat)
    ensures InRange(es, Picks(es, numDocuments))
  {
    var first := FirstPass(es, MaxPerDoc(numDocuments), |es|);
    FirstPassSound(es, MaxPerDoc(numDocuments), |es|);
    FirstPassOrdered(es, MaxPerDoc(numDocuments), |es|);
    if Relaxes(|es|, first) {
      SecondPassSound(es, first, |es|);
      SecondPassOrdered(es, first, |es|);
    }
  }

  /** What the selection promises about the picked positions: at most five, each with
      an acceptable title, no two with the same key; the first pass's picks come first
      in input order and keep each document within its quota; the second pass, run
      only when the first picked fewer than five and left entries out, appends its
      picks in input order. */
  lemma PicksProperties(es: seq<Entry>, numDocuments: nat)
    ensures var sel := Picks(es, numDocuments);
            var first := FirstPass(es, MaxPerDoc(numDocuments), |es|);
            && InRange(es, sel)
            && |sel| <= MaxSections
            && (forall k :: 0 <= k < |sel| ==> es[sel[k]].titleOk)
            && (forall a, b :: 0 <= a < b < |sel| ==> es[sel[a]].key != es[sel[b]].key)
            && first.picked <= sel
            && IncreasingFrom(first.picked, 0)
            && InRange(es, first.picked)
            && (forall doc :: DocOccurrences(es, first.picked, doc) <= MaxPerDoc(numDocuments))
            && IncreasingFrom(sel, |first.picked|)
            && (!Relaxes(|es|, first) ==> sel == first.picked)
  {
    var quota := MaxPerDoc(numDocuments);
    FirstPassSound(es, quota, |es|);
    FirstPassOrdered(es, quota, |es|);
    FirstPassQuota(es, quota, |es|);
    var first := FirstPass(es, quota, |es|);
    if Relaxes(|es|, first) {
      SecondPassSound(es, first, |es|);
      SecondPassOrdered(es, first, |es|);
    }
  }

  /** The same promises about the ranked entries themselves: at most five selected,
      each with a stripped title of three characters or more, and no two sharing
      the key (document, lowered stripped title, page). */
  lemma SelectionProperties(xs: seq<Scored>, numDocuments: nat)
    ensures var sel := Selected(xs, numDocuments);
            && |sel| <= MaxSections
            && (forall k :: 0 <= k < |sel| ==> TitleOk(sel[k].section))
            && (forall a, b :: 0 <= a < b < |sel| ==> KeyOf(sel[a].section) != KeyOf(sel[b].section))
  {
    var es := Entries(xs);
    PicksProperties(es, numDocuments);
    var idx := Picks(es, numDocuments);
    var sel := Selected(xs, numDocuments);
    forall k | 0 <= k < |sel| ensures EntryOf(sel[k].section) == es[idx[k]] {
      EntryAt(xs, idx[k]);
    }
  }

  lemma SelectedKeepsDocuments(xs: seq<Scored>, numDocuments: nat)
    requires HasDocuments(xs)
    ensures HasDocuments(Selected(xs, numDocuments))
  {
    PicksInRange(Entries(xs), numDocuments);
    var idx := Picks(Entries(xs), numDocuments);
    assert forall k :: 0 <= k < |idx| ==> Selected(xs, numDocuments)[k] == xs[idx[k]];
  }

  /** Every selected entry is an entry of the ranked list. */
  lemma SelectedFromRanked(xs: seq<Scored>, numDocuments: nat)
    ensures forall k :: 0 <= k < |Selected(xs, numDocuments)| ==> Selected(xs, numDocuments)[k] in xs
  {
    PicksInRange(Entries(xs), numDocuments);
  }

  /** An empty ranked list selects nothing. */
  lemma SelectionOfNothing(numDocuments: nat)
    ensures Selected([], numDocuments) == []
  {
  }

  // ---------------------------------------------------------------------------
  // The result record

  /** An entry of "extracted_sections". */
  datatype ExtractedSection = ExtractedSection(document: string, sectionTitle: string, importanceRank: int, pageNumber: int)

  /** An entry of "subsection_analysis". */
  datatype SubsectionAnalysis = SubsectionAnalysis(document: string, refinedText: string, pageNumber: int)

  /** The "metadata" object, without the processing timestamp. */
  datatype Metadata = Metadata(inputDocuments: seq<string>, persona: string, jobToBeDone: string)

  datatype Output = Output(metadata: Metadata, extractedSections: seq<ExtractedSection>, subsectionAnalysis: seq<SubsectionAnalysis>)

  /** The text a refined entry starts from: the first non-empty of summary, context and
      title, stripped. */
  function RefinedSource(s: Section): string {
    var summary := Get(s.summary, "");
    var context := Get(s.context, "");
    Strip(if summary != [] then summary else if context != [] then context else Get(s.sectionTitle, ""))
  }

  /** What replaces a source of fewer than five words: "Section covering: " and the
      title (spelt here word by word). */
  function Fallback(s: Section): string {
    "Section" + (" " + ("covering:" + (" " + Get(s.sectionTitle, "Unknown topic"))))
  }

  /** The first hundred words of `t`, the last with "..." glued on, when `t` has more. */
  function Truncate(t: string): string {
    var words := Words(t);
    if |words| > 100 then Join(" ", words[..100]) + "..." else t
  }

  /** The "refined_text" of a section. */
  function RefinedText(s: Section): string {
    var source := RefinedSource(s);
    Truncate(if source == [] || WordCount(source) < 5 then Fallback(s) else source)
  }

  /** A truncated text has exactly a hundred words: the first ninety-nine of the
      original and its hundredth with "..." glued on. */
  lemma TruncateShape(t: string)
    ensures WordCount(Truncate(t)) <= 100
    ensures WordCount(t) <= 100 ==> Truncate(t) == t
    ensures WordCount(t) > 100 ==>
              Words(Truncate(t)) == Words(t)[..99] + [Words(t)[99] + "..."]
  {
    var words := Words(t);
    if |words| > 100 {
      var first := words[..100];
      JoinAppend(first, "...");
      var v := first[..99] + [first[99] + "..."];
      WordsAreWords(t);
      assert IsWord(first[99]);
      assert IsWord(first[99] + "...") by {
        var w := first[99] + "...";
        forall i | 0 <= i < |w| ensures !IsSpace(w[i]) {
          if i >= |first[99]| {
            assert w[i] == "..."[i - |first[99]|];
          }
        }
      }
      assert forall i :: 0 <= i < |v| ==> IsWord(v[i]) by {
        forall i | 0 <= i < |v| ensures IsWord(v[i]) {
          if i < 99 {
            assert v[i] == words[i];
          }
        }
      }
      WordsOfJoin(v);
      assert first[..99] == words[..99];
    }
  }

  /** "Section covering: " adds two words in front of the title's. */
  lemma FallbackWords(s: Section)
    ensures Words(Fallback(s)) == ["Section", "covering:"] + Words(Get(s.sectionTitle, "Unknown topic"))
  {
    var title := Get(s.sectionTitle, "Unknown topic");
    var rest := " " + ("covering:" + (" " + title));
    WordsOfWordThen("Section", rest);
    WordsOfBlankThen("covering:" + (" " + title));
    WordsOfWordThen("covering:", " " + title);
    WordsOfBlankThen(title);
  }

  /** A refined text has between two and a hundred words: a source of five to a
      hundred words is kept as it is, a shorter one is replaced by the fallback, and a
      longer one is cut to its first hundred words. */
  lemma RefinedTextShape(s: Section)
    ensures 2 <= WordCount(RefinedText(s)) <= 100
    ensures 5 <= WordCount(RefinedSource(s)) <= 100 ==> RefinedText(s) == RefinedSource(s)
    ensures WordCount(RefinedSource(s)) < 5 && WordCount(Get(s.sectionTitle, "Unknown topic")) <= 98 ==>
              RefinedText(s) == Fallback(s)
  {
    var source := RefinedSource(s);
    FallbackWords(s);
    if source == [] {
      assert Words(source) == [];
    }
    var t := if source == [] || WordCount(source) < 5 then Fallback(s) else source;
    TruncateShape(t);
  }

  /** The "extracted_sections" entry of the selected entry `x` at rank `rank`. */
  function ExtractedEntry(x: Scored, rank: int): ExtractedSection {
    ExtractedSection(DocOf(x.section), Get(x.section.sectionTitle, "Unknown Section"), rank, PageOf(x.section))
  }

  /** The "subsection_analysis" entry of the selected entry `x`. */
  function AnalysisEntry(x: Scored): SubsectionAnalysis {
    SubsectionAnalysis(DocOf(x.section), RefinedText(x.section), PageOf(x.section))
  }

  /** The entries of "extracted_sections" for the selected sections: ranks from 1. */
  function ExtractedOf(final: seq<Scored>): (r: seq<ExtractedSection>)
    ensures |r| == |final| && forall k :: 0 <= k < |final| ==> r[k] == ExtractedEntry(final[k], k + 1)
  {
    seq(|final|, k requires 0 <= k < |final| => ExtractedEntry(final[k], k + 1))
  }

  /** The entries of "subsection_analysis" for the selected sections. */
  function AnalysisOf(final: seq<Scored>): (r: seq<SubsectionAnalysis>)
    ensures |r| == |final| && forall k :: 0 <= k < |final| ==> r[k] == AnalysisEntry(final[k])
  {
    seq(|final|, k requires 0 <= k < |final| => AnalysisEntry(final[k]))
  }

  /** The result record of `generate_combined_output`, without the timestamp. */
  method GenerateCombinedOutput(documents: seq<string>, persona: string, job: string, ranked: seq<Scored>)
    returns (output: Output)
    requires HasDocuments(ranked)
    ensures output.metadata == Metadata(documents, persona, job)
    ensures var final := Selected(ranked, |documents|);
            output.extractedSections == ExtractedOf(final) && output.subsectionAnalysis == AnalysisOf(final)
  {
    output := Output(Metadata(documents, persona, job), [], []);
    if ranked == [] {
      SelectionOfNothing(|documents|);
      return;
    }
    var final := SelectSections(ranked, |documents|);
    SelectedKeepsDocuments(ranked, |documents|);
    var extracted := ExtractAll(final);
    var analysis := AnalyseAll(final);
    output := output.(extractedSections := extracted, subsectionAnalysis := analysis);
  }

  /** The "extracted_sections" loop, numbering from 1. */
  method ExtractAll(final: seq<Scored>) returns (extracted: seq<ExtractedSection>)
    requires HasDocuments(final)
    ensures extracted == ExtractedOf(final)
  {
    extracted := [];
    for rank := 0 to |final|
      invariant |extracted| == rank
      invariant forall k :: 0 <= k < rank ==> extracted[k] == ExtractedEntry(final[k], k + 1)
    {
      var section := final[rank].section;
      extracted := extracted + [ExtractedSection(section.document.value, Get(section.sectionTitle, "Unknown Section"),
                                                 rank + 1, Get(section.page, 1))];
    }
  }

  /** The "subsection_analysis" loop. */
  method AnalyseAll(final: seq<Scored>) returns (analysis: seq<SubsectionAnalysis>)
    requires HasDocuments(final)
    ensures analysis == AnalysisOf(final)
  {
    analysis := [];
    for k := 0 to |final|
      invariant |analysis| == k
      invariant forall j :: 0 <= j < k ==> analysis[j] == AnalysisEntry(final[j])
    {
      var section := final[k].section;
      var refinedText := RefinedText(section);
      analysis := analysis + [SubsectionAnalysis(section.document.value, refinedText, Get(section.page, 1))];
    }
  }

  /** What the record promises: ranks 1 to n without gaps, the two arrays of equal
      length at most five and agreeing on document and page entry by entry, every
      refined text between two and a hundred words, and both arrays empty for an
      empty ranked list. */
  lemma OutputShape(ranked: seq<Scored>, numDocuments: nat)
    ensures var final := Selected(ranked, numDocuments);
            var e := ExtractedOf(final);
            var a := AnalysisOf(final);
            && |e| == |a| <= MaxSections
            && (forall k :: 0 <= k < |e| ==> e[k].importanceRank == k + 1)
            && (forall k :: 0 <= k < |e| ==> e[k].document == a[k].document && e[k].pageNumber == a[k].pageNumber)
            && (forall k :: 0 <= k < |a| ==> 2 <= WordCount(a[k].refinedText) <= 100)
            && (ranked == [] ==> e == [] && a == [])
  {
    SelectionProperties(ranked, numDocuments);
    var final := Selected(ranked, numDocuments);
    forall k | 0 <= k < |final| ensures 2 <= WordCount(AnalysisOf(final)[k].refinedText) <= 100 {
      RefinedTextShape(final[k].section);
    }
  }
}
