/** The driver of the pipeline (`main.py`): the section validator, the per-file
    tagging loop, the query, the scoring fallback and the hand-over to the output
    generator. The directory listing, the parser's reading of each file and the
    scorer's models are inputs. */
module Pipeline {
  import opened Text
  import opened Records
  import Relevance
  import OutputGenerator

  // ---------------------------------------------------------------------------
  // validate_section

  /** Headings that name front or back matter rather than content. */
  const SkipHeadings: seq<string> := [
    "acknowledgment", "acknowledgments", "references", "bibliography",
    "table of contents", "index", "appendix", "glossary",
    "about the author", "about this book", "copyright",
    "introduction", "preface", "foreword"]

  /** `validate_section`. */
  function ValidateSection(s: Section): bool {
    var heading := Strip(HeadingOf(s));
    var context := Strip(Get(s.context, ""));
    if heading == [] || context == [] then false
    else if WordCount(heading) < 2 then false
    else if WordCount(context) < 10 then false
    else if Strip(Lower(heading)) in SkipHeadings then false
    else true
  }

  /** A section is worth keeping exactly when its stripped heading has at least two
      words, its stripped context at least ten, and its heading, lower-cased, is not
      exactly one of the skip headings: an empty heading or context has no words, so
      the emptiness test rejects nothing the word counts let through. */
  lemma ValidateSectionExact(s: Section)
    ensures ValidateSection(s) <==> && WordCount(Strip(HeadingOf(s))) >= 2
                                    && WordCount(Strip(Get(s.context, ""))) >= 10
                                    && Strip(Lower(Strip(HeadingOf(s)))) !in SkipHeadings
  {
  }

  /** The skip list matches whole headings only: among headings and contexts long
      enough, "Table of Contents" is rejected but "Appendix Tables", which merely
      contains a skip heading, passes. */
  lemma SkipListIsExact(s: Section)
    requires WordCount(Strip(HeadingOf(s))) >= 2 && WordCount(Strip(Get(s.context, ""))) >= 10
    ensures Strip(Lower(Strip(HeadingOf(s)))) == "table of contents" ==> !ValidateSection(s)
    ensures Strip(Lower(Strip(HeadingOf(s)))) == "appendix tables" ==> ValidateSection(s)
  {
    ValidateSectionExact(s);
    assert "appendix tables" !in SkipHeadings;
  }

  // ---------------------------------------------------------------------------
  // The tagging loop

  /** What the tagging loop writes into a valid section: "document" becomes the file
      name, and a missing "text" is filled from "section_title". */
  function Tag(s: Section, filename: string): (t: Section)
    ensures t.document == Some(filename) && t.text.Some?
    ensures t.text == s.text || s.text.None?
    ensures t.(document := s.document, text := s.text) == s
    ensures HeadingOf(t) == HeadingOf(s)
  {
    s.(document := Some(filename), text := if s.text.Some? then s.text else Some(Get(s.sectionTitle, "")))
  }

  /** Tagging changes neither the heading nor the context, so not the verdict. */
  lemma TagKeepsVerdict(s: Section, filename: string)
    ensures ValidateSection(Tag(s, filename)) == ValidateSection(s)
  {
    var t := Tag(s, filename);
    assert HeadingOf(t) == HeadingOf(s) && t.context == s.context;
  }

  /** The positions among the first `n` sections that `keep` accepts, in order. */
  function Positions(sections: seq<Section>, keep: Section -> bool, n: nat): (idx: seq<nat>)
    requires n <= |sections|
    ensures forall k :: 0 <= k < |idx| ==> idx[k] < n
  {
    if n == 0 then []
    else
      var prev := Positions(sections, keep, n - 1);
      if keep(sections[n - 1]) then prev + [n - 1] else prev
  }

  /** The sections at positions `idx`, tagged with the file name. */
  function TagAt(sections: seq<Section>, idx: seq<nat>, filename: string): (r: seq<Section>)
    requires InRange(sections, idx)
    ensures |r| == |idx| && forall k :: 0 <= k < |idx| ==> r[k] == Tag(sections[idx[k]], filename)
  {
    seq(|idx|, k requires 0 <= k < |idx| => Tag(sections[idx[k]], filename))
  }

  /** `valid_sections` for one file: its valid sections, in order, tagged. */
  function Validated(sections: seq<Section>, filename: string): seq<Section> {
    TagAt(sections, Positions(sections, ValidateSection, |sections|), filename)
  }

  /** The positions kept are, in order, exactly those whose section `keep` accepts. */
  lemma {:induction false} PositionsExact(sections: seq<Section>, keep: Section -> bool, n: nat)
    requires n <= |sections|
    ensures var idx := Positions(sections, keep, n);
            && (forall a, b :: 0 <= a < b < |idx| ==> idx[a] < idx[b])
            && (forall p :: 0 <= p < n ==> (p in idx <==> keep(sections[p])))
  {
    if n > 0 {
      PositionsExact(sections, keep, n - 1);
      var prev := Positions(sections, keep, n - 1);
      if keep(sections[n - 1]) {
        assert Positions(sections, keep, n) == prev + [n - 1];
      } else {
        assert Positions(sections, keep, n) == prev;
      }
    }
  }

  /** Every section the tagging loop keeps names its file, has a "text" field and
      passes the validator. */
  lemma ValidatedShape(sections: seq<Section>, filename: string)
    ensures var v := Validated(sections, filename);
            forall k :: 0 <= k < |v| ==> v[k].document == Some(filename) && v[k].text.Some? && ValidateSection(v[k])
  {
    var idx := Positions(sections, ValidateSection, |sections|);
    var v := Validated(sections, filename);
    PositionsExact(sections, ValidateSection, |sections|);
    forall k | 0 <= k < |v| ensures ValidateSection(v[k]) {
      assert idx[k] in idx;
      TagKeepsVerdict(sections[idx[k]], filename);
    }
  }

  /** The tagging loop of `main` for the sections extracted from one file, with the
      validator it calls passed in as `validate` (`main` passes `ValidateSection`). */
  method TagValidSections(sections: seq<Section>, validate: Section -> bool, filename: string)
    returns (validSections: seq<Section>)
    ensures validSections == TagAt(sections, Positions(sections, validate, |sections|), filename)
  {
    validSections := [];
    ghost var idx: seq<nat> := [];
    for i := 0 to |sections|
      invariant idx == Positions(sections, validate, i)
      invariant validSections == TagAt(sections, idx, filename)
    {
      var section := sections[i];
      if validate(section) {
        validSections := validSections + [Tag(section, filename)];
        idx := idx + [i];
      }
    }
  }

  // ---------------------------------------------------------------------------
  // Collecting the sections of every file

  /** A directory entry and what the parser made of it: `None` when reading or
      parsing the file raised. */
  datatype InputFile = InputFile(name: string, extracted: Option<seq<Section>>)

  /** `filename.endswith(".pdf")`, case-sensitive. */
  predicate IsPdfName(name: string) {
    |name| >= 4 && name[|name| - 4..] == ".pdf"
  }

  /** A file the loop processes to the end: a PDF name whose parsing did not raise. */
  predicate Processed(f: InputFile) {
    IsPdfName(f.name) && f.extracted.Some?
  }

  /** `document_list` after the first `n` directory entries. */
  function Documents(files: seq<InputFile>, n: nat): (r: seq<string>)
    requires n <= |files|
    ensures |r| <= n
  {
    if n == 0 then []
    else
      var f := files[n - 1];
      Documents(files, n - 1) + if Processed(f) then [f.name] else []
  }

  /** `all_sections` after the first `n` directory entries. */
  function AllSections(files: seq<InputFile>, n: nat): seq<Section>
    requires n <= |files|
  {
    if n == 0 then []
    else
      var f := files[n - 1];
      AllSections(files, n - 1) + if Processed(f) then Validated(f.extracted.value, f.name) else []
  }

  /** The sections all come from listed PDF files, tagged with their names, and pass
      the validator. */
  predicate FromListed(sections: seq<Section>, documents: seq<string>) {
    forall k :: 0 <= k < |sections| ==>
      sections[k].document.Some? && sections[k].document.value in documents && ValidateSection(sections[k])
  }

  /** Every listed document is a PDF name, and every collected section carries the
      name of a listed document and passes the validator. */
  lemma {:induction false} CollectedFromListed(files: seq<InputFile>, n: nat)
    requires n <= |files|
    ensures forall k :: 0 <= k < |Documents(files, n)| ==> IsPdfName(Documents(files, n)[k])
    ensures FromListed(AllSections(files, n), Documents(files, n))
  {
    if n > 0 {
      CollectedFromListed(files, n - 1);
      var f := files[n - 1];
      var docs := Documents(files, n);
      var prev := AllSections(files, n - 1);
      if Processed(f) {
        var v := Validated(f.extracted.value, f.name);
        ValidatedShape(f.extracted.value, f.name);
        assert f.name == docs[|docs| - 1];
        var all: seq<Section> := prev + v;
        assert AllSections(files, n) == all;
        forall k | 0 <= k < |all|
          ensures all[k].document.Some? && all[k].document.value in docs && ValidateSection(all[k])
        {
          if k >= |prev| {
            assert all[k] == v[k - |prev|];
          } else {
            assert all[k] == prev[k];
          }
        }
      }
    }
  }

  /** The file loop of `main`. */
  method CollectSections(files: seq<InputFile>) returns (allSections: seq<Section>, documentList: seq<string>)
    ensures allSections == AllSections(files, |files|) && documentList == Documents(files, |files|)
  {
    allSections := [];
    documentList := [];
    for i := 0 to |files|
      invariant allSections == AllSections(files, i) && documentList == Documents(files, i)
    {
      var filename := files[i].name;
      if !IsPdfName(filename) {
        continue;
      }
      match files[i].extracted {
        case None =>
          // the parser raised: the file is reported and skipped
          continue;
        case Some(sections) =>
          var validSections := TagValidSections(sections, ValidateSection, filename);
          allSections := allSections + validSections;
          documentList := documentList + [filename];
      }
    }
  }

  // ---------------------------------------------------------------------------
  // Scoring and the fallback

  /** `f"Persona: {persona}. Task: {job}"`: the persona and the job can be read back
      at fixed offsets. */
  function EnhancedQuery(persona: string, job: string): (q: string)
    ensures |q| == |persona| + |job| + 17
    ensures q[..9] == "Persona: " && q[9..9 + |persona|] == persona
    ensures q[9 + |persona|..17 + |persona|] == ". Task: " && q[17 + |persona|..] == job
  {
    "Persona: " + persona + ". Task: " + job
  }

  /** The similarity above which `main` drops a later heading. */
  const DuplicateThreshold: real := 0.7

  /** The ranking used when scoring raises: every section, in order, at 0.5. */
  function Fallback(sections: seq<Section>): (r: seq<Scored>)
    ensures |r| == |sections| && SectionsOf(r) == sections
    ensures forall k :: 0 <= k < |r| ==> r[k].score == 0.5
  {
    var r := seq(|sections|, k requires 0 <= k < |sections| => Scored(0.5, sections[k]));
    assert SectionsOf(r) == sections;
    r
  }

  /** The fallback is a ranking too: its scores do not increase. */
  lemma FallbackIsRanked(sections: seq<Section>)
    ensures Relevance.NonIncreasing(Fallback(sections))
  {
  }

  /** The ranking `main` hands to the output generator for a non-empty section list:
      the scored, sorted and de-duplicated sections, or the fallback when scoring
      raised. `tfidf` and `semantic` are the model similarities the scorer obtains. */
  function Ranked(query: string, sections: seq<Section>, matcher: string -> seq<string>,
                  tfidf: Option<seq<real>>, semantic: Option<seq<real>>, scoringRaises: bool): seq<Scored>
  {
    if scoringRaises then Fallback(sections)
    else
      var clean := Relevance.Clean(sections);
      var t := Relevance.TfidfUsed(tfidf, |clean|);
      var scored := Relevance.SortByScore(Relevance.Unsorted(query, clean, matcher, t, Relevance.SemanticUsed(semantic, t)));
      Relevance.Dedup(scored, DuplicateThreshold)
  }

  /** Every entry of `xs` ranks one of the sections of `pool`. */
  predicate DrawnFrom(xs: seq<Scored>, pool: seq<Section>) {
    forall k :: 0 <= k < |xs| ==> xs[k].section in pool
  }

  lemma SortKeepsDrawn(xs: seq<Scored>, pool: seq<Section>)
    requires DrawnFrom(xs, pool)
    ensures DrawnFrom(Relevance.SortByScore(xs), pool)
  {
    var r := Relevance.SortByScore(xs);
    forall k | 0 <= k < |r| ensures r[k].section in pool {
      assert r[k] in multiset(xs);
    }
  }

  lemma DedupKeepsDrawn(xs: seq<Scored>, threshold: real, pool: seq<Section>)
    requires DrawnFrom(xs, pool)
    ensures DrawnFrom(Relevance.Dedup(xs, threshold), pool)
  {
    Relevance.DedupIsSubsequence(xs, threshold);
  }

  lemma RanksOf(xs: seq<Scored>, pool: seq<Section>)
    requires SectionsOf(xs) == pool
    ensures DrawnFrom(xs, pool)
  {
    forall k | 0 <= k < |xs| ensures xs[k].section in pool {
      assert SectionsOf(xs)[k] == xs[k].section;
    }
  }

  /** A section that survives the heading filter was one of the input sections. */
  lemma CleanKeepsDrawn(xs: seq<Scored>, sections: seq<Section>)
    requires DrawnFrom(xs, Relevance.Clean(sections))
    ensures DrawnFrom(xs, sections)
  {
    forall k | 0 <= k < |xs| ensures xs[k].section in sections {
      var s := xs[k].section;
      Relevance.CleanDropsExactlyBlankHeadings(sections, s);
      assert s in multiset(Relevance.Clean(sections));
    }
  }

  /** Whatever happens in scoring, every ranked entry is one of the collected sections. */
  lemma RankedFromSections(query: string, sections: seq<Section>, matcher: string -> seq<string>,
                           tfidf: Option<seq<real>>, semantic: Option<seq<real>>, scoringRaises: bool)
    ensures DrawnFrom(Ranked(query, sections, matcher, tfidf, semantic, scoringRaises), sections)
  {
    if scoringRaises {
      RanksOf(Fallback(sections), sections);
    } else {
      var clean := Relevance.Clean(sections);
      var t := Relevance.TfidfUsed(tfidf, |clean|);
      var unsorted := Relevance.Unsorted(query, clean, matcher, t, Relevance.SemanticUsed(semantic, t));
      var scored := Relevance.SortByScore(unsorted);
      RanksOf(unsorted, clean);
      SortKeepsDrawn(unsorted, clean);
      DedupKeepsDrawn(scored, DuplicateThreshold, clean);
      CleanKeepsDrawn(Relevance.Dedup(scored, DuplicateThreshold), sections);
    }
  }

  /** Ranked entries come from the listed documents, so each has a "document". */
  lemma RankedFromListed(query: string, sections: seq<Section>, documents: seq<string>, matcher: string -> seq<string>,
                         tfidf: Option<seq<real>>, semantic: Option<seq<real>>, scoringRaises: bool)
    requires FromListed(sections, documents)
    ensures var r := Ranked(query, sections, matcher, tfidf, semantic, scoringRaises);
            forall k :: 0 <= k < |r| ==> r[k].section.document.Some? && r[k].section.document.value in documents
  {
    RankedFromSections(query, sections, matcher, tfidf, semantic, scoringRaises);
    var r := Ranked(query, sections, matcher, tfidf, semantic, scoringRaises);
    assert DrawnFrom(r, sections);
    forall k | 0 <= k < |r|
      ensures r[k].section.document.Some? && r[k].section.document.value in documents
    {
      var j :| 0 <= j < |sections| && sections[j] == r[k].section;
    }
  }

  // ---------------------------------------------------------------------------
  // main

  /** What `main` writes for the given directory entries: the metadata lists the
      processed PDFs, and the output generator receives an empty ranking when no
      section was collected, otherwise the ranking of the collected sections. */
  function PipelineRanking(files: seq<InputFile>, persona: string, job: string, matcher: string -> seq<string>,
                           tfidf: Option<seq<real>>, semantic: Option<seq<real>>, scoringRaises: bool): seq<Scored>
  {
    var all := AllSections(files, |files|);
    if all == [] then []
    else Ranked(EnhancedQuery(persona, job), all, matcher, tfidf, semantic, scoringRaises)
  }

  /** `main(input_dir, output_dir, persona, job)` over the listed directory entries,
      with the model similarities and whether scoring raises given. */
  method RunPipeline(files: seq<InputFile>, persona: string, job: string, matcher: string -> seq<string>,
              tfidf: Option<seq<real>>, semantic: Option<seq<real>>, scoringRaises: bool)
    returns (output: OutputGenerator.Output)
    ensures var documents := Documents(files, |files|);
            var final := OutputGenerator.Selected(PipelineRanking(files, persona, job, matcher, tfidf, semantic, scoringRaises), |documents|);
            && output.metadata == OutputGenerator.Metadata(documents, persona, job)
            && output.extractedSections == OutputGenerator.ExtractedOf(final)
            && output.subsectionAnalysis == OutputGenerator.AnalysisOf(final)
  {
    var allSections, documentList := CollectSections(files);
    if allSections == [] {
      output := OutputGenerator.GenerateCombinedOutput(documentList, persona, job, []);
      return;
    }
    var enhancedQuery := EnhancedQuery(persona, job);
    CollectedFromListed(files, |files|);
    RankedFromListed(enhancedQuery, allSections, documentList, matcher, tfidf, semantic, scoringRaises);
    ghost var expected := Ranked(enhancedQuery, allSections, matcher, tfidf, semantic, scoringRaises);
    assert OutputGenerator.HasDocuments(expected);
    var ranked;
    if scoringRaises {
      ranked := Fallback(allSections);
    } else {
      ranked := Relevance.ScoreSections(enhancedQuery, allSections, matcher, tfidf, semantic);
      ranked := Relevance.FilterDuplicates(ranked, DuplicateThreshold);
    }
    assert ranked == expected;
    output := OutputGenerator.GenerateCombinedOutput(documentList, persona, job, ranked);
  }

  /** What the pipeline promises about its output: at most five extracted sections,
      ranked 1, 2, ... in order, each from a processed PDF of the metadata and
      paired with an analysis entry for the same document and page. */
  lemma PipelineOutputShape(files: seq<InputFile>, persona: string, job: string, matcher: string -> seq<string>,
                        tfidf: Option<seq<real>>, semantic: Option<seq<real>>, scoringRaises: bool)
    ensures var documents := Documents(files, |files|);
            var final := OutputGenerator.Selected(PipelineRanking(files, persona, job, matcher, tfidf, semantic, scoringRaises), |documents|);
            var e := OutputGenerator.ExtractedOf(final);
            var a := OutputGenerator.AnalysisOf(final);
            && |e| == |a| <= OutputGenerator.MaxSections
            && (forall k :: 0 <= k < |e| ==> e[k].importanceRank == k + 1)
            && (forall k :: 0 <= k < |e| ==> e[k].document in documents && IsPdfName(e[k].document))
            && (forall k :: 0 <= k < |e| ==> e[k].document == a[k].document && e[k].pageNumber == a[k].pageNumber)
  {
    var documents := Documents(files, |files|);
    var all := AllSections(files, |files|);
    var ranked := PipelineRanking(files, persona, job, matcher, tfidf, semantic, scoringRaises);
    CollectedFromListed(files, |files|);
    if all != [] {
      RankedFromListed(EnhancedQuery(persona, job), all, documents, matcher, tfidf, semantic, scoringRaises);
    }
    OutputGenerator.OutputShape(ranked, |documents|);
    OutputGenerator.SelectedFromRanked(ranked, |documents|);
    var final := OutputGenerator.Selected(ranked, |documents|);
    var e := OutputGenerator.ExtractedOf(final);
    forall k | 0 <= k < |e| ensures e[k].document in documents && IsPdfName(e[k].document) {
      var j :| 0 <= j < |ranked| && ranked[j] == final[k];
      var d := e[k].document;
      assert d == ranked[j].section.document.value;
      var i :| 0 <= i < |documents| && documents[i] == d;
    }
  }
}
