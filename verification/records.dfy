/** The section record that flows from the parser through validation, scoring and
    selection. In the program it is a dictionary whose keys may be absent, and each
    stage reads it with its own default; `Option` fields and `Get` keep that. */
module Records {

  datatype Option<T> = None | Some(value: T)

  /** `d.get(key, default)` for a key that is present as `Some`. */
  function Get<T>(o: Option<T>, default: T): T {
    match o
    case Some(v) => v
    case None => default
  }

  /** A section dictionary: the keys "section_title", "text", "context", "summary",
      "page" and "document", each possibly missing. */
  datatype Section = Section(
    sectionTitle: Option<string>,
    text: Option<string>,
    context: Option<string>,
    summary: Option<string>,
    page: Option<int>,
    document: Option<string>)

  /** A `(score, section)` pair of a ranked list. */
  datatype Scored = Scored(score: real, section: Section)

  /** `section.get("section_title", section.get("text", ""))`: the heading as the
      validator, the scorer and the duplicate filter read it. */
  function HeadingOf(s: Section): string {
    Get(s.sectionTitle, Get(s.text, ""))
  }

  /** `section.get("summary", section.get("context", ""))`. */
  function SummaryOf(s: Section): string {
    Get(s.summary, Get(s.context, ""))
  }

  /** The sections of a ranked list, in order. */
  function SectionsOf(ranked: seq<Scored>): (r: seq<Section>)
    ensures |r| == |ranked|
    ensures forall i :: 0 <= i < |ranked| ==> r[i] == ranked[i].section
  {
    seq(|ranked|, i requires 0 <= i < |ranked| => ranked[i].section)
  }

  /** Every position in `idx` is a position of `xs`. */
  predicate InRange<T>(xs: seq<T>, idx: seq<nat>) {
    forall k :: 0 <= k < |idx| ==> idx[k] < |xs|
  }

  /** The elements at positions `idx`. */
  function At<T>(xs: seq<T>, idx: seq<nat>): (r: seq<T>)
    requires InRange(xs, idx)
    ensures |r| == |idx| && forall k :: 0 <= k < |idx| ==> r[k] == xs[idx[k]]
  {
    seq(|idx|, k requires 0 <= k < |idx| => xs[idx[k]])
  }

  lemma AtSnoc<T>(xs: seq<T>, idx: seq<nat>, i: nat)
    requires InRange(xs, idx) && i < |xs|
    ensures InRange(xs, idx + [i])
    ensures At(xs, idx + [i]) == At(xs, idx) + [xs[i]]
  {
  }
}
