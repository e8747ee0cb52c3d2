/** Section segmentation of pdf_parser.py: which lines are headings, which font is
    the body font, and how the stream of lines is cut into (heading, context)
    sections. The lines come from the PDF library and are inputs here; so is the
    summariser the assembler calls on long contexts. */
module PdfParser {
  import opened Text
  import opened Records

  /** A text run of a line: its text, font size and the library's flag bits. */
  datatype Span = Span(text: string, size: real, flags: nat)

  /** A line of a page as the extraction yields it: its text, its 1-based page and
      its non-empty spans. */
  datatype Line = Line(text: string, page: int, spans: seq<Span>)

  /** A `(size, is_bold)` key of the font statistics. */
  datatype FontKey = FontKey(size: real, bold: bool)

  /** `flags & 16 > 0`: bit 4 of the span flags marks bold text. */
  predicate IsBold(flags: nat) {
    (flags / 16) % 2 == 1
  }

  function KeyOf(s: Span): FontKey {
    FontKey(s.size, IsBold(s.flags))
  }

  // ---------------------------------------------------------------------------
  // Bullet points

  /** The nine bullet glyphs `is_bullet_point` and the heading filters look for. */
  predicate IsBulletGlyph(c: char) {
    c in "\U{2022}\U{25CF}-*\U{25AA}\U{2023}\U{27A4}\U{25E6}\U{2013}"
  }

  /** The regex `^\(?\d+[\.\)]`: an optional "(", digits, then "." or ")". */
  predicate NumberedMarker(t: string) {
    var u := if t != [] && t[0] == '(' then t[1..] else t;
    var d := RunLen(u, Digit);
    1 <= d < |u| && (u[d] == '.' || u[d] == ')')
  }

  /** The regex `^[a-zA-Z]\)`: one letter, then ")". */
  predicate LetterParen(t: string) {
    |t| >= 2 && IsAlpha(t[0]) && t[1] == ')'
  }

  /** `is_bullet_point`: the stripped text opens with a bullet glyph or an
      enumeration marker such as "(1)", "2." or "a)". Such a text is never empty
      and opens with a glyph, "(", a digit or a letter followed by ")". */
  function IsBulletPoint(text: string): (r: bool)
    ensures r ==> Strip(text) != []
    ensures Strip(text) != [] && IsBulletGlyph(Strip(text)[0]) ==> r
    ensures NumberedMarker(Strip(text)) || LetterParen(Strip(text)) ==> r
    ensures r ==> var t := Strip(text);
              IsBulletGlyph(t[0]) || t[0] == '(' || IsDigit(t[0]) || (IsAlpha(t[0]) && |t| >= 2 && t[1] == ')')
  {
    var t := Strip(text);
    if t != [] && IsBulletGlyph(t[0]) then true
    else if NumberedMarker(t) then true
    else if LetterParen(t) then true
    else false
  }

  // ---------------------------------------------------------------------------
  // Heading classification

  /** `text.endswith(('.', '!', '?', ';'))`. */
  predicate EndsWithTerminal(t: string) {
    EndsWith(t, '.') || EndsWith(t, '!') || EndsWith(t, '?') || EndsWith(t, ';')
  }

  /** `re.match('^' + w + r'[\s\d]', lt)`. */
  predicate WordThenSpaceOrDigit(lt: string, w: string) {
    |w| < |lt| && w <= lt && (IsSpace(lt[|w|]) || IsDigit(lt[|w|]))
  }

  /** `re.match('^' + w + r'[\s:]', lt)`. */
  predicate WordThenSpaceOrColon(lt: string, w: string) {
    |w| < |lt| && w <= lt && (IsSpace(lt[|w|]) || lt[|w|] == ':')
  }

  /** The ten skip patterns of `is_heading`, matched against the lower-cased text. */
  predicate SkipPattern(lt: string) {
    // just numbers
    (lt != [] && RunLen(lt, Digit) == |lt|)
    // roman numerals
    || (lt != [] && forall i :: 0 <= i < |lt| ==> lt[i] in "ivxlcdm")
    // lower-case bullet
    || (|lt| >= 2 && IsLower(lt[0]) && (lt[1] == '.' || lt[1] == ')'))
    // just parenthesised content
    || (|lt| >= 3 && lt[0] == '(' && lt[|lt| - 1] == ')' && forall i :: 1 <= i < |lt| - 1 ==> lt[i] != ')')
    // bullets
    || (lt != [] && IsBulletGlyph(lt[0]))
    // (1), 1.
    || NumberedMarker(lt)
    // a), b)
    || LetterParen(lt)
    // whitespace only
    || (forall i :: 0 <= i < |lt| ==> IsSpace(lt[i]))
    // captions
    || WordThenSpaceOrDigit(lt, "figure") || WordThenSpaceOrDigit(lt, "table")
    || WordThenSpaceOrDigit(lt, "fig") || WordThenSpaceOrDigit(lt, "tab")
    // references
    || WordThenSpaceOrColon(lt, "see") || WordThenSpaceOrColon(lt, "refer")
    || WordThenSpaceOrColon(lt, "source") || WordThenSpaceOrColon(lt, "note")
  }

  /** Header and footer noise: one of the eight keywords occurs in the lower-cased text. */
  predicate FooterNoise(lt: string) {
    Contains(lt, "page") || Contains(lt, "chapter") || Contains(lt, "section")
    || Contains(lt, "www.") || Contains(lt, "http") || Contains(lt, "@")
    || Contains(lt, "copyright") || Contains(lt, "\U{A9}")
  }

  /** `^[A-Z][a-z]+(\s+[A-Z][a-z]+)*$`: capitalised words separated by whitespace. */
  predicate TitleCase(t: string)
    decreases |t|
  {
    |t| >= 2 && IsUpper(t[0]) &&
    var n := 1 + RunLen(t[1..], LowerCase);
    n >= 2 &&
    (n == |t| ||
     (var m := n + RunLen(t[n..], Space);
      n < m < |t| && TitleCase(t[m..])))
  }

  /** The four positive patterns: a numbered heading ("3 Results", "3. Results"),
      title case, all capitals, decimal numbering ("2.1"). */
  predicate PositivePattern(t: string) {
    var d := RunLen(t, Digit);
    (1 <= d < |t| && (t[d] == '.' || IsSpace(t[d])))
    || TitleCase(t)
    || (t != [] && RunLen(t, UpperOrSpace) == |t|)
    || (1 <= d < |t| && t[d] == '.' && RunLen(t[d + 1..], Digit) >= 1)
  }

  /** `size >= body_size + 0.5` for the first span of a line. */
  predicate IsLarger(s: Span, body: FontKey) {
    s.size >= body.size + 0.5
  }

  /** `is_bold and not body_is_bold` for the first span of a line. */
  predicate IsEmphasized(s: Span, body: FontKey) {
    IsBold(s.flags) && !body.bold
  }

  predicate StartsUpperOrDigit(t: string) {
    t != [] && (IsUpper(t[0]) || IsDigit(t[0]))
  }

  /** The rejection rules of `is_heading`, taken together and in no order: a line
      that fails any of them is never a heading. */
  predicate PassesRejections(line: Line, body: FontKey) {
    var t := Strip(line.text);
    && !IsBulletPoint(t)
    && |t| >= 3
    && WordCount(t) <= 20
    && !EndsWithTerminal(t)
    && !SkipPattern(Lower(t))
    && !FooterNoise(Lower(t))
    && line.spans != []
    && (IsLarger(line.spans[0], body) || IsEmphasized(line.spans[0], body))
    && StartsUpperOrDigit(t)
  }

  /** The nested `is_heading` of `extract_headings_with_context`, against the body
      font `body`: a cascade of rejections, then the positive patterns, then the
      size test. Whatever the font, an accepted line has 3 to 20 words' worth of
      text, no terminal punctuation and no footer keyword; its first span is larger
      than the body font or bold over a regular body font; its text starts with a
      capital or a digit; and without a positive pattern it must be larger and
      either emphasised or of at most 8 words, so bold alone is not enough. */
  function IsHeading(line: Line, body: FontKey): (r: bool)
    ensures r <==> (PassesRejections(line, body) &&
                    (PositivePattern(Strip(line.text)) ||
                     (IsLarger(line.spans[0], body) &&
                      (IsEmphasized(line.spans[0], body) || WordCount(Strip(line.text)) <= 8))))
    ensures r ==> 3 <= |Strip(line.text)| && WordCount(Strip(line.text)) <= 20
    ensures r ==> !EndsWithTerminal(Strip(line.text)) && !FooterNoise(Lower(Strip(line.text)))
    ensures r && !PositivePattern(Strip(line.text)) ==> IsLarger(line.spans[0], body)
  {
    var t := Strip(line.text);
    if IsBulletPoint(t) then false
    else if t == [] || |t| < 3 then false
    else if WordCount(t) > 20 then false
    else if EndsWithTerminal(t) then false
    else if SkipPattern(Lower(t)) then false
    else if FooterNoise(Lower(t)) then false
    else if line.spans == [] then false
    else
      var main := line.spans[0];
      var larger := IsLarger(main, body);
      var emphasized := IsEmphasized(main, body);
      if !(larger || emphasized) then false
      else if !(IsUpper(t[0]) || IsDigit(t[0])) then false
      else if PositivePattern(t) then true
      else larger && (emphasized || WordCount(t) <= 8)
  }

  // ---------------------------------------------------------------------------
  // Lines and font statistics

  /** A line as the PDF library yields it: its 1-based page and its raw spans. */
  datatype RawLine = RawLine(page: int, spans: seq<Span>)

  /** A span whose stripped text is non-empty: only those are kept and counted. */
  predicate Counted(s: Span) {
    Strip(s.text) != []
  }

  /** The kept spans of a raw line, in order, each with its text stripped. */
  function Kept(spans: seq<Span>): seq<Span>
    decreases |spans|
  {
    if spans == [] then []
    else
      var s := spans[|spans| - 1];
      var t := Strip(s.text);
      Kept(spans[..|spans| - 1]) + (if t == [] then [] else [Span(t, s.size, s.flags)])
  }

  /** `line_text`: the stripped text of every kept span followed by a blank. */
  function Glue(spans: seq<Span>): string
    decreases |spans|
  {
    if spans == [] then []
    else
      var s := spans[|spans| - 1];
      var t := Strip(s.text);
      Glue(spans[..|spans| - 1]) + (if t == [] then [] else t + " ")
  }

  /** The glued text of a raw line has a non-blank character exactly when the line
      has a kept span. */
  lemma {:induction false} GlueBlank(spans: seq<Span>)
    ensures Kept(spans) == [] <==> forall i :: 0 <= i < |Glue(spans)| ==> IsSpace(Glue(spans)[i])
    decreases |spans|
  {
    if spans != [] {
      var pre := spans[..|spans| - 1];
      var t := Strip(spans[|spans| - 1].text);
      GlueBlank(pre);
      if t != [] {
        assert Glue(spans)[|Glue(pre)|] == t[0];
        assert |Kept(spans)| == |Kept(pre)| + 1;
      } else {
        assert Glue(spans) == Glue(pre);
      }
    }
  }

  /** A raw line becomes a line when its glued text is not blank; the line keeps
      the stripped glued text, the page and the kept spans. */
  function BuildLine(r: RawLine): Option<Line> {
    var t := Strip(Glue(r.spans));
    if t == [] then None else Some(Line(t, r.page, Kept(r.spans)))
  }

  /** The lines of `spans_data`, in reading order. */
  function BuiltLines(raws: seq<RawLine>): seq<Line>
    decreases |raws|
  {
    if raws == [] then []
    else
      var prev := BuiltLines(raws[..|raws| - 1]);
      match BuildLine(raws[|raws| - 1])
      case None => prev
      case Some(line) => prev + [line]
  }

  /** A raw line is kept exactly when it has a span with text, and a kept line has
      a non-blank text and at least one span, so the heading test always finds a
      first span. */
  lemma BuildLineShape(r: RawLine)
    ensures BuildLine(r).Some? <==> Kept(r.spans) != []
    ensures BuildLine(r).Some? ==> Strip(BuildLine(r).value.text) != [] && BuildLine(r).value.spans != []
  {
    GlueBlank(r.spans);
    var t := Strip(Glue(r.spans));
    if t != [] {
      StripKeepsStripped(t);
    }
  }

  /** The spans of all raw lines, in reading order. */
  function AllSpans(raws: seq<RawLine>): seq<Span>
    decreases |raws|
  {
    if raws == [] then [] else AllSpans(raws[..|raws| - 1]) + raws[|raws| - 1].spans
  }

  /** The number of words a span adds to the statistics. */
  function Weight(s: Span): nat {
    WordCount(Strip(s.text))
  }

  /** `font_stats`: a dictionary from `(size, is_bold)` keys to word counts, with its
      keys in insertion order as Python keeps them. */
  datatype FontStats = FontStats(keys: seq<FontKey>, words: map<FontKey, nat>)

  /** The keys are distinct and are exactly the keys that have a count. */
  ghost predicate WellFormed(d: FontStats) {
    && (forall i, j :: 0 <= i < j < |d.keys| ==> d.keys[i] != d.keys[j])
    && (forall k :: k in d.keys <==> k in d.words)
  }

  /** `font_stats[key] += n` on a `defaultdict(int)`: a missing key is first added at
      the end with count 0; the other keys and counts are unchanged. */
  function AddWords(d: FontStats, key: FontKey, n: nat): (r: FontStats)
    requires WellFormed(d)
    ensures WellFormed(r)
    ensures key in r.words && r.words[key] == (if key in d.words then d.words[key] else 0) + n
    ensures forall k :: k != key ==> (k in r.words <==> k in d.words)
    ensures forall k :: k != key && k in d.words ==> r.words[k] == d.words[k]
    ensures r.keys == if key in d.words then d.keys else d.keys + [key]
  {
    if key in d.words then FontStats(d.keys, d.words[key := d.words[key] + n])
    else FontStats(d.keys + [key], d.words[key := n])
  }

  /** The statistics of some spans: every span with text adds its words under its key. */
  function Tally(spans: seq<Span>): (d: FontStats)
    decreases |spans|
    ensures WellFormed(d)
  {
    if spans == [] then FontStats([], map[])
    else
      var prev := Tally(spans[..|spans| - 1]);
      var s := spans[|spans| - 1];
      if !Counted(s) then prev else AddWords(prev, KeyOf(s), Weight(s))
  }

  /** The statistics after one more span. */
  lemma TallySnoc(spans: seq<Span>, s: Span)
    ensures Tally(spans + [s]) == if !Counted(s) then Tally(spans) else AddWords(Tally(spans), KeyOf(s), Weight(s))
  {
    assert (spans + [s])[..|spans|] == spans;
  }

  /** `max(keys, key=counts.get)`: the first key whose count no other key exceeds. */
  function FirstMaxIndex(keys: seq<FontKey>, counts: map<FontKey, nat>): (j: nat)
    requires |keys| > 0
    requires forall i :: 0 <= i < |keys| ==> keys[i] in counts
    ensures j < |keys|
    ensures forall i :: 0 <= i < |keys| ==> counts[keys[i]] <= counts[keys[j]]
    ensures forall i :: 0 <= i < j ==> counts[keys[i]] < counts[keys[j]]
    decreases |keys|
  {
    if |keys| == 1 then 0
    else
      var b := FirstMaxIndex(keys[..|keys| - 1], counts);
      if counts[keys[|keys| - 1]] > counts[keys[b]] then |keys| - 1 else b
  }

  /** The body font of a document: the `(size, is_bold)` key with the most words
      (the first such key in dictionary order on a tie), or nothing when no span has
      any text. */
  function BodyFont(raws: seq<RawLine>): (r: Option<FontKey>)
    ensures r.None? <==> Tally(AllSpans(raws)).words == map[]
    ensures r.Some? ==> var m := Tally(AllSpans(raws)).words;
              r.value in m && forall k :: k in m ==> m[k] <= m[r.value]
  {
    var d := Tally(AllSpans(raws));
    if d.keys == [] then
      assert forall k :: k !in d.words;
      None
    else
      assert d.keys[0] in d.words;
      Some(d.keys[FirstMaxIndex(d.keys, d.words)])
  }

  // ---------------------------------------------------------------------------
  // The statistics do not depend on the order of the spans

  /** The words one span adds under `k`. */
  function Contribution(s: Span, k: FontKey): nat {
    if Counted(s) && KeyOf(s) == k then Weight(s) else 0
  }

  /** The words that the spans with text and key `k` add up to. */
  function KeyWords(spans: seq<Span>, k: FontKey): nat
    decreases |spans|
  {
    if spans == [] then 0
    else KeyWords(spans[..|spans| - 1], k) + Contribution(spans[|spans| - 1], k)
  }

  /** Some span with text has key `k`. */
  predicate HasKey(spans: seq<Span>, k: FontKey) {
    exists s :: s in spans && Counted(s) && KeyOf(s) == k
  }

  /** A key is in the statistics exactly when some span with text has it, and its
      count is the sum of the words of those spans. */
  lemma {:induction false} TallyCounts(spans: seq<Span>, k: FontKey)
    ensures k in Tally(spans).words <==> HasKey(spans, k)
    ensures k in Tally(spans).words ==> Tally(spans).words[k] == KeyWords(spans, k)
    decreases |spans|
  {
    if spans != [] {
      var init := spans[..|spans| - 1];
      var s := spans[|spans| - 1];
      TallyCounts(init, k);
      assert spans == init + [s];
      assert HasKey(spans, k) <==> HasKey(init, k) || (Counted(s) && KeyOf(s) == k);
      if !HasKey(init, k) {
        assert KeyWords(init, k) == 0 by { NoKeyNoWords(init, k); }
      }
    }
  }

  /** Without a span with text and key `k` nothing is counted under `k`. */
  lemma {:induction false} NoKeyNoWords(spans: seq<Span>, k: FontKey)
    requires !HasKey(spans, k)
    ensures KeyWords(spans, k) == 0
    decreases |spans|
  {
    if spans != [] {
      var init := spans[..|spans| - 1];
      assert forall s :: s in init ==> s in spans;
      NoKeyNoWords(init, k);
    }
  }

  /** The count of two runs of spans is the sum of their counts. */
  lemma {:induction false} KeyWordsAppend(a: seq<Span>, b: seq<Span>, k: FontKey)
    ensures KeyWords(a + b, k) == KeyWords(a, k) + KeyWords(b, k)
    decreases |b|
  {
    if b == [] {
      assert a + b == a;
    } else {
      var init := b[..|b| - 1];
      assert (a + b)[..|a + b| - 1] == a + init;
      KeyWordsAppend(a, init, k);
    }
  }

  /** Taking one span out of a run takes out its contribution. */
  lemma KeyWordsRemove(b: seq<Span>, i: nat, k: FontKey)
    requires i < |b|
    ensures KeyWords(b, k) == KeyWords(b[..i] + b[i + 1..], k) + Contribution(b[i], k)
  {
    assert b == b[..i] + [b[i]] + b[i + 1..];
    KeyWordsAppend(b[..i] + [b[i]], b[i + 1..], k);
    KeyWordsAppend(b[..i], [b[i]], k);
    KeyWordsAppend(b[..i], b[i + 1..], k);
    assert [b[i]][..0] == [];
  }

  /** Reordering the spans does not change any count. */
  lemma {:induction false} KeyWordsPermutation(a: seq<Span>, b: seq<Span>, k: FontKey)
    requires multiset(a) == multiset(b)
    ensures KeyWords(a, k) == KeyWords(b, k)
    decreases |a|
  {
    if a != [] {
      var s := a[|a| - 1];
      assert s in multiset(a);
      var i :| 0 <= i < |b| && b[i] == s;
      RemoveMatching(a, b, i);
      KeyWordsPermutation(a[..|a| - 1], b[..i] + b[i + 1..], k);
      KeyWordsRemove(b, i, k);
    }
  }

  /** Taking the last span of `a` and a copy of it in `b` out of two reorderings of
      each other leaves two reorderings of each other. */
  lemma RemoveMatching(a: seq<Span>, b: seq<Span>, i: nat)
    requires multiset(a) == multiset(b) && a != [] && i < |b| && b[i] == a[|a| - 1]
    ensures multiset(a[..|a| - 1]) == multiset(b[..i] + b[i + 1..])
  {
    var x := b[i];
    var init, rest := a[..|a| - 1], b[..i] + b[i + 1..];
    assert a == init + [x];
    assert b == b[..i] + [x] + b[i + 1..];
    assert multiset(a) == multiset(init) + multiset{x};
    assert multiset(b) == multiset(b[..i]) + multiset{x} + multiset(b[i + 1..]);
    assert multiset(rest) == multiset(b[..i]) + multiset(b[i + 1..]);
    assert multiset(b) == multiset(rest) + multiset{x};
    forall y ensures multiset(init)[y] == multiset(rest)[y] {
      assert multiset(a)[y] == multiset(b)[y];
    }
  }

  /** `font_stats` holds the same keys and counts for every order of the spans; only
      the order of its keys, which decides ties, depends on the order of the spans. */
  lemma TallyPermutation(a: seq<Span>, b: seq<Span>)
    requires multiset(a) == multiset(b)
    ensures Tally(a).words == Tally(b).words
  {
    var ma, mb := Tally(a).words, Tally(b).words;
    forall k
      ensures k in ma <==> k in mb
      ensures k in ma ==> ma[k] == mb[k]
    {
      TallyCounts(a, k);
      TallyCounts(b, k);
      assert HasKey(a, k) <==> HasKey(b, k) by {
        forall s ensures s in a <==> s in b {
          assert s in a <==> s in multiset(a);
          assert s in b <==> s in multiset(b);
        }
      }
      KeyWordsPermutation(a, b, k);
    }
  }

  /** A key with strictly more words than every other key is the body font. */
  lemma BodyFontUniqueMax(raws: seq<RawLine>, k: FontKey)
    requires var m := Tally(AllSpans(raws)).words;
             k in m && forall j :: j in m && j != k ==> m[j] < m[k]
    ensures BodyFont(raws) == Some(k)
  {
  }

  /** When one key has strictly the most words, the body font is the same for every
      order of the spans; only a tie makes it depend on the order. */
  lemma BodyFontOrderFree(a: seq<RawLine>, b: seq<RawLine>, k: FontKey)
    requires multiset(AllSpans(a)) == multiset(AllSpans(b))
    requires var m := Tally(AllSpans(a)).words;
             k in m && forall j :: j in m && j != k ==> m[j] < m[k]
    ensures BodyFont(a) == Some(k) && BodyFont(b) == Some(k)
  {
    TallyPermutation(AllSpans(a), AllSpans(b));
    BodyFontUniqueMax(a, k);
    BodyFontUniqueMax(b, k);
  }

  /** Glue and kept spans after one more span. */
  lemma LineSnoc(spans: seq<Span>, s: Span)
    ensures var t := Strip(s.text);
            Glue(spans + [s]) == Glue(spans) + (if t == [] then [] else t + " ")
    ensures var t := Strip(s.text);
            Kept(spans + [s]) == Kept(spans) + (if t == [] then [] else [Span(t, s.size, s.flags)])
  {
    assert (spans + [s])[..|spans|] == spans;
  }

  /** The lines and spans after one more raw line. */
  lemma RawSnoc(raws: seq<RawLine>, i: nat)
    requires i < |raws|
    ensures AllSpans(raws[..i + 1]) == AllSpans(raws[..i]) + raws[i].spans
    ensures BuiltLines(raws[..i + 1]) == match BuildLine(raws[i])
                                         case None => BuiltLines(raws[..i])
                                         case Some(line) => BuiltLines(raws[..i]) + [line]
  {
    assert raws[..i + 1][..i] == raws[..i];
  }

  /** The inner loop of the collection: the spans of one raw line, glued, kept and
      added to the statistics gathered so far over the spans `seen`. */
  method ScanSpans(spans: seq<Span>, ghost seen: seq<Span>, stats0: FontStats)
    returns (lineText: string, lineSpans: seq<Span>, stats: FontStats)
    requires stats0 == Tally(seen)
    ensures lineText == Glue(spans) && lineSpans == Kept(spans)
    ensures stats == Tally(seen + spans)
  {
    lineText := [];
    lineSpans := [];
    stats := stats0;
    assert seen + spans[..0] == seen;
    for j := 0 to |spans|
      invariant lineText == Glue(spans[..j])
      invariant lineSpans == Kept(spans[..j])
      invariant stats == Tally(seen + spans[..j])
    {
      assert spans[..j + 1] == spans[..j] + [spans[j]];
      assert seen + spans[..j + 1] == (seen + spans[..j]) + [spans[j]];
      TallySnoc(seen + spans[..j], spans[j]);
      LineSnoc(spans[..j], spans[j]);
      var text := Strip(spans[j].text);
      if text != [] {
        lineText := lineText + (text + " ");
        lineSpans := lineSpans + [Span(text, spans[j].size, spans[j].flags)];
        stats := AddWords(stats, KeyOf(spans[j]), WordCount(text));
      }
    }
    assert spans[..|spans|] == spans;
  }

  /** The collection loop of `extract_headings_with_context`: for every raw line, glue
      the stripped texts of its spans with a blank after each, keep the spans with
      text, add each one's word count to the statistics under its key (creating the
      key on first use), and keep the line when its glued text is not blank. */
  method CollectLines(raws: seq<RawLine>) returns (lines: seq<Line>, stats: FontStats)
    ensures lines == BuiltLines(raws)
    ensures stats == Tally(AllSpans(raws))
  {
    lines := [];
    stats := FontStats([], map[]);
    for i := 0 to |raws|
      invariant lines == BuiltLines(raws[..i])
      invariant stats == Tally(AllSpans(raws[..i]))
    {
      RawSnoc(raws, i);
      var lineText, lineSpans;
      lineText, lineSpans, stats := ScanSpans(raws[i].spans, AllSpans(raws[..i]), stats);
      var t := Strip(lineText);
      if t != [] {
        lines := lines + [Line(t, raws[i].page, lineSpans)];
      }
    }
    assert raws[..|raws|] == raws;
  }

  // ---------------------------------------------------------------------------
  // Section assembly

  /** The first heading at or after line `i`, or `|lines|` when there is none. */
  function NextHeading(lines: seq<Line>, isHeading: Line -> bool, i: nat): (j: nat)
    requires i <= |lines|
    decreases |lines| - i
    ensures i <= j <= |lines|
    ensures forall x :: i <= x < j ==> !isHeading(lines[x])
    ensures j < |lines| ==> isHeading(lines[j])
  {
    if i == |lines| || isHeading(lines[i]) then i else NextHeading(lines, isHeading, i + 1)
  }

  lemma {:induction false} NextHeadingSkips(lines: seq<Line>, isHeading: Line -> bool, a: nat, b: nat)
    requires a <= b <= |lines|
    requires forall x :: a <= x < b ==> !isHeading(lines[x])
    ensures NextHeading(lines, isHeading, a) == NextHeading(lines, isHeading, b)
    decreases b - a
  {
    if a < b {
      NextHeadingSkips(lines, isHeading, a + 1, b);
    }
  }

  /** Where a section is cut from the stream: its heading line `head`, and the end
      (exclusive) of the context lines that follow it. */
  datatype Cut = Cut(head: nat, end: nat)

  /** `c` is the cut of a heading line: its context runs up to the next heading. */
  predicate IsCut(lines: seq<Line>, isHeading: Line -> bool, c: Cut) {
    c.head < c.end <= |lines| && isHeading(lines[c.head])
    && c.end == NextHeading(lines, isHeading, c.head + 1)
  }

  /** The cuts from position `h` on, where `h` is a heading line or the end of the
      stream: they start at `h`, each ends where the next begins, and the last ends
      with the stream, so every line from `h` on belongs to exactly one cut. */
  function CutsAt(lines: seq<Line>, isHeading: Line -> bool, h: nat): (cs: seq<Cut>)
    requires h <= |lines|
    requires h < |lines| ==> isHeading(lines[h])
    decreases |lines| - h
    ensures forall k :: 0 <= k < |cs| ==> h <= cs[k].head && IsCut(lines, isHeading, cs[k])
    ensures cs == [] <==> h == |lines|
    ensures cs != [] ==> cs[0].head == h && cs[|cs| - 1].end == |lines|
    ensures forall k :: 0 <= k < |cs| - 1 ==> cs[k].end == cs[k + 1].head
  {
    if h == |lines| then []
    else
      var e := NextHeading(lines, isHeading, h + 1);
      var rest := CutsAt(lines, isHeading, e);
      ConsCut(lines, isHeading, Cut(h, e), rest);
      [Cut(h, e)] + rest
  }

  /** A cut in front of the cuts that start where it ends. */
  lemma ConsCut(lines: seq<Line>, isHeading: Line -> bool, c: Cut, rest: seq<Cut>)
    requires IsCut(lines, isHeading, c)
    requires forall k :: 0 <= k < |rest| ==> c.end <= rest[k].head && IsCut(lines, isHeading, rest[k])
    requires rest == [] <==> c.end == |lines|
    requires rest != [] ==> rest[0].head == c.end && rest[|rest| - 1].end == |lines|
    requires forall k :: 0 <= k < |rest| - 1 ==> rest[k].end == rest[k + 1].head
    ensures forall k :: 0 <= k < |[c] + rest| ==> c.head <= ([c] + rest)[k].head && IsCut(lines, isHeading, ([c] + rest)[k])
    ensures ([c] + rest)[|rest|].end == |lines|
    ensures forall k :: 0 <= k < |rest| ==> ([c] + rest)[k].end == ([c] + rest)[k + 1].head
  {
    var cs := [c] + rest;
    forall k | 0 <= k < |cs| ensures c.head <= cs[k].head && IsCut(lines, isHeading, cs[k]) {
      if k > 0 {
        assert cs[k] == rest[k - 1];
      }
    }
    forall k | 0 <= k < |rest| ensures cs[k].end == cs[k + 1].head {
      assert cs[k + 1] == rest[k];
      if k > 0 {
        assert cs[k] == rest[k - 1];
      }
    }
  }

  /** The cuts of the lines from `i` on: one per heading line at or after `i`. */
  function Cuts(lines: seq<Line>, isHeading: Line -> bool, i: nat): seq<Cut>
    requires i <= |lines|
  {
    CutsAt(lines, isHeading, NextHeading(lines, isHeading, i))
  }

  lemma CutsSkip(lines: seq<Line>, isHeading: Line -> bool, a: nat, b: nat)
    requires a <= b <= |lines|
    requires forall x :: a <= x < b ==> !isHeading(lines[x])
    ensures Cuts(lines, isHeading, a) == Cuts(lines, isHeading, b)
  {
    NextHeadingSkips(lines, isHeading, a, b);
  }

  /** The texts of the lines from `a` up to (not including) `b`, in order. */
  function TextsBetween(lines: seq<Line>, a: nat, b: nat): (r: seq<string>)
    requires a <= b <= |lines|
    decreases b - a
    ensures |r| == b - a
    ensures forall x :: a <= x < b ==> r[x - a] == lines[x].text
  {
    if a == b then [] else TextsBetween(lines, a, b - 1) + [lines[b - 1].text]
  }

  /** Closing a section whose heading and context lines are present: a context that
      is blank once joined yields nothing; otherwise one section whose summary is
      the summariser's output only when the context has more than 40 words. */
  function Finalise(title: string, page: int, context: seq<string>, summarize: string -> string): (r: seq<Section>)
    ensures |r| <= 1
  {
    var full := Strip(Join(" ", context));
    if full == [] then []
    else
      var summarized := if WordCount(full) > 40 then summarize(full) else full;
      [Section(Some(title), Some(title), Some(full), Some(summarized), Some(page), None)]
  }

  /** The section closed at the end of cut `c`: nothing when the heading text is
      empty or no line followed it, else what `Finalise` makes of it. */
  function SectionOf(lines: seq<Line>, c: Cut, summarize: string -> string): (r: seq<Section>)
    requires c.head < c.end <= |lines|
    ensures |r| <= 1
  {
    var title := lines[c.head].text;
    var context := TextsBetween(lines, c.head + 1, c.end);
    if title == [] || context == [] then [] else Finalise(title, lines[c.head].page, context, summarize)
  }

  predicate CutsIn(lines: seq<Line>, cs: seq<Cut>) {
    forall k :: 0 <= k < |cs| ==> cs[k].head < cs[k].end <= |lines|
  }

  /** The sections closed along some cuts, in order. */
  function Closed(lines: seq<Line>, cs: seq<Cut>, summarize: string -> string): seq<Section>
    requires CutsIn(lines, cs)
    decreases |cs|
  {
    if cs == [] then []
    else Closed(lines, cs[..|cs| - 1], summarize) + SectionOf(lines, cs[|cs| - 1], summarize)
  }

  lemma ClosedSnoc(lines: seq<Line>, cs: seq<Cut>, c: Cut, summarize: string -> string)
    requires CutsIn(lines, cs) && c.head < c.end <= |lines|
    ensures CutsIn(lines, cs + [c])
    ensures Closed(lines, cs + [c], summarize) == Closed(lines, cs, summarize) + SectionOf(lines, c, summarize)
  {
    assert (cs + [c])[..|cs|] == cs;
  }

  /** The sections of the lines from `i` on, defined heading by heading rather than
      line by line: one per cut, from the heading's own line and the lines up to the
      next heading. Lines before the first heading belong to no section, and a
      heading followed at once by another heading, or by the end of the stream,
      yields nothing. */
  function SectionsFrom(lines: seq<Line>, isHeading: Line -> bool, summarize: string -> string, i: nat): seq<Section>
    requires i <= |lines|
  {
    Closed(lines, Cuts(lines, isHeading, i), summarize)
  }

  /** Section `s` was opened by line `h`: its title and "text" are that line's text,
      its page that line's page, and its context the joined text of the lines after
      it up to the next heading. */
  predicate OpenedBy(s: Section, lines: seq<Line>, isHeading: Line -> bool, h: nat)
    requires h < |lines|
  {
    && isHeading(lines[h])
    && s.sectionTitle == Some(lines[h].text)
    && s.text == Some(lines[h].text)
    && s.page == Some(lines[h].page)
    && s.context == Some(Strip(Join(" ", TextsBetween(lines, h + 1, NextHeading(lines, isHeading, h + 1)))))
  }

  /** A section's context is present and non-blank, and its summary is the context
      itself unless the context has more than 40 words. */
  predicate SummaryRule(s: Section) {
    && s.context.Some? && s.summary.Some? && Strip(s.context.value) != []
    && (WordCount(s.context.value) <= 40 ==> s.summary == s.context)
  }

  /** The section a cut closes, if any, was opened by its heading line and obeys the
      summary rule. */
  lemma SectionOfShape(lines: seq<Line>, isHeading: Line -> bool, c: Cut, summarize: string -> string)
    requires IsCut(lines, isHeading, c)
    ensures var r := SectionOf(lines, c, summarize);
            r != [] ==> SummaryRule(r[0]) && OpenedBy(r[0], lines, isHeading, c.head)
  {
    var r := SectionOf(lines, c, summarize);
    if r != [] {
      var full := Strip(Join(" ", TextsBetween(lines, c.head + 1, c.end)));
      assert r[0].context == Some(full);
      StripKeepsStripped(full);
    }
  }

  /** Every section closed along some cuts is the one section of one of them. */
  lemma {:induction false} ClosedFromCuts(lines: seq<Line>, cs: seq<Cut>, summarize: string -> string)
    requires CutsIn(lines, cs)
    ensures forall s :: s in Closed(lines, cs, summarize) ==>
              exists c :: c in cs && c.head < c.end <= |lines| && SectionOf(lines, c, summarize) == [s]
    decreases |cs|
  {
    if cs != [] {
      var pre := cs[..|cs| - 1];
      var last := cs[|cs| - 1];
      ClosedFromCuts(lines, pre, summarize);
      var a := Closed(lines, pre, summarize);
      var b := SectionOf(lines, last, summarize);
      assert Closed(lines, cs, summarize) == a + b;
      forall s | s in a + b
        ensures exists c :: c in cs && c.head < c.end <= |lines| && SectionOf(lines, c, summarize) == [s]
      {
        if s in a {
          var c :| c in pre && c.head < c.end <= |lines| && SectionOf(lines, c, summarize) == [s];
          assert c in cs;
        } else {
          assert b == [s];
          assert last in cs;
        }
      }
    }
  }

  /** Every section cut from the lines from `i` on was opened by a heading line at or
      after `i`, carries that line's text and page, takes as context exactly the
      lines between it and the next heading, and obeys the summary rule. */
  lemma SectionsComeFromHeadings(lines: seq<Line>, isHeading: Line -> bool, summarize: string -> string, i: nat)
    requires i <= |lines|
    ensures var r := SectionsFrom(lines, isHeading, summarize, i);
            forall k :: 0 <= k < |r| ==>
              SummaryRule(r[k]) && exists h :: i <= h < |lines| && OpenedBy(r[k], lines, isHeading, h)
  {
    var cs := Cuts(lines, isHeading, i);
    var r := SectionsFrom(lines, isHeading, summarize, i);
    ClosedFromCuts(lines, cs, summarize);
    forall k | 0 <= k < |r|
      ensures SummaryRule(r[k]) && exists h :: i <= h < |lines| && OpenedBy(r[k], lines, isHeading, h)
    {
      assert r[k] in r;
      var c :| c in cs && c.head < c.end <= |lines| && SectionOf(lines, c, summarize) == [r[k]];
      CutOfCuts(lines, isHeading, i, c);
      SectionOfShape(lines, isHeading, c, summarize);
      assert OpenedBy(r[k], lines, isHeading, c.head);
    }
  }

  /** A cut of the lines from `i` on is the cut of a heading line at or after `i`. */
  lemma CutOfCuts(lines: seq<Line>, isHeading: Line -> bool, i: nat, c: Cut)
    requires i <= |lines| && c in Cuts(lines, isHeading, i)
    ensures i <= c.head && IsCut(lines, isHeading, c)
  {
    var cs := Cuts(lines, isHeading, i);
    var k :| 0 <= k < |cs| && cs[k] == c;
  }

  /** The final filter: keep the sections whose context has at least 5 words. */
  function KeepSubstantial(sections: seq<Section>): (r: seq<Section>)
    ensures forall k :: 0 <= k < |r| ==> r[k] in sections && WordCount(Get(r[k].context, "")) >= 5
    ensures forall s :: s in sections && WordCount(Get(s.context, "")) >= 5 ==> s in r
  {
    if sections == [] then []
    else
      var rest := KeepSubstantial(sections[1..]);
      if WordCount(Get(sections[0].context, "")) >= 5 then [sections[0]] + rest else rest
  }

  /** The nested `is_heading`, closed over the document's body font. */
  function HeadingTest(body: FontKey): Line -> bool {
    line => IsHeading(line, body)
  }

  /** What `extract_headings_with_context` returns for a document: nothing when no
      span has text, otherwise the substantial sections of its lines cut at the body
      font's headings. */
  function ExtractedSections(raws: seq<RawLine>, summarize: string -> string): seq<Section>
  {
    match BodyFont(raws)
    case None => []
    case Some(body) => KeepSubstantial(SectionsFrom(BuiltLines(raws), HeadingTest(body), summarize, 0))
  }

  /** A section assembled from the lines was opened by a heading line and obeys the
      summary rule. */
  lemma AssembledSectionShape(lines: seq<Line>, isHeading: Line -> bool, summarize: string -> string, s: Section)
    requires s in SectionsFrom(lines, isHeading, summarize, 0)
    ensures exists h :: 0 <= h < |lines| && OpenedBy(s, lines, isHeading, h)
    ensures s.context.Some? && (WordCount(s.context.value) <= 40 ==> s.summary == s.context)
  {
    var all := SectionsFrom(lines, isHeading, summarize, 0);
    SectionsComeFromHeadings(lines, isHeading, summarize, 0);
    var j :| 0 <= j < |all| && all[j] == s;
    assert SummaryRule(all[j]);
  }

  /** Every section `extract_headings_with_context` returns was opened by a line
      accepted as a heading against the body font, on that line's page, so a
      document without text has no section; its context has at least 5 words, and
      its summary is its context whenever the context has at most 40 words. */
  lemma ExtractedSectionShape(raws: seq<RawLine>, summarize: string -> string, s: Section)
    requires s in ExtractedSections(raws, summarize)
    ensures BodyFont(raws).Some?
    ensures exists h :: 0 <= h < |BuiltLines(raws)| && OpenedBy(s, BuiltLines(raws), HeadingTest(BodyFont(raws).value), h)
    ensures s.context.Some? && WordCount(s.context.value) >= 5
    ensures WordCount(s.context.value) <= 40 ==> s.summary == s.context
  {
    var body := BodyFont(raws).value;
    var all := SectionsFrom(BuiltLines(raws), HeadingTest(body), summarize, 0);
    assert s in all && WordCount(Get(s.context, "")) >= 5;
    AssembledSectionShape(BuiltLines(raws), HeadingTest(body), summarize, s);
  }

  /** Closing the section opened at line `open` when line `i` is the next heading or
      the end of the stream: the cuts done so far grow by that section's cut. */
  lemma CloseStep(lines: seq<Line>, isHeading: Line -> bool, done: seq<Cut>, open: nat, i: nat)
    requires open < i <= |lines| && isHeading(lines[open])
    requires forall x :: open < x < i ==> !isHeading(lines[x])
    requires i < |lines| ==> isHeading(lines[i])
    requires CutsIn(lines, done) && done + Cuts(lines, isHeading, open) == Cuts(lines, isHeading, 0)
    ensures (done + [Cut(open, i)]) + Cuts(lines, isHeading, i) == Cuts(lines, isHeading, 0)
  {
    NextHeadingSkips(lines, isHeading, open + 1, i);
    CutsAtHeading(lines, isHeading, open, i);
    Regroup(done, Cut(open, i), Cuts(lines, isHeading, i));
  }

  lemma Regroup<T>(a: seq<T>, x: T, b: seq<T>)
    ensures (a + [x]) + b == a + ([x] + b)
  {
  }

  /** From a heading line on, the cuts are that heading's own, then those from the
      next heading on. */
  lemma CutsAtHeading(lines: seq<Line>, isHeading: Line -> bool, open: nat, i: nat)
    requires open < i <= |lines| && isHeading(lines[open])
    requires NextHeading(lines, isHeading, open + 1) == i
    ensures Cuts(lines, isHeading, open) == [Cut(open, i)] + Cuts(lines, isHeading, i)
  {
    assert NextHeading(lines, isHeading, open) == open;
    assert NextHeading(lines, isHeading, i) == i;
    assert CutsAt(lines, isHeading, open) == [Cut(open, i)] + CutsAt(lines, isHeading, i);
  }

  /** What the streaming loop closes for the open heading `title` with the context
      it gathered is the section of the heading's cut. */
  lemma SectionOfOpen(lines: seq<Line>, open: nat, i: nat, title: string, page: int, context: seq<string>, summarize: string -> string)
    requires open < i <= |lines|
    requires title == lines[open].text && page == lines[open].page
    requires title != [] ==> context == TextsBetween(lines, open + 1, i)
    ensures SectionOf(lines, Cut(open, i), summarize) == if title != [] && context != [] then Finalise(title, page, context, summarize) else []
  {
  }

  /** Closing the open section when line `i` is the next heading or the end of the
      stream: its cut joins the ones done, and what the loop closes for it joins the
      sections closed so far. */
  lemma CloseSection(lines: seq<Line>, isHeading: Line -> bool, summarize: string -> string, i: nat,
                     open: nat, title: string, page: int, context: seq<string>, done: seq<Cut>, raw: seq<Section>)
    requires i <= |lines| && (i < |lines| ==> isHeading(lines[i]))
    requires OpenAt(lines, isHeading, i, open, title, page, context)
    requires ClosedBefore(lines, isHeading, summarize, open, done, raw)
    ensures ClosedBefore(lines, isHeading, summarize, i, done + [Cut(open, i)],
                         if title != [] && context != [] then raw + Finalise(title, page, context, summarize) else raw)
  {
    CloseStep(lines, isHeading, done, open, i);
    ClosedSnoc(lines, done, Cut(open, i), summarize);
    SectionOfOpen(lines, open, i, title, page, context, summarize);
    assert raw + [] == raw;
  }

  /** A heading line just read opens a section with no context yet. */
  lemma OpenFresh(lines: seq<Line>, isHeading: Line -> bool, i: nat)
    requires i < |lines| && isHeading(lines[i])
    ensures OpenAt(lines, isHeading, i + 1, i, lines[i].text, lines[i].page, [])
  {
  }

  /** The open section: the heading at line `open` (before line `i`) with its text
      and page, followed by lines that are not headings, whose texts `context` holds
      when the heading is not blank. */
  predicate OpenAt(lines: seq<Line>, isHeading: Line -> bool, i: nat, open: nat, title: string, page: int, context: seq<string>)
    requires i <= |lines|
  {
    && open < i && isHeading(lines[open]) && title == lines[open].text && page == lines[open].page
    && (title != [] ==> context == TextsBetween(lines, open + 1, i))
    && (forall x :: open < x < i ==> !isHeading(lines[x]))
  }

  /** The sections closed before the heading at line `open`: those of the cuts
      `done`, which together with the cuts from `open` on are all the stream's cuts. */
  ghost predicate ClosedBefore(lines: seq<Line>, isHeading: Line -> bool, summarize: string -> string,
                               open: nat, done: seq<Cut>, raw: seq<Section>)
    requires open <= |lines|
  {
    && CutsIn(lines, done) && done + Cuts(lines, isHeading, open) == Cuts(lines, isHeading, 0)
    && raw == Closed(lines, done, summarize)
  }

  /** The state of the streaming loop before line `i`: no heading seen yet (so
      nothing closed), or a section open and the ones before it closed. */
  ghost predicate Streaming(lines: seq<Line>, isHeading: Line -> bool, summarize: string -> string, i: nat,
                            heading: Option<string>, context: seq<string>, page: int, raw: seq<Section>,
                            open: nat, done: seq<Cut>)
    requires i <= |lines|
  {
    match heading
    case None => done == [] && NextHeading(lines, isHeading, 0) >= i && raw == []
    case Some(title) =>
      OpenAt(lines, isHeading, i, open, title, page, context) && ClosedBefore(lines, isHeading, summarize, open, done, raw)
  }

  /** Before the first heading no cut is done and nothing is closed. */
  lemma NothingClosed(lines: seq<Line>, isHeading: Line -> bool, summarize: string -> string, i: nat)
    requires i <= |lines| && NextHeading(lines, isHeading, 0) >= i
    ensures ClosedBefore(lines, isHeading, summarize, i, [], [])
  {
    CutsSkip(lines, isHeading, 0, i);
    var cs := Cuts(lines, isHeading, i);
    assert Cuts(lines, isHeading, 0) == cs;
    assert [] + cs == cs;
    assert CutsIn(lines, []);
    assert Closed(lines, [], summarize) == [];
  }

  /** The first heading line opens a section and closes nothing. */
  lemma StreamFirstHeading(lines: seq<Line>, isHeading: Line -> bool, summarize: string -> string, i: nat,
                           context: seq<string>, page: int, raw: seq<Section>, open: nat, done: seq<Cut>)
    requires i < |lines| && isHeading(lines[i])
    requires Streaming(lines, isHeading, summarize, i, None, context, page, raw, open, done)
    ensures Streaming(lines, isHeading, summarize, i + 1, Some(lines[i].text), [], lines[i].page, raw, i, done)
  {
    NothingClosed(lines, isHeading, summarize, i);
    OpenFresh(lines, isHeading, i);
  }

  /** A later heading line closes the open section and opens its own. */
  lemma StreamNextHeading(lines: seq<Line>, isHeading: Line -> bool, summarize: string -> string, i: nat,
                          title: string, context: seq<string>, page: int, raw: seq<Section>, open: nat, done: seq<Cut>)
    requires i < |lines| && isHeading(lines[i])
    requires Streaming(lines, isHeading, summarize, i, Some(title), context, page, raw, open, done)
    ensures Streaming(lines, isHeading, summarize, i + 1, Some(lines[i].text), [], lines[i].page,
                      if title != [] && context != [] then raw + Finalise(title, page, context, summarize) else raw,
                      i, done + [Cut(open, i)])
  {
    CloseSection(lines, isHeading, summarize, i, open, title, page, context, done, raw);
    OpenFresh(lines, isHeading, i);
  }

  /** A line that is not a heading extends the open section. */
  lemma OpenGrows(lines: seq<Line>, isHeading: Line -> bool, i: nat, open: nat, title: string, page: int, context: seq<string>)
    requires i < |lines| && !isHeading(lines[i])
    requires OpenAt(lines, isHeading, i, open, title, page, context)
    ensures OpenAt(lines, isHeading, i + 1, open, title, page, if title != [] then context + [lines[i].text] else context)
  {
  }

  /** Any other line joins the open section's context when its heading is not blank. */
  lemma StreamText(lines: seq<Line>, isHeading: Line -> bool, summarize: string -> string, i: nat,
                   heading: Option<string>, context: seq<string>, page: int, raw: seq<Section>, open: nat, done: seq<Cut>)
    requires i < |lines| && !isHeading(lines[i])
    requires Streaming(lines, isHeading, summarize, i, heading, context, page, raw, open, done)
    ensures Streaming(lines, isHeading, summarize, i + 1, heading,
                      if heading.Some? && heading.value != [] then context + [lines[i].text] else context,
                      page, raw, open, done)
  {
    if heading.Some? {
      OpenGrows(lines, isHeading, i, open, heading.value, page, context);
    }
  }

  /** The end of the stream closes the open section, if any. */
  lemma StreamEnd(lines: seq<Line>, isHeading: Line -> bool, summarize: string -> string,
                  heading: Option<string>, context: seq<string>, page: int, raw: seq<Section>, open: nat, done: seq<Cut>)
    requires Streaming(lines, isHeading, summarize, |lines|, heading, context, page, raw, open, done)
    ensures SectionsFrom(lines, isHeading, summarize, 0)
            == if heading.Some? && heading.value != [] && context != [] then raw + Finalise(heading.value, page, context, summarize) else raw
  {
    if heading.Some? {
      CloseSection(lines, isHeading, summarize, |lines|, open, heading.value, page, context, done, raw);
      assert (done + [Cut(open, |lines|)]) + Cuts(lines, isHeading, |lines|) == done + [Cut(open, |lines|)];
    } else {
      CutsSkip(lines, isHeading, 0, |lines|);
    }
  }

  /** One line of the streaming loop of `extract_headings_with_context`: a heading
      line closes the open section (if any) and opens its own; any other line joins
      the open section's context, and is dropped while no section is open or the
      open heading is blank. */
  method Feed(lines: seq<Line>, isHeading: Line -> bool, summarize: string -> string, i: nat,
              heading: Option<string>, context: seq<string>, page: int, raw: seq<Section>,
              ghost open: nat, ghost done: seq<Cut>)
    returns (heading': Option<string>, context': seq<string>, page': int, raw': seq<Section>,
             ghost open': nat, ghost done': seq<Cut>)
    requires i < |lines|
    requires Streaming(lines, isHeading, summarize, i, heading, context, page, raw, open, done)
    ensures Streaming(lines, isHeading, summarize, i + 1, heading', context', page', raw', open', done')
  {
    var line := lines[i];
    heading', context', page', raw', open', done' := heading, context, page, raw, open, done;
    if isHeading(line) {
      if heading.Some? {
        StreamNextHeading(lines, isHeading, summarize, i, heading.value, context, page, raw, open, done);
        if heading.value != [] && context != [] {
          raw' := raw + Finalise(heading.value, page, context, summarize);
        }
        done' := done + [Cut(open, i)];
      } else {
        StreamFirstHeading(lines, isHeading, summarize, i, context, page, raw, open, done);
      }
      heading' := Some(line.text);
      context' := [];
      page' := line.page;
      open' := i;
    } else {
      StreamText(lines, isHeading, summarize, i, heading, context, page, raw, open, done);
      if heading.Some? && heading.value != [] {
        context' := context + [line.text];
      }
    }
  }

  /** The streaming loop of `extract_headings_with_context`, line by line; it cuts
      the stream exactly as `SectionsFrom`. */
  method AssembleSections(lines: seq<Line>, isHeading: Line -> bool, summarize: string -> string) returns (raw: seq<Section>)
    ensures raw == SectionsFrom(lines, isHeading, summarize, 0)
  {
    var heading: Option<string> := None;
    var context: seq<string> := [];
    var page: int := 0;
    raw := [];
    ghost var open: nat := 0;
    ghost var done: seq<Cut> := [];
    for i := 0 to |lines|
      invariant Streaming(lines, isHeading, summarize, i, heading, context, page, raw, open, done)
    {
      heading, context, page, raw, open, done := Feed(lines, isHeading, summarize, i, heading, context, page, raw, open, done);
    }
    StreamEnd(lines, isHeading, summarize, heading, context, page, raw, open, done);
    if heading.Some? && heading.value != [] && context != [] {
      raw := raw + Finalise(heading.value, page, context, summarize);
    }
  }

  method ExtractSections(raws: seq<RawLine>, summarize: string -> string) returns (sections: seq<Section>)
    ensures sections == ExtractedSections(raws, summarize)
  {
    var lines, stats := CollectLines(raws);
    if stats.words == map[] {
      return [];
    }
    assert stats.keys[0] in stats.words;
    var body := stats.keys[FirstMaxIndex(stats.keys, stats.words)];
    var raw := AssembleSections(lines, HeadingTest(body), summarize);
    sections := KeepSubstantial(raw);
  }
}
