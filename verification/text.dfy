/** String helpers shared by every stage: Python's `str.strip`, `str.split()`,
    `" ".join`, `str.lower` and the character classes the pipeline's regular
    expressions use, restricted to ASCII. */
module Text {

  /** The whitespace that `str.split()`, `str.strip()` and the regex class `\s` skip
      (the ASCII part of it: blank, tab, line feed, carriage return, vertical tab,
      form feed, and the four separators 0x1C to 0x1F). */
  predicate IsSpace(c: char) {
    c == ' ' || c == '\t' || c == '\n' || c == '\r' || c == '\U{B}' || c == '\U{C}'
    || ('\U{1C}' <= c <= '\U{1F}')
  }

  predicate IsDigit(c: char) { '0' <= c <= '9' }
  predicate IsUpper(c: char) { 'A' <= c <= 'Z' }
  predicate IsLower(c: char) { 'a' <= c <= 'z' }
  predicate IsAlpha(c: char) { IsUpper(c) || IsLower(c) }

  /** The regex class `\w`. */
  predicate IsWordChar(c: char) { IsAlpha(c) || IsDigit(c) || c == '_' }

  /** The character classes whose maximal runs the parsers below measure. */
  datatype CharClass = Space | NonSpace | Digit | LowerCase | UpperOrSpace | WordChar

  predicate InClass(c: char, k: CharClass) {
    match k
    case Space => IsSpace(c)
    case NonSpace => !IsSpace(c)
    case Digit => IsDigit(c)
    case LowerCase => IsLower(c)
    case UpperOrSpace => IsUpper(c) || IsSpace(c)
    case WordChar => IsWordChar(c)
  }

  /** Length of the longest prefix of `s` made of characters of class `k`. */
  function RunLen(s: string, k: CharClass): (n: nat)
    ensures n <= |s|
  {
    if s != [] && InClass(s[0], k) then 1 + RunLen(s[1..], k) else 0
  }

  /** The run `RunLen` measures is maximal. */
  lemma {:induction false} RunLenMaximal(s: string, k: CharClass)
    ensures forall i :: 0 <= i < RunLen(s, k) ==> InClass(s[i], k)
    ensures RunLen(s, k) == |s| || !InClass(s[RunLen(s, k)], k)
    decreases |s|
  {
    if s != [] && InClass(s[0], k) {
      RunLenMaximal(s[1..], k);
    }
  }

  function LowerChar(c: char): (d: char)
    ensures !IsUpper(d)
    ensures IsAlpha(c) <==> IsAlpha(d)
    ensures IsSpace(c) <==> IsSpace(d)
    ensures IsDigit(c) <==> IsDigit(d)
  {
    if IsUpper(c) then (c as int + 32) as char else c
  }

  /** `str.lower()` on ASCII letters; every other character is kept. */
  function Lower(s: string): (r: string)
    ensures |r| == |s|
    ensures forall i :: 0 <= i < |s| ==> r[i] == LowerChar(s[i])
  {
    seq(|s|, i requires 0 <= i < |s| => LowerChar(s[i]))
  }

  /** `s` contains `sub` as a contiguous substring (Python's `sub in s`). */
  predicate Contains(s: string, sub: string)
    decreases |s|
  {
    sub <= s || (s != [] && Contains(s[1..], sub))
  }

  predicate EndsWith(s: string, c: char) {
    s != [] && s[|s| - 1] == c
  }

  /** `str.lstrip()`: drops the leading whitespace. */
  function LStrip(s: string): (r: string)
    ensures |r| <= |s|
    ensures r == [] || !IsSpace(r[0])
    ensures forall i :: 0 <= i < |s| - |r| ==> IsSpace(s[i])
  {
    if s != [] && IsSpace(s[0]) then LStrip(s[1..]) else s
  }

  /** `str.rstrip()`: drops the trailing whitespace. */
  function RStrip(s: string): (r: string)
    ensures |r| <= |s|
    ensures r == [] || !IsSpace(r[|r| - 1])
    ensures forall i :: |r| <= i < |s| ==> IsSpace(s[i])
  {
    if s != [] && IsSpace(s[|s| - 1]) then RStrip(s[..|s| - 1]) else s
  }

  /** What `lstrip` keeps is a suffix of its argument. */
  lemma {:induction false} LStripSuffix(s: string)
    ensures LStrip(s) == s[|s| - |LStrip(s)|..]
    decreases |s|
  {
    if s != [] && IsSpace(s[0]) {
      LStripSuffix(s[1..]);
    }
  }

  /** What `rstrip` keeps is a prefix of its argument. */
  lemma {:induction false} RStripPrefix(s: string)
    ensures RStrip(s) == s[..|RStrip(s)|]
    decreases |s|
  {
    if s != [] && IsSpace(s[|s| - 1]) {
      RStripPrefix(s[..|s| - 1]);
    }
  }

  /** `str.strip()`: the result is a slice of `s` that neither starts nor ends with
      whitespace, and it is empty exactly when `s` is all whitespace. */
  function Strip(s: string): (r: string)
    ensures |r| <= |s|
    ensures r == [] || (!IsSpace(r[0]) && !IsSpace(r[|r| - 1]))
    ensures r == [] <==> forall i :: 0 <= i < |s| ==> IsSpace(s[i])
  {
    var l := LStrip(s);
    var r := RStrip(l);
    LStripSuffix(s);
    RStripPrefix(l);
    assert l != [] ==> l[0] == s[|s| - |l|];
    assert r != [] ==> r[0] == l[0];
    assert r == [] ==> l == [];
    r
  }

  /** A word of `str.split()`: non-empty and free of whitespace. */
  predicate IsWord(w: string) {
    w != [] && forall i :: 0 <= i < |w| ==> !IsSpace(w[i])
  }

  /** `str.split()` with no separator: the maximal runs of non-whitespace. */
  function Words(s: string): seq<string>
    decreases |s|
  {
    if s == [] then []
    else if IsSpace(s[0]) then Words(s[1..])
    else
      var n := RunLen(s, NonSpace);
      [s[..n]] + Words(s[n..])
  }

  /** Every piece `str.split()` returns is a word. */
  lemma {:induction false} WordsAreWords(s: string)
    ensures forall i :: 0 <= i < |Words(s)| ==> IsWord(Words(s)[i])
    decreases |s|
  {
    if s == [] {
    } else if IsSpace(s[0]) {
      WordsAreWords(s[1..]);
    } else {
      var n := RunLen(s, NonSpace);
      RunLenMaximal(s, NonSpace);
      WordsAreWords(s[n..]);
    }
  }

  /** `re.findall(r'\w+', s)`: the maximal runs of word characters, in order. */
  function WordRuns(s: string): seq<string>
    decreases |s|
  {
    if s == [] then []
    else if !IsWordChar(s[0]) then WordRuns(s[1..])
    else
      var n := RunLen(s, WordChar);
      [s[..n]] + WordRuns(s[n..])
  }

  /** `set(ws)`. */
  function SetOf(ws: seq<string>): set<string> {
    set w | w in ws
  }

  /** `len(s.split())`. */
  function WordCount(s: string): nat {
    |Words(s)|
  }

  /** `sep.join(parts)`. */
  function Join(sep: string, parts: seq<string>): string
    decreases |parts|
  {
    if parts == [] then ""
    else if |parts| == 1 then parts[0]
    else parts[0] + sep + Join(sep, parts[1..])
  }

  /** Splitting stops at the end of a leading word followed by nothing or by whitespace. */
  lemma WordsOfWordThen(w: string, t: string)
    requires IsWord(w)
    requires t == [] || IsSpace(t[0])
    ensures Words(w + t) == [w] + Words(t)
  {
    var s := w + t;
    assert s[0] == w[0];
    assert RunLen(s, NonSpace) == |w| by {
      RunLenOfPrefix(w, t);
    }
    assert s[..|w|] == w;
    assert s[|w|..] == t;
  }

  lemma {:induction false} RunLenOfPrefix(w: string, t: string)
    requires forall i :: 0 <= i < |w| ==> !IsSpace(w[i])
    requires t == [] || IsSpace(t[0])
    ensures RunLen(w + t, NonSpace) == |w|
    decreases |w|
  {
    var s := w + t;
    if w == [] {
      assert s == t;
      assert s == [] || !InClass(s[0], NonSpace);
    } else {
      assert s[0] == w[0] && InClass(s[0], NonSpace);
      assert s[1..] == w[1..] + t;
      RunLenOfPrefix(w[1..], t);
      assert RunLen(s, NonSpace) == 1 + RunLen(s[1..], NonSpace);
    }
  }

  /** Joining words with single spaces and splitting again gives the words back. */
  lemma {:induction false} WordsOfJoin(ws: seq<string>)
    requires forall i :: 0 <= i < |ws| ==> IsWord(ws[i])
    ensures Words(Join(" ", ws)) == ws
    decreases |ws|
  {
    if ws == [] {
    } else if |ws| == 1 {
      WordsOfWordThen(ws[0], []);
      assert ws[0] + [] == ws[0];
    } else {
      var rest := Join(" ", ws[1..]);
      assert Join(" ", ws) == ws[0] + (" " + rest);
      WordsOfWordThen(ws[0], " " + rest);
      assert (" " + rest)[1..] == rest;
      WordsOfJoin(ws[1..]);
      assert ws == [ws[0]] + ws[1..];
    }
  }

  /** Splitting skips a leading blank. */
  lemma WordsOfBlankThen(t: string)
    ensures Words(" " + t) == Words(t)
  {
    assert (" " + t)[1..] == t;
  }

  /** Appending `t` to a joined list glues it to the last part. */
  lemma {:induction false} JoinAppend(ws: seq<string>, t: string)
    requires ws != []
    ensures Join(" ", ws) + t == Join(" ", ws[..|ws| - 1] + [ws[|ws| - 1] + t])
    decreases |ws|
  {
    var v := ws[..|ws| - 1] + [ws[|ws| - 1] + t];
    if |ws| == 1 {
      assert v == [ws[0] + t];
    } else {
      JoinAppend(ws[1..], t);
      var rest := ws[1..];
      assert v[0] == ws[0];
      assert v[1..] == rest[..|rest| - 1] + [rest[|rest| - 1] + t];
      assert Join(" ", ws) + t == ws[0] + " " + (Join(" ", rest) + t);
    }
  }

  /** No whitespace character is followed by another one. */
  predicate NoDoubleSpace(s: string) {
    forall i :: 0 <= i < |s| - 1 ==> !(IsSpace(s[i]) && IsSpace(s[i + 1]))
  }

  /** Every whitespace character is a plain blank. */
  predicate OnlyBlanks(s: string) {
    forall i :: 0 <= i < |s| ==> IsSpace(s[i]) ==> s[i] == ' '
  }

  /** `re.sub(r'\s+', ' ', s)`: every maximal whitespace run becomes one blank. */
  function Collapse(s: string): (r: string)
    decreases |s|
    ensures r == [] <==> s == []
    ensures s != [] ==> (IsSpace(r[0]) <==> IsSpace(s[0]))
    ensures NoDoubleSpace(r) && OnlyBlanks(r)
  {
    if s == [] then []
    else if IsSpace(s[0]) then " " + Collapse(LStrip(s[1..]))
    else [s[0]] + Collapse(s[1..])
  }

  /** A string in the form `Collapse` then `Strip` leave it in. */
  predicate Normalised(s: string) {
    NoDoubleSpace(s) && OnlyBlanks(s) && (s == [] || (!IsSpace(s[0]) && !IsSpace(s[|s| - 1])))
  }

  lemma {:induction false} CollapseKeepsCollapsed(s: string)
    requires NoDoubleSpace(s) && OnlyBlanks(s)
    ensures Collapse(s) == s
    decreases |s|
  {
    if s == [] {
    } else if IsSpace(s[0]) {
      assert s[1..] == [] || !IsSpace(s[1..][0]);
      assert LStrip(s[1..]) == s[1..];
      CollapseKeepsCollapsed(s[1..]);
      assert s == " " + s[1..];
    } else {
      CollapseKeepsCollapsed(s[1..]);
      assert s == [s[0]] + s[1..];
    }
  }

  /** A non-blank character in front of a string starts a word of its own when the
      string is empty or starts with whitespace, and joins its first word otherwise. */
  lemma WordsCons(c: char, x: string)
    requires !IsSpace(c)
    ensures x == [] || IsSpace(x[0]) ==> Words([c] + x) == [[c]] + Words(x)
    ensures x != [] && !IsSpace(x[0]) ==>
              Words(x) != [] && Words([c] + x) == [[c] + Words(x)[0]] + Words(x)[1..]
  {
    var s := [c] + x;
    assert s[0] == c && s[1..] == x;
    var n := RunLen(x, NonSpace);
    assert RunLen(s, NonSpace) == 1 + n;
    if x == [] || IsSpace(x[0]) {
      assert s[..1] == [c];
    } else {
      assert Words(x) == [x[..n]] + Words(x[n..]);
      assert s[..n + 1] == [c] + x[..n];
      assert s[n + 1..] == x[n..];
    }
  }

  /** Leading whitespace splits into nothing. */
  lemma {:induction false} WordsOfLStrip(t: string)
    ensures Words(LStrip(t)) == Words(t)
    decreases |t|
  {
    if t != [] && IsSpace(t[0]) {
      WordsOfLStrip(t[1..]);
    }
  }

  /** A string of whitespace splits into nothing. */
  lemma {:induction false} WordsOfBlank(t: string)
    requires forall i :: 0 <= i < |t| ==> IsSpace(t[i])
    ensures Words(t) == []
    decreases |t|
  {
    if t != [] {
      WordsOfBlank(t[1..]);
    }
  }

  /** A string that starts with a non-blank is its first word followed by nothing
      or by whitespace. */
  lemma FirstWord(x: string)
    requires x != [] && !IsSpace(x[0])
    ensures var n := RunLen(x, NonSpace);
            IsWord(x[..n]) && x == x[..n] + x[n..] && (x[n..] == [] || IsSpace(x[n..][0]))
  {
    RunLenMaximal(x, NonSpace);
  }

  /** A word followed by whitespace (or nothing) stays the first word when more
      whitespace (or nothing) follows. */
  lemma WordsSplitFirst(w: string, u: string, t: string)
    requires IsWord(w) && (u == [] || IsSpace(u[0])) && (t == [] || IsSpace(t[0]))
    ensures Words(w + u + t) == [w] + Words(u + t)
  {
    assert w + u + t == w + (u + t);
    if u == [] {
      assert u + t == t;
    } else {
      assert (u + t)[0] == u[0];
    }
    WordsOfWordThen(w, u + t);
  }

  /** Trailing whitespace splits into nothing. */
  lemma {:induction false} WordsTrailingBlanks(x: string, t: string)
    requires forall i :: 0 <= i < |t| ==> IsSpace(t[i])
    ensures Words(x + t) == Words(x)
    decreases |x|
  {
    var s := x + t;
    if x == [] {
      assert s == t;
      WordsOfBlank(t);
    } else if IsSpace(x[0]) {
      assert s[0] == x[0] && s[1..] == x[1..] + t;
      WordsTrailingBlanks(x[1..], t);
    } else {
      var n := RunLen(x, NonSpace);
      FirstWord(x);
      var w, u := x[..n], x[n..];
      WordsTrailingBlanks(u, t);
      WordsSplitFirst(w, u, t);
      WordsOfWordThen(w, u);
    }
  }

  /** Stripping does not change the words. */
  lemma WordsOfStrip(s: string)
    ensures Words(Strip(s)) == Words(s)
  {
    var l := LStrip(s);
    var r := RStrip(l);
    assert Strip(s) == r;
    RStripPrefix(l);
    assert l == r + l[|r|..];
    WordsTrailingBlanks(r, l[|r|..]);
    WordsOfLStrip(s);
  }

  /** Collapsing whitespace runs does not change the words. */
  lemma {:induction false} WordsOfCollapse(s: string)
    ensures Words(Collapse(s)) == Words(s)
    decreases |s|
  {
    if s == [] {
    } else if IsSpace(s[0]) {
      var t := LStrip(s[1..]);
      WordsOfCollapse(t);
      WordsOfBlankThen(Collapse(t));
      WordsOfLStrip(s[1..]);
    } else {
      var x := s[1..];
      WordsOfCollapse(x);
      WordsCons(s[0], Collapse(x));
      WordsCons(s[0], x);
      assert s == [s[0]] + x;
    }
  }

  /** The words of each part, one part after the other. */
  function AllWords(parts: seq<string>): (r: seq<string>)
    ensures forall i :: 0 <= i < |r| ==> IsWord(r[i])
    decreases |parts|
  {
    if parts == [] then [] else
      WordsAreWords(parts[0]);
      Words(parts[0]) + AllWords(parts[1..])
  }

  /** A blank between two strings separates their words. */
  lemma {:induction false} WordsAroundBlank(x: string, y: string)
    ensures Words(x + (" " + y)) == Words(x) + Words(y)
    decreases |x|
  {
    var t := " " + y;
    if x == [] {
      assert x + t == t;
      WordsOfBlankThen(y);
    } else if IsSpace(x[0]) {
      WordsAroundBlank(x[1..], y);
      WordsOfBlankFirst(x + t);
      assert (x + t)[1..] == x[1..] + t;
      WordsOfBlankFirst(x);
    } else {
      var n := RunLen(x, NonSpace);
      FirstWord(x);
      var w, u := x[..n], x[n..];
      WordsAroundBlank(u, y);
      WordsSplitFirst(w, u, t);
      WordsOfWordThen(w, u);
    }
  }

  /** Leading whitespace is skipped. */
  lemma WordsOfBlankFirst(s: string)
    requires s != [] && IsSpace(s[0])
    ensures Words(s) == Words(s[1..])
  {
  }

  /** `" ".join(parts).split()` is the words of the parts in order. */
  lemma {:induction false} WordsOfJoinAll(parts: seq<string>)
    ensures Words(Join(" ", parts)) == AllWords(parts)
    decreases |parts|
  {
    if parts == [] {
    } else if |parts| == 1 {
      assert parts[1..] == [];
    } else {
      WordsOfJoinAll(parts[1..]);
      WordsAroundBlank(parts[0], Join(" ", parts[1..]));
      assert Join(" ", parts) == parts[0] + (" " + Join(" ", parts[1..]));
    }
  }

  /** A normalised string is its words joined by single blanks. */
  lemma {:induction false} NormalisedIsJoin(r: string)
    requires Normalised(r)
    ensures r == Join(" ", Words(r))
    decreases |r|
  {
    if r != [] {
      var n := RunLen(r, NonSpace);
      RunLenMaximal(r, NonSpace);
      if n == |r| {
        assert r[n..] == [] && r[..n] == r;
        assert Words(r) == [r] + Words([]);
      } else {
        var rest := r[n + 1..];
        NormalisedAfterWord(r, n);
        NormalisedIsJoin(rest);
        JoinAfterWord(r, n);
      }
    }
  }

  /** In a normalised string the first word is followed by one blank and then by
      the normalised rest. */
  lemma NormalisedAfterWord(r: string, n: nat)
    requires Normalised(r) && r != [] && n == RunLen(r, NonSpace) && n < |r|
    ensures n + 1 < |r| && r[n] == ' ' && Normalised(r[n + 1..])
  {
    RunLenMaximal(r, NonSpace);
    assert IsSpace(r[n]);
    var rest := r[n + 1..];
    forall i | 0 <= i < |rest| - 1 ensures !(IsSpace(rest[i]) && IsSpace(rest[i + 1])) {
      assert rest[i] == r[n + 1 + i] && rest[i + 1] == r[n + 2 + i];
    }
    forall i | 0 <= i < |rest| ensures IsSpace(rest[i]) ==> rest[i] == ' ' {
      assert rest[i] == r[n + 1 + i];
    }
    assert rest[|rest| - 1] == r[|r| - 1];
  }

  /** Joining the first word, a blank and the rest of a normalised string's words
      gives back the string. */
  lemma JoinAfterWord(r: string, n: nat)
    requires r != [] && !IsSpace(r[0]) && n == RunLen(r, NonSpace)
    requires n + 1 < |r| && r[n] == ' ' && !IsSpace(r[n + 1])
    requires r[n + 1..] == Join(" ", Words(r[n + 1..]))
    ensures r == Join(" ", Words(r))
  {
    var w, rest := r[..n], r[n + 1..];
    assert Words(r) == [w] + Words(r[n..]);
    assert r[n..][1..] == rest;
    var ws := Words(rest);
    assert ws != [] by {
      var m := RunLen(rest, NonSpace);
      assert ws == [rest[..m]] + Words(rest[m..]);
    }
    var parts := [w] + ws;
    assert parts[1..] == ws;
    assert Join(" ", parts) == w + " " + Join(" ", ws);
    assert r == w + " " + rest;
  }

  lemma StripKeepsStripped(s: string)
    requires s == [] || (!IsSpace(s[0]) && !IsSpace(s[|s| - 1]))
    ensures Strip(s) == s
  {
    assert LStrip(s) == s;
    assert RStrip(s) == s;
  }
}
