/** The argument tokenizer of the shell drafts (skip_spaces, parse_argument,
    build_cmd_buff) and the cmd_buff_t record it fills.

    The line is copied into a fixed buffer of SH_CMD_MAX characters; the parser
    then walks the buffer, overwrites each token's separator (or closing quote)
    with NUL in place and records the token's start offset in argv. This module
    holds the corrected parser; the drafts as written are in TokenizerDrafts. */
module Tokenizer {
  import opened DshTypes
  import opened CStrings

  /** A token of a line: the characters in [start, end). */
  datatype Span = Span(start: nat, end: nat)

  /** An argv slot: NULL or a pointer into the command buffer. */
  datatype Ptr = Null | At(offset: nat)

  // ---------------------------------------------------------------------------
  // The token structure of a line (the text that reaches the buffer).
  // ---------------------------------------------------------------------------

  /** The first index at or after i that is not a ' '. */
  function SkipBlanks(s: string, i: nat): (j: nat)
    requires i <= |s|
    ensures i <= j <= |s|
    ensures j < |s| ==> s[j] != ' '
    decreases |s| - i
  {
    if i < |s| && s[i] == ' ' then SkipBlanks(s, i + 1) else i
  }

  /** Where a quoted token that starts at i ends: the next '"' or the end of the line. */
  function QuoteEnd(s: string, i: nat): (e: nat)
    requires i <= |s|
    ensures i <= e <= |s|
    ensures e < |s| ==> s[e] == '"'
    decreases |s| - i
  {
    if i < |s| && s[i] != '"' then QuoteEnd(s, i + 1) else i
  }

  /** Where an unquoted token that starts at i ends: the next ' ' or '"', or the end. */
  function WordEnd(s: string, i: nat): (e: nat)
    requires i <= |s|
    ensures i <= e <= |s|
    ensures e < |s| ==> s[e] == ' ' || s[e] == '"'
    decreases |s| - i
  {
    if i < |s| && s[i] != ' ' && s[i] != '"' then WordEnd(s, i + 1) else i
  }

  /** SkipBlanks passes over spaces only. */
  lemma {:induction false} SkippedAreBlank(s: string, i: nat)
    requires i <= |s|
    ensures forall k :: i <= k < SkipBlanks(s, i) ==> s[k] == ' '
    decreases |s| - i
  {
    if i < |s| && s[i] == ' ' {
      SkippedAreBlank(s, i + 1);
    }
  }

  /** A quoted token holds no '"'. */
  lemma {:induction false} QuotedHasNoQuote(s: string, i: nat)
    requires i <= |s|
    ensures forall k :: i <= k < QuoteEnd(s, i) ==> s[k] != '"'
    decreases |s| - i
  {
    if i < |s| && s[i] != '"' {
      QuotedHasNoQuote(s, i + 1);
    }
  }

  /** An unquoted token holds neither ' ' nor '"'. */
  lemma {:induction false} WordHasNoSeparator(s: string, i: nat)
    requires i <= |s|
    ensures forall k :: i <= k < WordEnd(s, i) ==> s[k] != ' ' && s[k] != '"'
    decreases |s| - i
  {
    if i < |s| && s[i] != ' ' && s[i] != '"' {
      WordHasNoSeparator(s, i + 1);
    }
  }

  /** Spans lie in [i, |s|], in order, and each ends at a separator or the end. */
  ghost predicate WellFormed(s: string, i: nat, r: seq<Span>) {
    (forall t :: 0 <= t < |r| ==> i <= r[t].start <= r[t].end <= |s|) &&
    (forall t, u :: 0 <= t < u < |r| ==> r[t].end < r[u].start) &&
    (forall t :: 0 <= t < |r| && r[t].end < |s| ==> s[r[t].end] == ' ' || s[r[t].end] == '"')
  }

  /** The tokens of s from index i on: spaces are skipped, a token opened by '"'
      runs to the next '"' or the end of the line and excludes the quotes, any
      other token runs to the next ' ' or '"'. */
  function Spans(s: string, i: nat): seq<Span>
    requires i <= |s|
    decreases |s| - i
  {
    var j := SkipBlanks(s, i);
    if j == |s| then []
    else
      var sp := TokenSpan(s, j);
      [sp] + Spans(s, Resume(s, sp.end))
  }

  /** The spans of a line lie inside it, in order, and each ends at a separator
      or at the end. */
  lemma {:induction false} SpansWellFormed(s: string, i: nat)
    requires i <= |s|
    ensures WellFormed(s, i, Spans(s, i))
    decreases |s| - i
  {
    var j := SkipBlanks(s, i);
    if j < |s| {
      var sp := TokenSpan(s, j);
      var next := Resume(s, sp.end);
      SpansWellFormed(s, next);
      var r := Spans(s, i);
      assert r == [sp] + Spans(s, next);
      forall t, u | 0 <= t < u < |r|
        ensures r[t].end < r[u].start
      {
        if t == 0 {
          assert next <= r[u].start;
        }
      }
    }
  }

  /** The token that begins at j, a character other than ' '. */
  function TokenSpan(s: string, j: nat): (sp: Span)
    requires j < |s| && s[j] != ' '
    ensures j < sp.end <= |s| && sp.start <= sp.end
    ensures sp.start == if s[j] == '"' then j + 1 else j
  {
    if s[j] == '"' then Span(j + 1, QuoteEnd(s, j + 1)) else Span(j, WordEnd(s, j))
  }

  /** Where the scan resumes after a token that ends at e. */
  function Resume(s: string, e: nat): nat
    requires e <= |s|
  {
    if e < |s| then e + 1 else e
  }

  /** Every span lies inside s. */
  predicate Inside(s: string, r: seq<Span>) {
    forall t :: 0 <= t < |r| ==> r[t].start <= r[t].end <= |s|
  }

  /** The text of each span. */
  function Texts(s: string, r: seq<Span>): (ts: seq<string>)
    requires Inside(s, r)
    ensures |ts| == |r|
    decreases |r|
  {
    if |r| == 0 then [] else [s[r[0].start..r[0].end]] + Texts(s, r[1..])
  }

  /** The token texts of a line. */
  function Tokens(s: string): (ts: seq<string>)
    ensures |ts| == |Spans(s, 0)|
  {
    SpansWellFormed(s, 0);
    Texts(s, Spans(s, 0))
  }

  /** What build_cmd_buff keeps of a line: at most SH_CMD_MAX - 1 characters. */
  function Copied(line: string, capacity: nat): (s: string)
    requires capacity >= 1
    ensures |s| < capacity && |s| <= |line| && s == line[..|s|]
    ensures |line| < capacity ==> s == line
  {
    line[..Min(|line|, capacity - 1)]
  }

  /** The token end positions, where the parser writes NUL. */
  ghost function Ends(r: seq<Span>): set<nat> {
    set t | 0 <= t < |r| :: r[t].end
  }

  /** The buffer after the copy, with NUL written at every position in ends. */
  ghost function Written(s: string, capacity: nat, ends: set<nat>): (b: seq<char>)
    ensures |b| == capacity
  {
    seq(capacity, k requires 0 <= k < capacity => if k < |s| && k !in ends then s[k] else NUL)
  }

  /** The start offsets stored in argv. */
  function Starts(r: seq<Span>): (p: seq<Ptr>)
    ensures |p| == |r|
    ensures forall t :: 0 <= t < |r| ==> p[t] == At(r[t].start)
  {
    seq(|r|, t requires 0 <= t < |r| => At(r[t].start))
  }

  function NullArgv(n: nat): (p: seq<Ptr>)
    ensures |p| == n && forall k :: 0 <= k < n ==> p[k] == Null
  {
    seq(n, _ => Null)
  }

  // ---------------------------------------------------------------------------
  // Facts about the token structure.
  // ---------------------------------------------------------------------------

  /** A line has no tokens exactly when it is all spaces. */
  lemma {:induction false} NoTokensIffBlank(s: string, i: nat)
    requires i <= |s|
    ensures Spans(s, i) == [] <==> forall k :: i <= k < |s| ==> s[k] == ' '
  {
    var j := SkipBlanks(s, i);
    SkippedAreBlank(s, i);
    if j < |s| {
      assert s[j] != ' ';
    }
  }

  /** A word the parser takes as one unquoted token. */
  predicate PlainWord(w: string) {
    |w| > 0 && forall k :: 0 <= k < |w| ==> w[k] != ' ' && w[k] != '"' && w[k] != NUL
  }

  /** Words separated by single spaces. */
  function Join(ws: seq<string>): string
    decreases |ws|
  {
    if |ws| == 0 then ""
    else if |ws| == 1 then ws[0]
    else ws[0] + " " + Join(ws[1..])
  }

  /** Every span moved d positions to the right. */
  function Shift(r: seq<Span>, d: nat): seq<Span>
  {
    if |r| == 0 then [] else [Span(r[0].start + d, r[0].end + d)] + Shift(r[1..], d)
  }

  /** s holds v from index d to its end. */
  ghost predicate HoldsAt(s: string, d: nat, v: string) {
    |s| == d + |v| && forall k :: 0 <= k < |v| ==> s[d + k] == v[k]
  }

  lemma {:induction false} SkipBlanksShift(s: string, d: nat, v: string, i: nat)
    requires HoldsAt(s, d, v) && i <= |v|
    ensures SkipBlanks(s, d + i) == d + SkipBlanks(v, i)
    decreases |v| - i
  {
    if i < |v| {
      assert s[d + i] == v[i];
      if v[i] == ' ' {
        SkipBlanksShift(s, d, v, i + 1);
      }
    }
  }

  lemma {:induction false} QuoteEndShift(s: string, d: nat, v: string, i: nat)
    requires HoldsAt(s, d, v) && i <= |v|
    ensures QuoteEnd(s, d + i) == d + QuoteEnd(v, i)
    decreases |v| - i
  {
    if i < |v| {
      assert s[d + i] == v[i];
      if v[i] != '"' {
        QuoteEndShift(s, d, v, i + 1);
      }
    }
  }

  lemma {:induction false} WordEndShift(s: string, d: nat, v: string, i: nat)
    requires HoldsAt(s, d, v) && i <= |v|
    ensures WordEnd(s, d + i) == d + WordEnd(v, i)
    decreases |v| - i
  {
    if i < |v| {
      assert s[d + i] == v[i];
      if v[i] != ' ' && v[i] != '"' {
        WordEndShift(s, d, v, i + 1);
      }
    }
  }

  lemma SpansUnfold(s: string, i: nat, j: nat, sp: Span, n: nat)
    requires i <= |s| && j == SkipBlanks(s, i) < |s|
    requires sp == TokenSpan(s, j) && n == Resume(s, sp.end)
    ensures Spans(s, i) == [sp] + Spans(s, n)
  {
  }

  lemma ShiftCons(sp: Span, r: seq<Span>, d: nat)
    ensures Shift([sp] + r, d) == [Span(sp.start + d, sp.end + d)] + Shift(r, d)
  {
    assert ([sp] + r)[1..] == r;
  }

  lemma TokenShift(s: string, d: nat, v: string, j: nat)
    requires HoldsAt(s, d, v) && j < |v| && v[j] != ' '
    ensures d + j < |s| && s[d + j] != ' '
    ensures var sp := TokenSpan(v, j);
            TokenSpan(s, d + j) == Span(sp.start + d, sp.end + d) &&
            Resume(s, sp.end + d) == d + Resume(v, sp.end)
  {
    assert s[d + j] == v[j];
    if v[j] == '"' {
      QuoteEndShift(s, d, v, j + 1);
    } else {
      WordEndShift(s, d, v, j);
    }
  }

  /** The tokens of a stretch of text do not depend on what precedes it. */
  lemma {:induction false} SpansShift(s: string, d: nat, v: string, i: nat)
    requires HoldsAt(s, d, v) && i <= |v|
    ensures Spans(s, d + i) == Shift(Spans(v, i), d)
    decreases |v| - i
  {
    SkipBlanksShift(s, d, v, i);
    var j := SkipBlanks(v, i);
    if j < |v| {
      var sp := TokenSpan(v, j);
      var sp' := Span(sp.start + d, sp.end + d);
      var n := Resume(v, sp.end);
      TokenShift(s, d, v, j);
      SpansShift(s, d, v, n);
      SpansUnfold(s, d + i, d + j, sp', d + n);
      SpansUnfold(v, i, j, sp, n);
      ShiftCons(sp, Spans(v, n), d);
    }
  }

  lemma {:induction false} TextsIndex(s: string, r: seq<Span>, t: nat)
    requires Inside(s, r) && t < |r|
    ensures Texts(s, r)[t] == s[r[t].start..r[t].end]
    decreases t
  {
    if t > 0 {
      TextsIndex(s, r[1..], t - 1);
    }
  }

  /** The texts of shifted spans over s are the texts of the spans over v. */
  lemma {:induction false} TextsShift(s: string, d: nat, v: string, r: seq<Span>)
    requires HoldsAt(s, d, v) && Inside(v, r)
    ensures Inside(s, Shift(r, d)) && Texts(s, Shift(r, d)) == Texts(v, r)
    decreases |r|
  {
    if |r| > 0 {
      TextsShift(s, d, v, r[1..]);
      SliceShift(s, d, v, r[0].start, r[0].end);
    }
  }

  lemma SliceShift(s: string, d: nat, v: string, a: nat, b: nat)
    requires HoldsAt(s, d, v) && a <= b <= |v|
    ensures s[d + a..d + b] == v[a..b]
  {
    assert forall k :: 0 <= k < b - a ==> s[d + a..d + b][k] == v[a..b][k];
  }

  /** A plain word followed by a space contributes exactly itself as the first
      token. */
  lemma WordThenRest(w: string, v: string)
    requires PlainWord(w)
    ensures Tokens(w + " " + v) == [w] + Tokens(v)
  {
    var s := w + " " + v;
    WordSpans(w, v);
    FirstThenRest(s, Span(0, |w|), |w| + 1, v);
    assert s[0..|w|] == w;
  }

  /** When the spans of s are sp followed by those of v moved d places, the
      tokens of s are sp's text followed by the tokens of v. */
  lemma FirstThenRest(s: string, sp: Span, d: nat, v: string)
    requires HoldsAt(s, d, v) && sp.start <= sp.end <= |s|
    requires Spans(s, 0) == [sp] + Shift(Spans(v, 0), d)
    ensures Tokens(s) == [s[sp.start..sp.end]] + Tokens(v)
  {
    var r := Spans(v, 0);
    SpansWellFormed(v, 0);
    SpansWellFormed(s, 0);
    TextsShift(s, d, v, r);
    assert ([sp] + Shift(r, d))[1..] == Shift(r, d);
  }

  /** The spans of w + " " + v: w itself, then those of v moved past it. */
  lemma WordSpans(w: string, v: string)
    requires PlainWord(w)
    ensures HoldsAt(w + " " + v, |w| + 1, v)
    ensures Spans(w + " " + v, 0) == [Span(0, |w|)] + Shift(Spans(v, 0), |w| + 1)
  {
    var s := w + " " + v;
    var d := |w| + 1;
    assert HoldsAt(s, d, v);
    assert s[|w|] == ' ';
    WordEndAt(s, 0, |w|);
    assert SkipBlanks(s, 0) == 0;
    SpansShift(s, d, v, 0);
  }

  /** A double-quoted stretch is one token, spaces included, without the quotes;
      whatever follows the closing quote is tokenized on its own. */
  lemma QuotedThenRest(q: string, v: string)
    requires forall k :: 0 <= k < |q| ==> q[k] != '"'
    ensures Tokens("\"" + q + "\"" + v) == [q] + Tokens(v)
  {
    var s := "\"" + q + "\"" + v;
    QuotedSpans(q, v);
    FirstThenRest(s, Span(1, |q| + 1), |q| + 2, v);
    QuotedMiddle(q, v);
  }

  lemma QuotedMiddle(q: string, v: string)
    ensures ("\"" + q + "\"" + v)[1..|q| + 1] == q
  {
    var s := "\"" + q + "\"" + v;
    forall k | 0 <= k < |q|
      ensures s[1..|q| + 1][k] == q[k]
    {
      assert s[1 + k] == q[k];
    }
  }

  lemma QuotedSpans(q: string, v: string)
    requires forall k :: 0 <= k < |q| ==> q[k] != '"'
    ensures HoldsAt("\"" + q + "\"" + v, |q| + 2, v)
    ensures Spans("\"" + q + "\"" + v, 0) == [Span(1, |q| + 1)] + Shift(Spans(v, 0), |q| + 2)
  {
    var s := "\"" + q + "\"" + v;
    var d := |q| + 2;
    assert HoldsAt(s, d, v);
    assert s[0] == '"' && s[|q| + 1] == '"';
    QuoteEndAt(s, 1, |q| + 1);
    assert SkipBlanks(s, 0) == 0;
    SpansShift(s, d, v, 0);
  }

  lemma {:induction false} QuoteEndAt(s: string, i: nat, e: nat)
    requires i <= e < |s| && s[e] == '"'
    requires forall k :: i <= k < e ==> s[k] != '"'
    ensures QuoteEnd(s, i) == e
    decreases e - i
  {
    if i < e {
      QuoteEndAt(s, i + 1, e);
    }
  }

  lemma {:induction false} WordEndPlain(w: string, i: nat)
    requires PlainWord(w) && i <= |w|
    ensures WordEnd(w, i) == |w|
    decreases |w| - i
  {
    if i < |w| {
      WordEndPlain(w, i + 1);
    }
  }

  lemma {:induction false} WordEndAt(s: string, i: nat, e: nat)
    requires i <= e < |s| && s[e] == ' '
    requires forall k :: i <= k < e ==> s[k] != ' ' && s[k] != '"'
    ensures WordEnd(s, i) == e
    decreases e - i
  {
    if i < e {
      WordEndAt(s, i + 1, e);
    }
  }

  /** Tokenizing plain words joined by single spaces gives back the words. */
  lemma {:induction false} JoinRoundTrip(ws: seq<string>)
    requires forall k :: 0 <= k < |ws| ==> PlainWord(ws[k])
    ensures Tokens(Join(ws)) == ws
    decreases |ws|
  {
    if |ws| == 0 {
      assert Spans("", 0) == [];
    } else if |ws| == 1 {
      var w := ws[0];
      WordEndPlain(w, 0);
      assert Spans(w, |w|) == [];
      assert Spans(w, 0) == [Span(0, |w|)];
      assert w[0..|w|] == w;
    } else {
      JoinRoundTrip(ws[1..]);
      WordThenRest(ws[0], Join(ws[1..]));
      assert [ws[0]] + ws[1..] == ws;
    }
  }

  /** n spaces. */
  function Spaces(n: nat): (sp: string)
    ensures |sp| == n && forall k :: 0 <= k < n ==> sp[k] == ' '
  {
    if n == 0 then "" else " " + Spaces(n - 1)
  }

  /** Words each followed by its own run of gaps[k] spaces. */
  function Spread(ws: seq<string>, gaps: seq<nat>): string
    requires |gaps| == |ws|
    decreases |ws|
  {
    if |ws| == 0 then "" else ws[0] + Spaces(gaps[0]) + Spread(ws[1..], gaps[1..])
  }

  /** A space in front of a line adds no token. */
  lemma LeadingSpace(v: string)
    ensures Tokens(" " + v) == Tokens(v)
  {
    var s := " " + v;
    SpaceHolds(v);
    LeadingSpans(s, v);
    SpansWellFormed(v, 0);
    TextsShift(s, 1, v, Spans(v, 0));
  }

  lemma SpaceHolds(v: string)
    ensures HoldsAt(" " + v, 1, v) && (" " + v)[0] == ' '
  {
  }

  lemma LeadingSpans(s: string, v: string)
    requires HoldsAt(s, 1, v) && s[0] == ' '
    ensures Spans(s, 0) == Shift(Spans(v, 0), 1)
  {
    SpansSkip(s, 0);
    SpansShift(s, 1, v, 0);
  }

  /** The scan passes over a space without a token. */
  lemma SpansSkip(s: string, i: nat)
    requires i < |s| && s[i] == ' '
    ensures Spans(s, i) == Spans(s, i + 1)
  {
    var j := SkipBlanks(s, i + 1);
    assert SkipBlanks(s, i) == j;
    if j < |s| {
      var sp := TokenSpan(s, j);
      SpansUnfold(s, i, j, sp, Resume(s, sp.end));
      SpansUnfold(s, i + 1, j, sp, Resume(s, sp.end));
    }
  }

  /** Any run of spaces in front of a line adds no token. */
  lemma {:induction false} SpacesThenRest(n: nat, v: string)
    ensures Tokens(Spaces(n) + v) == Tokens(v)
  {
    if n == 0 {
      assert Spaces(n) + v == v;
    } else {
      assert Spaces(n) + v == " " + (Spaces(n - 1) + v);
      LeadingSpace(Spaces(n - 1) + v);
      SpacesThenRest(n - 1, v);
    }
  }

  /** A plain word and a run of one or more spaces: the word is one token and
      the run adds none. */
  lemma WordSpacesRest(w: string, n: nat, v: string)
    requires PlainWord(w) && n >= 1
    ensures Tokens(w + Spaces(n) + v) == [w] + Tokens(v)
  {
    assert w + Spaces(n) + v == w + " " + (Spaces(n - 1) + v);
    WordThenRest(w, Spaces(n - 1) + v);
    SpacesThenRest(n - 1, v);
  }

  /** A plain word on its own is its one token. */
  lemma OneWord(w: string)
    requires PlainWord(w)
    ensures Tokens(w) == [w]
  {
    WordEndPlain(w, 0);
    assert Spans(w, |w|) == [];
    assert Spans(w, 0) == [Span(0, |w|)];
    assert w[0..|w|] == w;
  }

  /** Tokenizing plain words separated by runs of one or more spaces, with
      any run of spaces before the first and after the last, gives back the
      words: the runs yield no empty tokens. */
  lemma {:induction false} SpreadRoundTrip(lead: nat, ws: seq<string>, gaps: seq<nat>)
    requires |gaps| == |ws|
    requires forall k :: 0 <= k < |ws| ==> PlainWord(ws[k])
    requires forall k :: 0 <= k < |ws| - 1 ==> gaps[k] >= 1
    ensures Tokens(Spaces(lead) + Spread(ws, gaps)) == ws
    decreases |ws|
  {
    SpacesThenRest(lead, Spread(ws, gaps));
    if |ws| == 0 {
      assert Spans("", 0) == [];
    } else {
      var rest := Spread(ws[1..], gaps[1..]);
      SpreadRoundTrip(0, ws[1..], gaps[1..]);
      assert Spaces(0) + rest == rest;
      if gaps[0] == 0 {
        assert |ws| == 1 && rest == "";
        assert Spread(ws, gaps) == ws[0];
        OneWord(ws[0]);
      } else {
        WordSpacesRest(ws[0], gaps[0], rest);
      }
      assert [ws[0]] + ws[1..] == ws;
    }
  }

  /** "  a   b  " tokenizes to "a" and "b". */
  lemma RunsOfSpaces()
    ensures Tokens("  a   b  ") == ["a", "b"]
  {
    assert "  a   b  " == Spaces(2) + Spread(["a", "b"], [3, 2]);
    SpreadRoundTrip(2, ["a", "b"], [3, 2]);
  }

  /** For each token of s from i, whether a '"' opened it: the branch
      TokenSpan takes at the token's first character. */
  function Opened(s: string, i: nat): (q: seq<bool>)
    requires i <= |s|
    ensures |q| == |Spans(s, i)|
    decreases |s| - i
  {
    var j := SkipBlanks(s, i);
    if j == |s| then []
    else
      var sp := TokenSpan(s, j);
      [s[j] == '"'] + Opened(s, Resume(s, sp.end))
  }

  /** A span holds no '"'; one opened by a quote starts just after that '"',
      and any other is a plain word: not empty, no ' '. */
  ghost predicate Shaped(s: string, sp: Span, quoted: bool) {
    sp.start <= sp.end <= |s| &&
    (forall k :: sp.start <= k < sp.end ==> s[k] != '"') &&
    (quoted ==> sp.start >= 1 && s[sp.start - 1] == '"') &&
    (!quoted ==> sp.start < sp.end && forall k :: sp.start <= k < sp.end ==> s[k] != ' ')
  }

  lemma {:induction false} SpanShapes(s: string, i: nat)
    requires i <= |s|
    ensures forall t :: 0 <= t < |Spans(s, i)| ==> Shaped(s, Spans(s, i)[t], Opened(s, i)[t])
    decreases |s| - i
  {
    var j := SkipBlanks(s, i);
    if j < |s| {
      var sp := TokenSpan(s, j);
      var next := Resume(s, sp.end);
      SpanShapes(s, next);
      if s[j] == '"' {
        QuotedHasNoQuote(s, j + 1);
      } else {
        WordHasNoSeparator(s, j);
      }
      assert Spans(s, i) == [sp] + Spans(s, next);
      assert Opened(s, i) == [s[j] == '"'] + Opened(s, next);
    }
  }

  /** Every token is free of '"'; one opened by a quote follows that '"',
      and every other token, wherever it stands, is not empty and holds no
      ' '. */
  lemma TokenShapes(s: string)
    ensures var r := Spans(s, 0);
            var q := Opened(s, 0);
            |q| == |Tokens(s)| &&
            forall t :: 0 <= t < |r| ==>
              r[t].start <= |s| && '"' !in Tokens(s)[t] &&
              (q[t] ==> r[t].start >= 1 && s[r[t].start - 1] == '"') &&
              (!q[t] ==> Tokens(s)[t] != [] && ' ' !in Tokens(s)[t])
  {
    var r := Spans(s, 0);
    var q := Opened(s, 0);
    SpansWellFormed(s, 0);
    SpanShapes(s, 0);
    forall t | 0 <= t < |r|
      ensures r[t].start <= |s| && '"' !in Tokens(s)[t] &&
              (q[t] ==> r[t].start >= 1 && s[r[t].start - 1] == '"') &&
              (!q[t] ==> Tokens(s)[t] != [] && ' ' !in Tokens(s)[t])
    {
      TextsIndex(s, r, t);
      assert Shaped(s, r[t], q[t]);
    }
  }

  /** A '"' that ends a word does not open the token after it: in ab"cd the
      second token, cd, is a plain word. */
  lemma WordAfterQuote()
    ensures Tokens("ab\"cd") == ["ab", "cd"]
    ensures Opened("ab\"cd", 0) == [false, false]
  {
    var s := "ab\"cd";
    assert WordEnd(s, 0) == 2 by {
      assert s[0] == 'a' && s[1] == 'b' && s[2] == '"';
    }
    assert WordEnd(s, 3) == 5;
    assert Spans(s, 5) == [];
    assert Spans(s, 3) == [Span(3, 5)];
    assert Spans(s, 0) == [Span(0, 2), Span(3, 5)];
    assert SkipBlanks(s, 5) == 5 && SkipBlanks(s, 3) == 3 && SkipBlanks(s, 0) == 0;
    assert Opened(s, 5) == [];
    assert Opened(s, 3) == [false] + Opened(s, 5);
    assert Opened(s, 0) == [false] + Opened(s, 3);
    var r := [Span(0, 2), Span(3, 5)];
    assert r[1..] == [Span(3, 5)] && r[1..][1..] == [];
    assert Texts(s, r) == [s[0..2]] + Texts(s, [Span(3, 5)]) == [s[0..2], s[3..5]];
    assert s[0..2] == "ab" && s[3..5] == "cd";
  }

  /** Each token is read back unchanged from the written buffer: from its start
      the C string runs exactly to its end. */
  lemma ArgReadBack(s: string, capacity: nat, r: seq<Span>, t: nat)
    requires NoNul(s) && |s| < capacity
    requires WellFormed(s, 0, r) && t < |r|
    ensures Terminated(Written(s, capacity, Ends(r)), r[t].start)
    ensures CStr(Written(s, capacity, Ends(r)), r[t].start) == s[r[t].start..r[t].end]
  {
    var b := Written(s, capacity, Ends(r));
    var sp := r[t];
    assert sp.end in Ends(r);
    forall k | sp.start <= k < sp.end
      ensures b[k] == s[k] && b[k] != NUL
    {
      forall u | 0 <= u < |r|
        ensures r[u].end != k
      {
        if u < t {
          assert r[u].end < r[t].start;
        } else if u > t {
          assert r[t].end < r[u].start <= r[u].end;
        }
      }
    }
    NulFromIs(b, sp.start, sp.end);
    assert b[sp.start..sp.end] == s[sp.start..sp.end];
  }

  // ---------------------------------------------------------------------------
  // The pointer walks, on the buffer.
  // ---------------------------------------------------------------------------

  /** skip_spaces: advance over ' ' (only that character). */
  method SkipSpaces(buf: array<char>, p: nat) returns (q: nat)
    requires p < buf.Length && buf[buf.Length - 1] == NUL
    ensures p <= q < buf.Length
    ensures forall k :: p <= k < q ==> buf[k] == ' '
    ensures buf[q] != ' '
  {
    q := p;
    while buf[q] == ' '
      invariant p <= q < buf.Length
      invariant forall k :: p <= k < q ==> buf[k] == ' '
      decreases buf.Length - q
    {
      q := q + 1;
    }
  }

  /** Where parse_argument stops scanning from i: at the terminator, at a '"', or
      at a ' ' when not inside quotes. */
  function ArgEnd(b: seq<char>, i: nat, inQuotes: bool): (e: nat)
    requires i < |b| && b[|b| - 1] == NUL
    ensures i <= e < |b|
    ensures b[e] == NUL || b[e] == '"' || (!inQuotes && b[e] == ' ')
    ensures forall k :: i <= k < e ==> b[k] != NUL && b[k] != '"' && (inQuotes || b[k] != ' ')
    decreases |b| - i
  {
    if b[i] == NUL || b[i] == '"' || (!inQuotes && b[i] == ' ') then i
    else ArgEnd(b, i + 1, inQuotes)
  }

  /** parse_argument: an opening '"' is stepped over and sets the quote flag; the
      token then runs to ArgEnd, whose character becomes NUL; a closing '"'
      clears the flag. Returns the token's start. */
  method ParseArgument(buf: array<char>, p: nat, inQuotes: bool) returns (argStart: nat, inQuotesAfter: bool)
    requires p < buf.Length && buf[buf.Length - 1] == NUL
    modifies buf
    ensures argStart == if old(buf[p]) == '"' then p + 1 else p
    ensures argStart < buf.Length
    ensures var inQ := old(buf[p]) == '"' || inQuotes;
            var e := ArgEnd(old(buf[..]), argStart, inQ);
            buf[..] == old(buf[..])[e := NUL] && inQuotesAfter == (inQ && old(buf[e]) != '"')
  {
    var ptr := p;
    inQuotesAfter := inQuotes;
    if buf[ptr] == '"' {
      inQuotesAfter := true;
      ptr := ptr + 1;
    }
    argStart := ptr;
    ghost var e := ArgEnd(buf[..], argStart, inQuotesAfter);
    while buf[ptr] != NUL && (inQuotesAfter || buf[ptr] != ' ')
      invariant argStart <= ptr <= e
      invariant buf[..] == old(buf[..])
      invariant inQuotesAfter == (old(buf[p]) == '"' || inQuotes)
      decreases e - ptr
    {
      if buf[ptr] == '"' {
        buf[ptr] := NUL;
        inQuotesAfter := false;
        break;
      }
      ptr := ptr + 1;
    }
    if buf[ptr] != NUL {
      buf[ptr] := NUL;
      ptr := ptr + 1;
    }
  }

  // ---------------------------------------------------------------------------
  // Agreement between the buffer and the line text.
  // ---------------------------------------------------------------------------

  /** The buffer holds the line from p on, then the terminator. */
  ghost predicate HoldsFrom(b: seq<char>, s: string, p: nat) {
    p <= |s| < |b| && b[|s|] == NUL && b[|b| - 1] == NUL &&
    forall k :: p <= k < |s| ==> b[k] == s[k]
  }

  /** skip_spaces on the buffer finds what SkipBlanks finds on the line. */
  lemma SkipMatches(b: seq<char>, s: string, p: nat, q: nat)
    requires HoldsFrom(b, s, p) && NoNul(s)
    requires p <= q < |b| && b[q] != ' '
    requires forall k :: p <= k < q ==> b[k] == ' '
    ensures q == SkipBlanks(s, p)
    ensures q < |s| <==> b[q] != NUL
  {
    var j := SkipBlanks(s, p);
    SkippedAreBlank(s, p);
    if j < |s| {
      assert b[j] == s[j];
    }
    assert b[j] != ' ';
    forall k | p <= k < j
      ensures b[k] == ' '
    {
      assert b[k] == s[k];
    }
  }

  /** parse_argument's scan on the buffer ends where the token ends on the line. */
  lemma ArgEndMatches(b: seq<char>, s: string, i: nat, quoted: bool)
    requires HoldsFrom(b, s, i) && NoNul(s)
    ensures ArgEnd(b, i, quoted) == if quoted then QuoteEnd(s, i) else WordEnd(s, i)
  {
    var e' := if quoted then QuoteEnd(s, i) else WordEnd(s, i);
    QuotedHasNoQuote(s, i);
    WordHasNoSeparator(s, i);
    if e' < |s| {
      assert b[e'] == s[e'];
    }
    assert b[e'] == NUL || b[e'] == '"' || (!quoted && b[e'] == ' ');
    forall k | i <= k < e'
      ensures b[k] != NUL && b[k] != '"' && (quoted || b[k] != ' ')
    {
      assert b[k] == s[k];
    }
  }

  /** Writing NUL at a new token end extends the set of written ends. */
  lemma WriteEnd(s: string, capacity: nat, done: seq<Span>, sp: Span)
    requires sp.end < capacity
    ensures Ends(done + [sp]) == Ends(done) + {sp.end}
    ensures Written(s, capacity, Ends(done))[sp.end := NUL] == Written(s, capacity, Ends(done + [sp]))
  {
    var r := done + [sp];
    forall x | x in Ends(r) ensures x in Ends(done) + {sp.end} {
      var t :| 0 <= t < |r| && r[t].end == x;
      if t < |done| { assert done[t] == r[t]; }
    }
    forall x | x in Ends(done) ensures x in Ends(r) {
      var t :| 0 <= t < |done| && done[t].end == x;
      assert r[t] == done[t];
    }
    assert r[|done|] == sp;
  }

  /** The first token after p, seen from the buffer: where it starts, that
      parse_argument's scan ends at its end, and what remains after it. */
  lemma TokenAt(b: seq<char>, s: string, p: nat) returns (sp: Span)
    requires HoldsFrom(b, s, p) && NoNul(s)
    requires SkipBlanks(s, p) < |s|
    ensures var j := SkipBlanks(s, p);
            sp == TokenSpan(s, j) && b[j] == s[j] &&
            sp.end == ArgEnd(b, sp.start, s[j] == '"') &&
            (forall k :: j <= k < sp.end ==> b[k] != NUL) &&
            (sp.end < |s| <==> b[sp.end] != NUL) &&
            Spans(s, p) == [sp] + Spans(s, Resume(s, sp.end))
  {
    var j := SkipBlanks(s, p);
    var quoted := s[j] == '"';
    sp := TokenSpan(s, j);
    ArgEndMatches(b, s, sp.start, quoted);
    assert b[j] == s[j];
    forall k | j <= k < sp.end
      ensures b[k] != NUL
    {
      assert b[k] == s[k];
    }
    if sp.end < |s| {
      assert b[sp.end] == s[sp.end];
    }
  }

  /** The state of build_cmd_buff's loop: b is the buffer with the ends of the
      tokens done so far overwritten, all of them before ptr, and the tokens from
      ptr on are the ones still to come. */
  ghost predicate Scanning(b: seq<char>, s: string, done: seq<Span>, ptr: nat) {
    NoNul(s) && |s| < |b| && ptr < |b| &&
    b == Written(s, |b|, Ends(done)) &&
    (forall x :: x in Ends(done) && x < |s| ==> x < ptr) &&
    done + Spans(s, Min(ptr, |s|)) == Spans(s, 0)
  }

  lemma ScanStart(s: string, capacity: nat)
    requires NoNul(s) && |s| < capacity
    ensures Scanning(Written(s, capacity, {}), s, [], 0)
  {
    assert Ends([]) == {};
  }

  /** A non-terminator under ptr lies inside the line, which the buffer holds
      from ptr on. */
  lemma ScanHolds(b: seq<char>, s: string, done: seq<Span>, ptr: nat)
    requires Scanning(b, s, done, ptr) && b[ptr] != NUL
    ensures ptr < |s| && HoldsFrom(b, s, ptr)
  {
    forall k | ptr <= k < |s|
      ensures b[k] == s[k]
    {
      assert k !in Ends(done);
    }
  }

  /** A terminator in the written buffer lies past the line or at a token end. */
  lemma NulIsEnd(s: string, capacity: nat, ends: set<nat>, k: nat)
    requires NoNul(s) && k < capacity && Written(s, capacity, ends)[k] == NUL
    ensures k >= |s| || k in ends
  {
  }

  /** A terminator under ptr: every token has been recorded. */
  lemma ScanExit(b: seq<char>, s: string, done: seq<Span>, ptr: nat)
    requires Scanning(b, s, done, ptr) && b[ptr] == NUL
    ensures done == Spans(s, 0)
  {
    NulIsEnd(s, |b|, Ends(done), ptr);
    assert ptr >= |s|;
    assert Spans(s, |s|) == [];
  }

  /** Only spaces from ptr on: every token has been recorded. */
  lemma ScanBlank(b: seq<char>, s: string, done: seq<Span>, ptr: nat)
    requires Scanning(b, s, done, ptr) && ptr <= |s| && SkipBlanks(s, ptr) == |s|
    ensures done == Spans(s, 0)
  {
    assert Spans(s, ptr) == [];
  }

  /** Recording the next token, writing NUL at its end and stepping past it (but
      never past the buffer's last cell) keeps the loop state. */
  lemma ScanStep(b: seq<char>, s: string, done: seq<Span>, p0: nat, sp: Span, ptr: nat)
    requires Scanning(b, s, done, p0) && p0 <= |s|
    requires p0 <= sp.end <= |s|
    requires Spans(s, p0) == [sp] + Spans(s, Resume(s, sp.end))
    requires ptr == if sp.end < |b| - 1 then sp.end + 1 else sp.end
    ensures Scanning(b[sp.end := NUL], s, done + [sp], ptr)
  {
    WriteEnd(s, |b|, done, sp);
    StepEnds(s, done, p0, sp, ptr);
    StepSpans(s, done, p0, sp, ptr);
  }

  lemma StepEnds(s: string, done: seq<Span>, p0: nat, sp: Span, ptr: nat)
    requires forall x :: x in Ends(done) && x < |s| ==> x < p0
    requires p0 <= sp.end <= ptr && (sp.end < |s| ==> ptr == sp.end + 1)
    ensures forall x :: x in Ends(done + [sp]) && x < |s| ==> x < ptr
  {
    forall x | x in Ends(done + [sp]) && x < |s|
      ensures x < ptr
    {
      var t :| 0 <= t < |done| + 1 && (done + [sp])[t].end == x;
      if t < |done| {
        assert done[t].end == x;
        assert x in Ends(done);
      } else {
        assert x == sp.end;
      }
    }
  }

  lemma StepSpans(s: string, done: seq<Span>, p0: nat, sp: Span, ptr: nat)
    requires p0 <= sp.end <= |s| && done + Spans(s, p0) == Spans(s, 0)
    requires Spans(s, p0) == [sp] + Spans(s, Resume(s, sp.end))
    requires ptr == sp.end + 1 || (ptr == sp.end && sp.end == |s|)
    ensures (done + [sp]) + Spans(s, Min(ptr, |s|)) == Spans(s, 0)
  {
    assert Min(ptr, |s|) == Resume(s, sp.end);
    assert (done + [sp]) + Spans(s, Resume(s, sp.end)) == done + ([sp] + Spans(s, Resume(s, sp.end)));
  }

  /** strncpy of at most buf.Length - 1 characters of the line (padding with
      NUL), then a terminator in the last cell. */
  method CopyLine(buf: array<char>, line: string)
    requires buf.Length >= 1
    modifies buf
    ensures buf[..] == Written(Copied(line, buf.Length), buf.Length, {})
  {
    forall k | 0 <= k < buf.Length - 1 {
      buf[k] := if k < |line| then line[k] else NUL;
    }
    buf[buf.Length - 1] := NUL;
  }

  /** One round of build_cmd_buff's loop, all but the argv store: skip_spaces;
      at the terminator the line is done (arg is NULL); otherwise parse_argument,
      then the walk to the NUL it wrote and the step past it, which stays inside
      the buffer. */
  method ScanNext(buf: array<char>, ptr: nat, inQuotes: bool, ghost s: string, ghost done: seq<Span>)
    returns (arg: Ptr, next: nat, inQuotesAfter: bool, ghost sp: Span)
    requires Scanning(buf[..], s, done, ptr) && buf[ptr] != NUL
    requires inQuotes ==> ptr >= |s|
    modifies buf
    ensures arg.Null? ==> buf[..] == old(buf[..]) && done == Spans(s, 0)
    ensures arg.At? ==> arg.offset == sp.start && ptr < next &&
                        Scanning(buf[..], s, done + [sp], next) &&
                        (inQuotesAfter ==> next >= |s|)
  {
    ghost var b0 := buf[..];
    ScanHolds(b0, s, done, ptr);
    var p := SkipSpaces(buf, ptr);
    SkipMatches(b0, s, ptr, p);
    if buf[p] == NUL {
      ScanBlank(b0, s, done, ptr);
      return Null, p, inQuotes, Span(0, 0);
    }
    sp := TokenAt(b0, s, ptr);
    var start;
    start, inQuotesAfter := ParseArgument(buf, p, inQuotes);
    assert start == sp.start && buf[..] == b0[sp.end := NUL];
    assert inQuotesAfter ==> sp.end == |s|;
    assert buf[..][sp.end] == NUL;
    var n := Strlen(buf, p);
    next := p + n;
    if next < buf.Length - 1 {
      next := next + 1;
    }
    ScanStep(b0, s, done, ptr, sp, next);
    arg := At(start);
  }

  /** Recording a token start in the next argv slot. */
  lemma PushStart(done: seq<Span>, sp: Span, rest: seq<Ptr>, argc: nat)
    requires argc == |done| < |rest|
    ensures (Starts(done) + rest[argc..])[argc := At(sp.start)] == Starts(done + [sp]) + rest[argc + 1..]
  {
  }

  /** The NULL after the last recorded start. */
  lemma EndArgv(done: seq<Span>, rest: seq<Ptr>, argc: nat)
    requires argc == |done| < |rest|
    ensures var a := (Starts(done) + rest[argc..])[argc := Null];
            |a| == |rest| && a[..argc] == Starts(done) && a[argc] == Null &&
            a[argc + 1..] == rest[argc + 1..]
  {
    var a := (Starts(done) + rest[argc..])[argc := Null];
    assert a[..argc] == Starts(done);
    assert a[argc + 1..] == rest[argc + 1..];
  }

  /** The C strings the pointers ptrs point to in the buffer b, whose last
      cell is a terminator. */
  function ArgStrings(b: seq<char>, ptrs: seq<Ptr>): (args: seq<string>)
    requires |b| > 0 && b[|b| - 1] == NUL
    requires forall k :: 0 <= k < |ptrs| ==> ptrs[k].At? && ptrs[k].offset < |b|
    ensures |args| == |ptrs|
  {
    seq(|ptrs|, k requires 0 <= k < |ptrs| =>
          assert b[|b| - 1] == NUL;
          CStr(b, ptrs[k].offset))
  }

  // ---------------------------------------------------------------------------
  // cmd_buff_t and the functions that fill and reset it.
  // ---------------------------------------------------------------------------

  /** cmd_buff_t: a command buffer, argc and the argv slots. */
  class CmdBuff {
    /** SH_CMD_MAX: the size of the command buffer. */
    const capacity: nat
    /** CMD_ARGV_MAX: the number of argv slots. */
    const argvMax: nat
    /** _cmd_buffer; null when not allocated. */
    var buffer: array?<char>
    var argc: nat
    var argv: seq<Ptr>

    ghost predicate Valid()
      reads this
    {
      capacity >= 1 && |argv| == argvMax && argc < argvMax &&
      (buffer != null ==> buffer.Length == capacity)
    }

    /** Every argv[k], k < argc, points at a C string inside the buffer. */
    ghost predicate ArgsInBuffer()
      reads this, buffer
      requires Valid()
    {
      argc > 0 ==>
        buffer != null && buffer[capacity - 1] == NUL &&
        forall k :: 0 <= k < argc ==> argv[k].At? && argv[k].offset < capacity
    }

    /** argc is 0 and every argv slot is NULL. */
    ghost predicate IsReset()
      reads this
    {
      argc == 0 && argv == NullArgv(argvMax)
    }

    /** The strings argv[0 .. argc) point to. */
    ghost function Args(): (args: seq<string>)
      reads this, buffer
      requires Valid() && ArgsInBuffer()
      ensures |args| == argc
    {
      if argc == 0 then [] else ArgStrings(buffer[..], argv[..argc])
    }

    /** The record holds a buffer and argv points at exactly the strings args. */
    ghost predicate Holds(args: seq<string>)
      reads this, buffer
    {
      Valid() && buffer != null && ArgsInBuffer() && Args() == args
    }

    /** The record in its zeroed state: no buffer, argc 0, argv all NULL. */
    constructor (capacity: nat, argvMax: nat)
      requires capacity >= 1 && argvMax >= 1
      ensures this.capacity == capacity && this.argvMax == argvMax
      ensures Valid() && buffer == null && IsReset()
    {
      this.capacity := capacity;
      this.argvMax := argvMax;
      buffer := null;
      argc := 0;
      argv := NullArgv(argvMax);
    }

    /** memset of the record to zero, as build_cmd_list does to every slot. */
    method Zero()
      requires Valid()
      modifies this
      ensures Valid() && buffer == null && IsReset()
    {
      buffer := null;
      argc := 0;
      argv := NullArgv(argvMax);
    }

    /** alloc_cmd_buff: a fresh buffer of SH_CMD_MAX characters, argc 0, argv all
        NULL. mallocOk stands for the outcome of malloc; on failure the buffer
        pointer is NULL and the result is ERR_MEMORY. */
    method Alloc(mallocOk: bool) returns (rc: Status)
      requires Valid()
      modifies this
      ensures Valid()
      ensures rc == (if mallocOk then Ok else ErrMemory)
      ensures mallocOk ==> buffer != null && fresh(buffer) && IsReset()
      ensures !mallocOk ==> buffer == null && argc == old(argc) && argv == old(argv)
    {
      if !mallocOk {
        buffer := null;
        rc := ErrMemory;
        return;
      }
      buffer := new char[capacity];
      argc := 0;
      argv := NullArgv(argvMax);
      rc := Ok;
    }

    /** free_cmd_buff: releases the buffer, argc 0, argv all NULL; with no
        buffer it returns ERR_MEMORY and changes nothing. */
    method Free() returns (rc: Status)
      requires Valid()
      modifies this
      ensures Valid()
      ensures rc == (if old(buffer) == null then ErrMemory else Ok)
      ensures old(buffer) == null ==> argc == old(argc) && argv == old(argv) && buffer == null
      ensures old(buffer) != null ==> buffer == null && IsReset()
    {
      if buffer == null {
        return ErrMemory;
      }
      buffer := null;
      argc := 0;
      argv := NullArgv(argvMax);
      rc := Ok;
    }

    /** clear_cmd_buff: zeroes the buffer, argc 0, argv all NULL; with no buffer
        it returns ERR_MEMORY and changes nothing. */
    method Clear() returns (rc: Status)
      requires Valid()
      modifies this, buffer
      ensures Valid() && buffer == old(buffer)
      ensures rc == (if buffer == null then ErrMemory else Ok)
      ensures buffer == null ==> argc == old(argc) && argv == old(argv)
      ensures buffer != null ==> IsReset() && forall k :: 0 <= k < capacity ==> buffer[k] == NUL
    {
      if buffer == null {
        return ErrMemory;
      }
      forall k | 0 <= k < buffer.Length {
        buffer[k] := NUL;
      }
      argc := 0;
      argv := NullArgv(argvMax);
      rc := Ok;
    }

    /** build_cmd_buff: copies at most SH_CMD_MAX - 1 characters of the line into
        the buffer, terminates it, splits it into tokens in place and records
        their starts in argv, followed by a NULL slot. The tokens read back
        through argv are exactly Tokens of the copied text. The source never
        checks argc against the argv slots; the caller must leave room for every
        token and the NULL. */
    method BuildCmdBuff(cmdLine: Option<string>) returns (rc: Status)
      requires Valid()
      requires cmdLine.Some? ==> NoNul(cmdLine.value)
      requires cmdLine.Some? && buffer != null ==> |Spans(Copied(cmdLine.value, capacity), 0)| < argvMax
      modifies this, buffer
      ensures Valid() && buffer == old(buffer)
      ensures cmdLine.None? || buffer == null ==>
                rc == ErrMemory && argc == old(argc) && argv == old(argv) &&
                (buffer != null ==> buffer[..] == old(buffer[..]))
      ensures cmdLine.Some? && buffer != null ==>
                var s := Copied(cmdLine.value, capacity);
                var r := Spans(s, 0);
                buffer[..] == Written(s, capacity, Ends(r)) &&
                argc == |r| && ArgsInBuffer() &&
                argv[..argc] == Starts(r) && argv[argc] == Null &&
                argv[argc + 1..] == old(argv)[argc + 1..] &&
                Args() == Tokens(s) &&
                rc == (if argc > 0 then Ok else WarnNoCmds)
    {
      if cmdLine.None? || buffer == null {
        return ErrMemory;
      }
      var line := cmdLine.value;
      var buf := buffer;
      ghost var s := Copied(line, capacity);
      CopyLine(buf, line);
      argc := 0;
      ScanStart(s, capacity);
      ParseTokens(buf, s);
      EndArgv(Spans(s, 0), old(argv), argc);
      argv := argv[argc := Null];
      rc := if argc > 0 then Ok else WarnNoCmds;
      ArgsAreTokens(s);
    }

    /** The loop of build_cmd_buff: one ScanNext round per token, each token
        start stored in the next argv slot, until the terminator. */
    method ParseTokens(buf: array<char>, ghost s: string)
      requires Valid() && buffer == buf && argc == 0
      requires Scanning(buf[..], s, [], 0) && |Spans(s, 0)| < argvMax
      modifies this, buf
      ensures Valid() && buffer == buf
      ensures buf[..] == Written(s, capacity, Ends(Spans(s, 0)))
      ensures argc == |Spans(s, 0)| && argv == Starts(Spans(s, 0)) + old(argv)[argc..]
    {
      ghost var done: seq<Span> := [];
      var ptr := 0;
      var inQuotes := false;
      ghost var finished := false;
      while buf[ptr] != NUL
        invariant buffer == buf
        invariant Scanning(buf[..], s, done, ptr)
        invariant argc == |done| && |argv| == argvMax
        invariant argv == Starts(done) + old(argv)[argc..]
        invariant inQuotes ==> ptr >= |s|
        decreases capacity - ptr
      {
        var arg, next;
        ghost var sp;
        arg, next, inQuotes, sp := ScanNext(buf, ptr, inQuotes, s, done);
        if arg.Null? {
          finished := true;
          break;
        }
        assert |done + [sp]| <= |Spans(s, 0)|;
        PushStart(done, sp, old(argv), argc);
        argv := argv[argc := arg];
        argc := argc + 1;
        done := done + [sp];
        ptr := next;
      }
      if !finished {
        ScanExit(buf[..], s, done, ptr);
      }
    }

    /** Once the buffer holds the written line and argv its token starts, the
        strings read through argv are the line's tokens. */
    lemma ArgsAreTokens(s: string)
      requires Valid() && buffer != null && NoNul(s) && |s| < capacity
      requires buffer[..] == Written(s, capacity, Ends(Spans(s, 0)))
      requires argc == |Spans(s, 0)| && argv[..argc] == Starts(Spans(s, 0))
      ensures ArgsInBuffer() && Args() == Tokens(s)
    {
      var r := Spans(s, 0);
      SpansWellFormed(s, 0);
      forall t | 0 <= t < argc
        ensures argv[t] == At(r[t].start) && r[t].start < capacity
      {
        assert argv[..argc][t] == argv[t];
      }
      assert buffer[..][capacity - 1] == NUL;
      forall t | 0 <= t < argc
        ensures Args()[t] == Tokens(s)[t]
      {
        ArgReadBack(s, capacity, r, t);
        TextsIndex(s, r, t);
      }
    }
  }
}
