/** The string utility of the C refresher: setup_buff copies a user string into
    a fixed buffer of BUFFER_SZ cells, keeping only the first character of each
    run of blanks (spaces and tabs), pads the rest with '.' and terminates it;
    count_words is still a stub. */
module StringFun {
  import opened DshTypes

  const BUFFER_SZ: nat := 50

  /** The characters setup_buff treats as whitespace: space and tab only. */
  predicate IsBlank(c: char) {
    c == ' ' || c == '\t'
  }

  /** The character the C loop reads at index i of a C string: the terminator
      once the contents are exhausted. */
  function CharAt(s: string, i: nat): char {
    if i < |s| then s[i] else NUL
  }

  function Last(s: string): char
    requires |s| > 0
  {
    s[|s| - 1]
  }

  /** s with every maximal run of blanks replaced by its first character,
      defined one input character at a time, as the copy loop reads it. */
  function Collapse(s: string): (c: string)
    ensures |c| <= |s|
  {
    if |s| == 0 then []
    else if |s| >= 2 && IsBlank(s[|s| - 1]) && IsBlank(s[|s| - 2]) then Collapse(s[..|s| - 1])
    else Collapse(s[..|s| - 1]) + [s[|s| - 1]]
  }

  /** No two neighbouring characters of t are both blanks. */
  predicate NoAdjacentBlanks(t: string) {
    forall k :: 0 <= k < |t| - 1 ==> !(IsBlank(t[k]) && IsBlank(t[k + 1]))
  }

  /** The characters of s that are not blanks, in order. */
  function NonBlanks(s: string): string {
    if |s| == 0 then []
    else NonBlanks(s[..|s| - 1]) + (if IsBlank(Last(s)) then [] else [Last(s)])
  }

  /** n copies of '.'. */
  function Dots(n: nat): (d: string)
    ensures |d| == n && forall k :: 0 <= k < n ==> d[k] == '.'
  {
    if n == 0 then [] else Dots(n - 1) + ['.']
  }

  /** The buffer setup_buff fills: the collapsed input cut to BUFFER_SZ - 1
      characters, padded with '.', then the terminator. */
  function Layout(s: string): string {
    var c := Collapse(s);
    var n := Min(|c|, BUFFER_SZ - 1);
    c[..n] + Dots(BUFFER_SZ - 1 - n) + [NUL]
  }

  // ---------------------------------------------------------------------------
  // Properties of the collapse
  // ---------------------------------------------------------------------------

  /** Reading one more character extends the output by it, unless it continues
      a run of blanks. */
  lemma CollapseStep(s: string, i: nat)
    requires i < |s|
    ensures Collapse(s[..i + 1]) ==
            if i >= 1 && IsBlank(s[i]) && IsBlank(s[i - 1]) then Collapse(s[..i])
            else Collapse(s[..i]) + [s[i]]
  {
    assert s[..i + 1][..i] == s[..i];
  }

  /** The collapse of a prefix is a prefix of the collapse: the loop can stop
      at any point and what it wrote is the start of the full output. */
  lemma {:induction false} CollapsePrefix(s: string, i: nat)
    requires i <= |s|
    ensures Collapse(s[..i]) <= Collapse(s)
    decreases |s| - i
  {
    if i < |s| {
      CollapsePrefix(s, i + 1);
      CollapseStep(s, i);
    } else {
      assert s[..i] == s;
    }
  }

  /** The output ends in a blank exactly when the input does. */
  lemma {:induction false} CollapseLast(s: string)
    requires |s| > 0
    ensures |Collapse(s)| > 0 && (IsBlank(Last(Collapse(s))) <==> IsBlank(Last(s)))
    decreases |s|
  {
    if |s| >= 2 && IsBlank(s[|s| - 1]) && IsBlank(s[|s| - 2]) {
      var p := s[..|s| - 1];
      CollapseLast(p);
    }
  }

  /** No two blanks are adjacent in the output. */
  lemma {:induction false} CollapseNoAdjacentBlanks(s: string)
    ensures NoAdjacentBlanks(Collapse(s))
    decreases |s|
  {
    if |s| > 0 {
      var p := s[..|s| - 1];
      CollapseNoAdjacentBlanks(p);
      if !(|s| >= 2 && IsBlank(s[|s| - 1]) && IsBlank(s[|s| - 2])) && |p| > 0 {
        CollapseLast(p);
        assert Last(p) == s[|s| - 2];
      }
    }
  }

  /** Only blanks are dropped: the other characters survive, in order. */
  lemma {:induction false} CollapseKeepsNonBlanks(s: string)
    ensures NonBlanks(Collapse(s)) == NonBlanks(s)
    decreases |s|
  {
    if |s| > 0 {
      var p := s[..|s| - 1];
      CollapseKeepsNonBlanks(p);
      var c := Collapse(p);
      if !(|s| >= 2 && IsBlank(s[|s| - 1]) && IsBlank(s[|s| - 2])) {
        assert (c + [Last(s)])[..|c|] == c;
      }
    }
  }

  /** A string with no adjacent blanks is left as it is. */
  lemma {:induction false} CollapseFixesNoAdjacent(t: string)
    requires NoAdjacentBlanks(t)
    ensures Collapse(t) == t
    decreases |t|
  {
    if |t| > 0 {
      var p := t[..|t| - 1];
      assert NoAdjacentBlanks(p);
      CollapseFixesNoAdjacent(p);
      if |t| >= 2 {
        assert !(IsBlank(t[|t| - 2]) && IsBlank(t[|t| - 1]));
      }
    }
  }

  /** Collapsing twice is collapsing once. */
  lemma CollapseIdempotent(s: string)
    ensures Collapse(Collapse(s)) == Collapse(s)
  {
    CollapseNoAdjacentBlanks(s);
    CollapseFixesNoAdjacent(Collapse(s));
  }

  /** The filled buffer: BUFFER_SZ cells; the collapsed input, cut to
      BUFFER_SZ - 1 characters, then '.' up to index BUFFER_SZ - 2, then the
      terminator; and no two neighbouring blanks anywhere before it. */
  lemma LayoutShape(s: string)
    ensures var b := Layout(s);
            var c := Collapse(s);
            var n := Min(|c|, BUFFER_SZ - 1);
            |b| == BUFFER_SZ && b[BUFFER_SZ - 1] == NUL &&
            b[..n] == c[..n] &&
            (forall k :: n <= k < BUFFER_SZ - 1 ==> b[k] == '.') &&
            (forall k :: 0 <= k < BUFFER_SZ - 2 ==> !(IsBlank(b[k]) && IsBlank(b[k + 1])))
  {
    var b := Layout(s);
    var c := Collapse(s);
    var n := Min(|c|, BUFFER_SZ - 1);
    CollapseNoAdjacentBlanks(s);
    assert b[..n] == c[..n];
    forall k | 0 <= k < BUFFER_SZ - 2
      ensures !(IsBlank(b[k]) && IsBlank(b[k + 1]))
    {
      if k + 1 < n {
        assert b[k] == c[k] && b[k + 1] == c[k + 1];
      } else {
        assert b[k + 1] == '.';
      }
    }
  }

  /** A buffer holding the collapsed prefix, the dots and the terminator is
      the Layout. */
  lemma LayoutIs(b: string, s: string)
    requires |b| == BUFFER_SZ && b[BUFFER_SZ - 1] == NUL
    requires var c := Collapse(s);
             var n := Min(|c|, BUFFER_SZ - 1);
             b[..n] == c[..n] && forall k :: n <= k < BUFFER_SZ - 1 ==> b[k] == '.'
    ensures b == Layout(s)
  {
    var c := Collapse(s);
    var n := Min(|c|, BUFFER_SZ - 1);
    LayoutShape(s);
    forall k | 0 <= k < BUFFER_SZ
      ensures b[k] == Layout(s)[k]
    {
      if k < n {
        assert b[k] == b[..n][k] && Layout(s)[k] == Layout(s)[..n][k];
      }
    }
  }

  /** Where the copy loop stops, at the input's end or with BUFFER_SZ - 1
      characters written, it has written the cut collapse. */
  lemma CopyStops(s: string, i: nat, j: nat)
    requires i <= |s| && j <= BUFFER_SZ - 1 && j == |Collapse(s[..i])|
    requires i == |s| || j == BUFFER_SZ - 1
    ensures j == Min(|Collapse(s)|, BUFFER_SZ - 1) && Collapse(s[..i]) == Collapse(s)[..j]
  {
    CollapsePrefix(s, i);
    if i == |s| {
      assert s[..i] == s;
    }
  }

  // ---------------------------------------------------------------------------
  // The C functions
  // ---------------------------------------------------------------------------

  /** setup_buff: a declared length over BUFFER_SZ is refused with -1 and the
      buffer untouched; otherwise the first BUFFER_SZ cells become Layout of the
      user string, nothing past them is written, and the result is the number
      of cells before the terminator. The length argument is only compared:
      the copy runs to the string's terminator. */
  method SetupBuff(buff: array<char>, userStr: string, len: int) returns (r: int)
    requires NoNul(userStr)
    requires buff.Length >= BUFFER_SZ
    modifies buff
    ensures len > BUFFER_SZ ==> r == -1 && buff[..] == old(buff[..])
    ensures len <= BUFFER_SZ ==> r == BUFFER_SZ - 1 && buff[..BUFFER_SZ] == Layout(userStr)
    ensures buff[BUFFER_SZ..] == old(buff[BUFFER_SZ..])
  {
    if len > BUFFER_SZ {
      return -1;
    }
    var j := CopyCollapsed(buff, userStr);
    j := PadDots(buff, j, userStr);
    buff[j] := NUL;
    LayoutIs(buff[..BUFFER_SZ], userStr);
    r := j;
  }

  /** The copy loop of setup_buff: the collapsed user string, cut to
      BUFFER_SZ - 1 characters, at the start of the buffer; it returns how
      many characters it wrote. */
  method CopyCollapsed(buff: array<char>, userStr: string) returns (j: nat)
    requires NoNul(userStr)
    requires buff.Length >= BUFFER_SZ
    modifies buff
    ensures j == Min(|Collapse(userStr)|, BUFFER_SZ - 1) && buff[..j] == Collapse(userStr)[..j]
    ensures buff[BUFFER_SZ..] == old(buff[BUFFER_SZ..])
  {
    var i := 0;
    j := 0;
    var consecutive := 0;
    while CharAt(userStr, i) != NUL && j < BUFFER_SZ - 1
      invariant i <= |userStr| && j <= BUFFER_SZ - 1
      invariant buff[..j] == Collapse(userStr[..i])
      invariant consecutive >= 0
      invariant consecutive > 0 <==> i > 0 && IsBlank(userStr[i - 1])
      invariant buff[BUFFER_SZ..] == old(buff[BUFFER_SZ..])
      decreases |userStr| - i
    {
      var c := userStr[i];
      CollapseStep(userStr, i);
      if c == ' ' || c == '\t' {
        if consecutive > 0 {
          i := i + 1;
          continue;
        } else {
          buff[j] := c;
          consecutive := consecutive + 1;
          j := j + 1;
        }
      } else {
        buff[j] := c;
        j := j + 1;
        consecutive := 0;
      }
      i := i + 1;
    }
    CopyStops(userStr, i, j);
  }

  /** The padding loop of setup_buff: '.' from j up to index BUFFER_SZ - 2,
      the copied characters left as they are. */
  method PadDots(buff: array<char>, j0: nat, ghost userStr: string) returns (j: nat)
    requires buff.Length >= BUFFER_SZ
    requires j0 == Min(|Collapse(userStr)|, BUFFER_SZ - 1) && buff[..j0] == Collapse(userStr)[..j0]
    modifies buff
    ensures j == BUFFER_SZ - 1
    ensures buff[..j0] == Collapse(userStr)[..j0] && forall k :: j0 <= k < BUFFER_SZ - 1 ==> buff[k] == '.'
    ensures buff[BUFFER_SZ - 1..] == old(buff[BUFFER_SZ - 1..])
  {
    j := j0;
    while j < BUFFER_SZ - 1
      invariant j0 <= j <= BUFFER_SZ - 1
      invariant buff[..j0] == Collapse(userStr)[..j0]
      invariant forall k :: j0 <= k < j ==> buff[k] == '.'
      invariant buff[BUFFER_SZ - 1..] == old(buff[BUFFER_SZ - 1..])
    {
      buff[j] := '.';
      j := j + 1;
    }
  }

  /** count_words: a stub that reports no words whatever it is given. */
  function CountWords(buff: string, len: int, strLen: int): (n: int)
    ensures n == 0
  {
    0
  }
}
