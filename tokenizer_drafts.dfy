/** build_cmd_buff as each shell draft writes it, step for step, on the buffer
    contents as a value. Every read is checked against the buffer: a read past
    its last cell ends the run with Overrun. The two drafts differ only in the
    scan guard of parse_argument. Both step one cell past the NUL that ends
    each token, even when that NUL is the buffer's last cell. */
module TokenizerDrafts {
  import opened DshTypes
  import Tokenizer

  /** 4-ShellP2 or 5-ShellP3. */
  datatype Draft = ShellP2 | ShellP3

  /** The run reads the cell at index `at`, past the end of the buffer; or it
      finishes with the buffer and the token starts it stored in argv. */
  datatype Outcome = Overrun(at: nat) | Parsed(buffer: seq<char>, starts: seq<nat>)

  /** The scan of parse_argument: it reads past the buffer, or stops at `at`. */
  datatype Scan = ScanOverrun(at: nat) | Stopped(buffer: seq<char>, at: nat, inQuotes: bool)

  /** What parse_argument leaves: a read past the buffer, or the buffer with
      the token's end overwritten, the token's start and the quote flag. */
  datatype Arg = ArgOverrun(at: nat) | Arg(buffer: seq<char>, start: nat, inQuotes: bool)

  /** The guard of parse_argument's scan loop. */
  predicate Continues(draft: Draft, c: char, inQuotes: bool) {
    match draft
    case ShellP2 => c != NUL && (inQuotes || c != ' ')
    case ShellP3 => (c != NUL && inQuotes) || c != ' '
  }

  /** The buffer after strncpy of at most capacity - 1 characters and the
      terminator in the last cell. */
  function Load(line: string, capacity: nat): (b: seq<char>)
    requires capacity >= 1
    ensures |b| == capacity && b[capacity - 1] == NUL
    ensures var s := Tokenizer.Copied(line, capacity);
            b[..|s|] == s && forall k :: |s| <= k < capacity ==> b[k] == NUL
  {
    var s := Tokenizer.Copied(line, capacity);
    seq(capacity, k requires 0 <= k < capacity => if k < |s| then s[k] else NUL)
  }

  /** skip_spaces; its result may lie past the buffer. */
  function SkipFrom(b: seq<char>, i: nat): (j: nat)
    ensures i <= j
    ensures j < |b| ==> b[j] != ' '
    decreases |b| - i
  {
    if i < |b| && b[i] == ' ' then SkipFrom(b, i + 1) else i
  }

  /** The scan loop of parse_argument, from i. */
  function ScanFrom(draft: Draft, b: seq<char>, i: nat, inQuotes: bool): (r: Scan)
    requires i <= |b|
    ensures r.Stopped? ==> i <= r.at < |b| && |r.buffer| == |b|
    ensures r.ScanOverrun? ==> r.at == |b|
    decreases |b| - i
  {
    if i >= |b| then ScanOverrun(i)
    else if !Continues(draft, b[i], inQuotes) then Stopped(b, i, inQuotes)
    else if b[i] == '"' then Stopped(b[i := NUL], i, false)
    else ScanFrom(draft, b, i + 1, inQuotes)
  }

  /** parse_argument at p: an opening quote is stepped over and sets the flag,
      the scan runs, and a cell it stops on that is not yet NUL becomes NUL. */
  function ParseFrom(draft: Draft, b: seq<char>, p: nat, inQuotes: bool): (r: Arg)
    requires p < |b|
    ensures r.Arg? ==> |r.buffer| == |b|
  {
    var start := if b[p] == '"' then p + 1 else p;
    var inQ := b[p] == '"' || inQuotes;
    match ScanFrom(draft, b, start, inQ)
    case ScanOverrun(i) => ArgOverrun(i)
    case Stopped(b', e, inQ') =>
      if b'[e] != NUL then Arg(b'[e := NUL], start, inQ') else Arg(b', start, inQ')
  }

  /** The walk to the next NUL; its result may lie past the buffer. */
  function NulAt(b: seq<char>, i: nat): (e: nat)
    ensures i <= e
    ensures e < |b| ==> b[e] == NUL
    decreases |b| - i
  {
    if i >= |b| || b[i] == NUL then i else NulAt(b, i + 1)
  }

  /** The main loop of build_cmd_buff from ptr, with the starts stored so far. */
  function LoopFrom(draft: Draft, b: seq<char>, ptr: nat, inQuotes: bool, starts: seq<nat>): Outcome
    decreases |b| + 1 - ptr
  {
    if ptr >= |b| then Overrun(ptr)
    else if b[ptr] == NUL then Parsed(b, starts)
    else
      var q := SkipFrom(b, ptr);
      if q >= |b| then Overrun(q)
      else if b[q] == NUL then Parsed(b, starts)
      else
        match ParseFrom(draft, b, q, inQuotes)
        case ArgOverrun(i) => Overrun(i)
        case Arg(b', start, inQ') =>
          var e := NulAt(b', q);
          if e >= |b'| then Overrun(e)
          else LoopFrom(draft, b', e + 1, inQ', starts + [start])
  }

  /** build_cmd_buff of a draft, as written, on a buffer of capacity cells. */
  function BuildAsWritten(draft: Draft, line: string, capacity: nat): Outcome
    requires capacity >= 1
  {
    LoopFrom(draft, Load(line, capacity), 0, false, [])
  }

  // ---------------------------------------------------------------------------
  // 5-ShellP3: the scan guard does not stop at the terminator.
  // ---------------------------------------------------------------------------

  /** Outside quotes, the 5-ShellP3 scan passes every cell that is neither ' '
      nor '"', NUL included, and so runs off the buffer. */
  lemma {:induction false} ShellP3ScanRunsOff(b: seq<char>, i: nat)
    requires i <= |b|
    requires forall k :: i <= k < |b| ==> b[k] != ' ' && b[k] != '"'
    ensures ScanFrom(ShellP3, b, i, false) == ScanOverrun(|b|)
    decreases |b| - i
  {
    if i < |b| {
      assert Continues(ShellP3, b[i], false);
      ShellP3ScanRunsOff(b, i + 1);
    }
  }

  /** Every one-word line (for example "ls") makes the 5-ShellP3 build_cmd_buff
      read the cell just past the command buffer. */
  lemma ShellP3WordOverruns(w: string, capacity: nat)
    requires Tokenizer.PlainWord(w) && |w| < capacity
    ensures BuildAsWritten(ShellP3, w, capacity) == Overrun(capacity)
  {
    var b := Load(w, capacity);
    assert Tokenizer.Copied(w, capacity) == w;
    assert b[0] == w[0];
    forall k | 0 <= k < capacity
      ensures b[k] != ' ' && b[k] != '"'
    {
      if k < |w| {
        assert b[k] == b[..|w|][k];
      }
    }
    ShellP3ScanRunsOff(b, 0);
  }

  /** A last token closed by '"' stops the 5-ShellP3 scan before the
      terminator: "ab\"" parses to the one token "ab" inside the buffer. */
  lemma ShellP3QuoteClosedParses()
    ensures var r := BuildAsWritten(ShellP3, "ab\"", 8);
            r.Parsed? && r.starts == [0] && r.buffer[..3] == "ab" + [NUL]
  {
  }

  /** A quote left open is scanned to the terminator, where the 5-ShellP3
      guard no longer sees the quote: "\"hi" runs off the buffer. */
  lemma ShellP3OpenQuoteOverruns()
    ensures BuildAsWritten(ShellP3, "\"hi", 8) == Overrun(8)
  {
  }

  // ---------------------------------------------------------------------------
  // 4-ShellP2: the step past a token's NUL leaves a full buffer.
  // ---------------------------------------------------------------------------

  /** The 4-ShellP2 scan, outside quotes, stops at the first ' ', '"' or NUL. */
  lemma {:induction false} ShellP2ScanStops(b: seq<char>, i: nat, e: nat)
    requires i <= e < |b| && (b[e] == ' ' || b[e] == '"' || b[e] == NUL)
    requires forall k :: i <= k < e ==> b[k] != ' ' && b[k] != '"' && b[k] != NUL
    ensures ScanFrom(ShellP2, b, i, false) ==
            if b[e] == '"' then Stopped(b[e := NUL], e, false) else Stopped(b, e, false)
    decreases e - i
  {
    if i < e {
      ShellP2ScanStops(b, i + 1, e);
    }
  }

  lemma {:induction false} NulAtIs(b: seq<char>, i: nat, e: nat)
    requires i <= e < |b| && b[e] == NUL
    requires forall k :: i <= k < e ==> b[k] != NUL
    ensures NulAt(b, i) == e
    decreases e - i
  {
    if i < e {
      NulAtIs(b, i + 1, e);
    }
  }

  /** One word that fills the buffer's capacity - 1 characters: 4-ShellP2's
      step past the final NUL lands on the cell just past the buffer, which the
      loop condition then reads. */
  lemma ShellP2FullWordOverruns(w: string, capacity: nat)
    requires capacity >= 2 && |w| >= capacity - 1
    requires forall k :: 0 <= k < |w| ==> w[k] != ' ' && w[k] != '"' && w[k] != NUL
    ensures BuildAsWritten(ShellP2, w, capacity) == Overrun(capacity)
  {
    var b := Load(w, capacity);
    var n := capacity - 1;
    assert Tokenizer.Copied(w, capacity) == w[..n];
    forall k | 0 <= k < n
      ensures b[k] == w[k]
    {
      assert b[k] == b[..n][k];
    }
    assert b[0] != ' ' && b[0] != '"' && b[0] != NUL;
    ShellP2ScanStops(b, 0, n);
    assert ParseFrom(ShellP2, b, 0, false) == Arg(b, 0, false);
    NulAtIs(b, 0, n);
    assert LoopFrom(ShellP2, b, 0, false, []) == LoopFrom(ShellP2, b, n + 1, false, [0]);
  }

  /** The same word one character shorter: 4-ShellP2 stays inside the buffer
      and stores the one token. The overrun is confined to lines that fill the
      buffer. */
  lemma ShellP2ShortWordParses(w: string, capacity: nat)
    requires Tokenizer.PlainWord(w) && |w| < capacity - 1
    ensures BuildAsWritten(ShellP2, w, capacity) == Parsed(Load(w, capacity), [0])
  {
    var b := Load(w, capacity);
    var n := |w|;
    assert Tokenizer.Copied(w, capacity) == w;
    forall k | 0 <= k < n
      ensures b[k] == w[k]
    {
      assert b[k] == b[..n][k];
    }
    assert b[0] != ' ' && b[0] != '"' && b[0] != NUL;
    ShellP2ScanStops(b, 0, n);
    assert ParseFrom(ShellP2, b, 0, false) == Arg(b, 0, false);
    NulAtIs(b, 0, n);
    assert LoopFrom(ShellP2, b, 0, false, []) == LoopFrom(ShellP2, b, n + 1, false, [0]);
    assert LoopFrom(ShellP2, b, n + 1, false, [0]) == Parsed(b, [0]);
  }
}
