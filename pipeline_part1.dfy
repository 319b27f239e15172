/** build_cmd_list of the first shell draft: the line is split on '|' with
    strtok, and each segment is split into an executable name, its first
    space-delimited word, and the raw argument string after it, stored in the
    exe and args fields of a command slot, with the limits EXE_MAX and ARG_MAX.
    The inner calls strtok(command, " ") and strtok(NULL, "") move the same
    saved cursor that the outer strtok(NULL, "|") resumes from; the model
    passes that cursor explicitly. */
module PipelinePart1 {
  import opened DshTypes
  import opened CStrings
  import opened CStrtok
  import opened Tokenizer

  /** command_t: the exe and args character fields, as the C strings they
      hold. */
  datatype Command = Command(exe: string, args: string)

  /** A slot as memset leaves it. */
  const Empty: Command := Command("", "")

  /** The characters build_cmd_list may overwrite with NUL: the '|' and ' '
      delimiters of its strtok calls. */
  const CUTS: set<char> := PIPE + {' '}

  /** CMD_MAX zeroed slots. */
  function Zeroed(n: nat): (cmds: seq<Command>)
    ensures |cmds| == n && forall k :: 0 <= k < n ==> cmds[k] == Empty
  {
    seq(n, _ => Empty)
  }

  // ---------------------------------------------------------------------------
  // One segment
  // ---------------------------------------------------------------------------

  /** The first index at or after i that holds a ' ', or the end of s: where
      strtok(command, " ") ends the executable name. */
  function SpaceEnd(s: string, i: nat): (e: nat)
    requires i <= |s|
    ensures i <= e <= |s| && (e < |s| ==> s[e] == ' ')
    ensures forall k :: i <= k < e ==> s[k] != ' '
    decreases |s| - i
  {
    if i < |s| && s[i] != ' ' then SpaceEnd(s, i + 1) else i
  }

  /** Whether a segment was stored, and what its (zeroed) slot holds after the
      loop body has run on it. */
  datatype Parsed = Parsed(ok: bool, slot: Command)

  /** Storing a word w and what followed it, if anything, in a zeroed slot: a
      word of EXE_MAX characters or more is ERR_CMD_OR_ARGS_TOO_BIG with
      nothing stored; otherwise the word is the exe, and the rest, when
      there is one, is the args, which must be shorter than ARG_MAX (the exe
      is already stored when it is not). */
  function Store(w: string, rest: Option<string>, exeMax: nat, argMax: nat): Parsed {
    if |w| >= exeMax then Parsed(false, Empty)
    else if rest.None? then Parsed(true, Command(w, ""))
    else if |rest.value| >= argMax then Parsed(false, Command(w, ""))
    else Parsed(true, Command(w, rest.value))
  }

  /** The loop body on the segment s: leading spaces are skipped; no word
      left is ERR_CMD_OR_ARGS_TOO_BIG with nothing stored; otherwise the word
      runs to the next ' ', and what follows that single ' ', if anything,
      is the rest. */
  function ParseSegment(s: string, exeMax: nat, argMax: nat): Parsed {
    var j := SkipBlanks(s, 0);
    if j == |s| then Parsed(false, Empty)
    else
      var e := SpaceEnd(s, j);
      Store(s[j..e], if e + 1 < |s| then Some(s[e + 1..]) else None, exeMax, argMax)
  }

  /** A name strtok(command, " ") returns whole: nonempty, no ' '. */
  predicate Word(w: string) {
    |w| > 0 && forall k :: 0 <= k < |w| ==> w[k] != ' '
  }

  /** What a stored segment looks like: spaces, the exe, then nothing, a
      lone ' ', or a ' ' and the args. */
  function Layout(lead: nat, c: Command, trailing: bool): string {
    Spaces(lead) + c.exe + (if c.args != "" then " " + c.args else if trailing then " " else "")
  }

  /** A stored segment is laid out as leading spaces, a word shorter than
      EXE_MAX and optional args shorter than ARG_MAX, and the slot holds that
      word and those args (ParseLayout is the converse). Absent args are
      never measured against ARG_MAX. */
  lemma {:induction false} ParseSegmentSpec(s: string, exeMax: nat, argMax: nat)
    ensures var p := ParseSegment(s, exeMax, argMax);
            p.ok ==> Word(p.slot.exe) && |p.slot.exe| < exeMax && (p.slot.args != "" ==> |p.slot.args| < argMax) &&
                     exists lead: nat, trailing: bool :: s == Layout(lead, p.slot, trailing)
  {
    var p := ParseSegment(s, exeMax, argMax);
    if p.ok {
      var j := SkipBlanks(s, 0);
      var e := SpaceEnd(s, j);
      SkippedAreBlank(s, 0);
      assert s[..j] == Spaces(j);
      assert p.slot.exe == s[j..e];
      assert Word(s[j..e]) by {
        assert s[j] != ' ' && j < e;
        forall k | 0 <= k < e - j
          ensures s[j..e][k] != ' '
        {
          assert s[j..e][k] == s[j + k];
        }
      }
      if e == |s| {
        assert s == s[..j] + s[j..e];
        assert s == Layout(j, p.slot, false);
      } else if e + 1 == |s| {
        assert s == s[..j] + s[j..e] + " ";
        assert s == Layout(j, p.slot, true);
      } else {
        assert p.slot.args == s[e + 1..];
        assert s == s[..j] + s[j..e] + (" " + s[e + 1..]);
        assert s == Layout(j, p.slot, false);
      }
    }
  }

  lemma {:induction false} SkipSpaces(lead: nat, rest: string, k: nat)
    requires k <= lead && (|rest| == 0 || rest[0] != ' ')
    ensures SkipBlanks(Spaces(lead) + rest, k) == lead
    decreases lead - k
  {
    var s := Spaces(lead) + rest;
    if k < lead {
      assert s[k] == ' ';
      SkipSpaces(lead, rest, k + 1);
    } else if k < |s| {
      assert s[k] == rest[0];
    }
  }

  lemma {:induction false} SpaceEndOfWord(s: string, j: nat, w: string)
    requires j + |w| <= |s| && s[j..j + |w|] == w && Word(w)
    requires j + |w| == |s| || s[j + |w|] == ' '
    ensures SpaceEnd(s, j) == j + |w|
    decreases |s| - j
  {
    assert s[j] == w[0];
    if |w| > 1 {
      assert s[j + 1..j + 1 + |w[1..]|] == w[1..];
      SpaceEndOfWord(s, j + 1, w[1..]);
    }
  }

  /** Laying a command out and parsing it gives the command back. */
  lemma ParseLayout(lead: nat, c: Command, trailing: bool, exeMax: nat, argMax: nat)
    requires Word(c.exe) && |c.exe| < exeMax && (c.args != "" ==> |c.args| < argMax)
    ensures ParseSegment(Layout(lead, c, trailing), exeMax, argMax) == Parsed(true, c)
  {
    var tail := if c.args != "" then " " + c.args else if trailing then " " else "";
    var s := Layout(lead, c, trailing);
    assert s == Spaces(lead) + (c.exe + tail);
    SkipSpaces(lead, c.exe + tail, 0);
    var e := lead + |c.exe|;
    assert s[lead..e] == c.exe;
    assert e < |s| ==> s[e] == tail[0];
    SpaceEndOfWord(s, lead, c.exe);
    if c.args != "" {
      assert s[e + 1..] == c.args;
    }
  }

  // ---------------------------------------------------------------------------
  // The whole line
  // ---------------------------------------------------------------------------

  /** The status, command count and slots once the loop reaches segment i
      with the slots cmds: past the last segment it is OK; a segment beyond
      CMD_MAX is ERR_TOO_MANY_COMMANDS; a segment that is not stored is
      ERR_CMD_OR_ARGS_TOO_BIG. */
  datatype Outcome = Outcome(rc: Status, count: nat, commands: seq<Command>)

  function Build(segs: seq<string>, i: nat, cmdMax: nat, exeMax: nat, argMax: nat, cmds: seq<Command>): Outcome
    requires |cmds| == cmdMax
    decreases |segs| - i
  {
    if i >= |segs| then Outcome(Ok, i, cmds)
    else if i >= cmdMax then Outcome(ErrTooManyCommands, i, cmds)
    else
      var p := ParseSegment(segs[i], exeMax, argMax);
      var cmds' := cmds[i := p.slot];
      if !p.ok then Outcome(ErrCmdOrArgsTooBig, i, cmds')
      else Build(segs, i + 1, cmdMax, exeMax, argMax, cmds')
  }

  /** One step of Build: a stored segment moves on to the next one. */
  lemma BuildStored(segs: seq<string>, i: nat, cmdMax: nat, exeMax: nat, argMax: nat, cmds: seq<Command>)
    requires |cmds| == cmdMax && i < |segs| && i < cmdMax && ParseSegment(segs[i], exeMax, argMax).ok
    ensures Build(segs, i, cmdMax, exeMax, argMax, cmds) ==
            Build(segs, i + 1, cmdMax, exeMax, argMax, cmds[i := ParseSegment(segs[i], exeMax, argMax).slot])
  {
  }

  /** The three ways Build ends. */
  lemma BuildEnds(segs: seq<string>, i: nat, cmdMax: nat, exeMax: nat, argMax: nat, cmds: seq<Command>)
    requires |cmds| == cmdMax
    ensures i >= |segs| ==> Build(segs, i, cmdMax, exeMax, argMax, cmds) == Outcome(Ok, i, cmds)
    ensures i < |segs| && i >= cmdMax ==>
              Build(segs, i, cmdMax, exeMax, argMax, cmds) == Outcome(ErrTooManyCommands, i, cmds)
    ensures i < |segs| && i < cmdMax && !ParseSegment(segs[i], exeMax, argMax).ok ==>
              Build(segs, i, cmdMax, exeMax, argMax, cmds) ==
              Outcome(ErrCmdOrArgsTooBig, i, cmds[i := ParseSegment(segs[i], exeMax, argMax).slot])
  {
  }

  /** What Build promises: the count stays within the segments and CMD_MAX;
      OK means every segment from i on was stored, each in its own slot, in
      order; ERR_TOO_MANY_COMMANDS means CMD_MAX segments were stored and
      one was left over; ERR_CMD_OR_ARGS_TOO_BIG names the segment that was
      not stored; no slot before i or after the count is written. */
  lemma {:induction false} BuildSpec(segs: seq<string>, i: nat, cmdMax: nat, exeMax: nat, argMax: nat,
                                     cmds: seq<Command>)
    requires |cmds| == cmdMax && i <= |segs| && i <= cmdMax
    ensures var out := Build(segs, i, cmdMax, exeMax, argMax, cmds);
            i <= out.count <= |segs| && out.count <= cmdMax && |out.commands| == cmdMax &&
            (forall k :: 0 <= k < i ==> out.commands[k] == cmds[k]) &&
            (forall k :: out.count < k < cmdMax ==> out.commands[k] == cmds[k]) &&
            (forall k :: i <= k < out.count ==>
               ParseSegment(segs[k], exeMax, argMax) == Parsed(true, out.commands[k])) &&
            (out.rc == Ok ==> out.count == |segs|) &&
            (out.rc == ErrTooManyCommands ==> out.count == cmdMax < |segs|) &&
            (out.rc == ErrCmdOrArgsTooBig ==>
               out.count < |segs| && !ParseSegment(segs[out.count], exeMax, argMax).ok) &&
            out.rc in {Ok, ErrTooManyCommands, ErrCmdOrArgsTooBig}
    decreases |segs| - i
  {
    if i < |segs| && i < cmdMax {
      var p := ParseSegment(segs[i], exeMax, argMax);
      if p.ok {
        BuildSpec(segs, i + 1, cmdMax, exeMax, argMax, cmds[i := p.slot]);
      }
    }
  }

  /** The segments the code as written reaches: the first one, if any. */
  function FirstOnly(segs: seq<string>): (first: seq<string>)
    ensures first <= segs && |first| == Min(1, |segs|)
  {
    if |segs| == 0 then [] else [segs[0]]
  }

  /** Code as written: the line is cut at the first segment, because the
      outer strtok resumes from the cursor the inner calls left on a
      terminator. At most one command is ever stored. */
  lemma AsWrittenStoresAtMostOne(segs: seq<string>, cmdMax: nat, exeMax: nat, argMax: nat)
    ensures Build(FirstOnly(segs), 0, cmdMax, exeMax, argMax, Zeroed(cmdMax)).count <= 1
  {
    BuildSpec(FirstOnly(segs), 0, cmdMax, exeMax, argMax, Zeroed(cmdMax));
  }

  /** "ls | wc": the code as written stores only "ls" and returns OK with one
      command; with a cursor of its own for the outer loop it stores "ls" and
      "wc". */
  lemma LsWcAsWrittenVsCorrected(b: seq<char>, cmdMax: nat, exeMax: nat, argMax: nat)
    requires b == "ls | wc\0" && cmdMax >= 2 && exeMax >= 3
    ensures Terminated(b, 0)
    ensures var segs := Fields(b, 0, PIPE);
            var ls := Zeroed(cmdMax)[0 := Command("ls", "")];
            Build(FirstOnly(segs), 0, cmdMax, exeMax, argMax, Zeroed(cmdMax)) == Outcome(Ok, 1, ls) &&
            Build(segs, 0, cmdMax, exeMax, argMax, Zeroed(cmdMax)) == Outcome(Ok, 2, ls[1 := Command("wc", "")])
  {
    LsWcFields(b);
    var segs := Fields(b, 0, PIPE);
    var ls, wc := Command("ls", ""), Command("wc", "");
    assert Layout(0, ls, true) == segs[0];
    ParseLayout(0, ls, true, exeMax, argMax);
    assert Layout(1, wc, false) == segs[1];
    ParseLayout(1, wc, false, exeMax, argMax);
    var z := Zeroed(cmdMax);
    var first := FirstOnly(segs);
    assert first == [segs[0]];
    assert Build(first, 1, cmdMax, exeMax, argMax, z[0 := ls]) == Outcome(Ok, 1, z[0 := ls]);
    assert Build(segs, 2, cmdMax, exeMax, argMax, z[0 := ls][1 := wc]) == Outcome(Ok, 2, z[0 := ls][1 := wc]);
    assert Build(segs, 1, cmdMax, exeMax, argMax, z[0 := ls]) == Outcome(Ok, 2, z[0 := ls][1 := wc]);
  }

  // ---------------------------------------------------------------------------
  // The loop body on the line buffer
  // ---------------------------------------------------------------------------

  /** strtok(command, " ") at the first non-space j of the segment s at t:
      NULL when there is none; otherwise the token starts there, a ' '
      closing the word is overwritten with NUL and the cursor moves past it,
      and a word that reaches the segment's end leaves the cursor on the
      terminator. */
  ghost function ExeCut(b: seq<char>, t: nat, s: string): Step
    requires Terminated(b, t) && CStr(b, t) == s
  {
    var j := SkipBlanks(s, 0);
    var e := SpaceEnd(s, j);
    if j == |s| then Step(b, None, t + |s|)
    else if e < |s| then Step(b[t + e := NUL], Some(t + j), t + e + 1)
    else Step(b, Some(t + j), t + e)
  }

  /** ExeCut in the buffer's own terms, the ones strtok works in: the
      cursor c = t + j is on a terminator when there is no word; otherwise
      on the word's first character, and strcspn from it stops at t + e,
      which holds a ' ' or the terminator. */
  lemma ExeCutShape(b: seq<char>, t: nat, s: string)
    requires Terminated(b, t) && CStr(b, t) == s
    ensures var j := SkipBlanks(s, 0);
            var c := t + j;
            Terminated(b, c) &&
            (j == |s| ==> b[c] == NUL && ExeCut(b, t, s) == Step(b, None, c)) &&
            (j < |s| ==>
               var e := t + SpaceEnd(s, j);
               b[c] != NUL && b[c] != ' ' && SpanOut(b, c, {' '}) == e &&
               (b[e] == NUL ==> ExeCut(b, t, s) == Step(b, Some(c), e)) &&
               (b[e] != NUL ==> ExeCut(b, t, s) == Step(b[e := NUL], Some(c), e + 1)))
  {
    var j := SkipBlanks(s, 0);
    if j == |s| {
      assert b[t + j] == NUL;
    } else {
      WordSpan(b, t, s, j, SpaceEnd(s, j));
    }
  }

  /** The cells of the word at j: neither NUL nor ' ' up to e, where a ' '
      or the terminator stops strcspn. */
  lemma WordSpan(b: seq<char>, t: nat, s: string, j: nat, e: nat)
    requires Terminated(b, t) && CStr(b, t) == s && j < |s| && s[j] != ' ' && e == SpaceEnd(s, j)
    ensures Terminated(b, t + j) && b[t + j] != NUL && b[t + j] != ' '
    ensures SpanOut(b, t + j, {' '}) == t + e && b[t + e] == if e < |s| then ' ' else NUL
  {
    var c := t + j;
    assert b[c] == s[j];
    forall k | c <= k < t + e
      ensures b[k] != NUL && b[k] !in {' '}
    {
      assert b[k] == s[k - t];
    }
    SpanOutIs(b, c, {' '}, t + e);
  }

  /** The token strtok returns at j is the word s[j..e]. */
  lemma WordText(b: seq<char>, t: nat, s: string, j: nat, e: nat)
    requires Terminated(b, t) && CStr(b, t) == s && j == SkipBlanks(s, 0) < |s| && e == SpaceEnd(s, j)
    ensures var b1 := if e < |s| then b[t + e := NUL] else b;
            ExeWord(t, s, b1, t + j)
  {
    var b1 := if e < |s| then b[t + e := NUL] else b;
    assert b1[t + e] == NUL;
    forall k | t + j <= k < t + e
      ensures b1[k] != NUL && b1[k] == s[k - t]
    {
      assert b1[k] == b[k] == s[k - t];
    }
    NulFromIs(b1, t + j, t + e);
    assert CStr(b1, t + j) == b1[t + j..t + e];
    SameCells(b1[t + j..t + e], s[j..e]);
  }

  lemma SameCells(x: string, y: string)
    requires |x| == |y| && forall k :: 0 <= k < |x| ==> x[k] == y[k]
    ensures x == y
  {
  }

  /** What follows the ' ' that closed the word at e: the C string from just
      past it to the segment's terminator. */
  lemma RestAfter(b: seq<char>, t: nat, s: string, e: nat)
    requires Terminated(b, t) && CStr(b, t) == s && e < |s|
    ensures var b1 := b[t + e := NUL];
            Terminated(b1, t + e + 1) && NulFrom(b1, t + e + 1) == t + |s| &&
            CStr(b1, t + e + 1) == s[e + 1..]
  {
    var b1 := b[t + e := NUL];
    forall k | t + e + 1 <= k < t + |s|
      ensures b1[k] != NUL
    {
      assert b1[k] == s[k - t];
    }
    NulFromIs(b1, t + e + 1, t + |s|);
  }

  /** strtok(NULL, "") from the cursor: NULL at a terminator; otherwise
      everything up to the terminator, which the cursor then rests on.
      Nothing is written. */
  lemma ArgsStep(b: seq<char>, save: nat)
    requires Terminated(b, save)
    ensures var r := StrtokStep(b, save, {});
            r.buffer == b && r.save == NulFrom(b, save) &&
            (r.token.None? <==> b[save] == NUL) && (r.token.Some? ==> r.token.value == save)
  {
    SpanInAt(b, save, {});
    SpanOutIs(b, save, {}, NulFrom(b, save));
  }

  /** The loop that skips the segment's leading SPACE_CHARs. */
  method SkipLeading(line: array<char>, t: nat, ghost b: seq<char>, ghost s: string) returns (c: nat)
    requires line[..] == b && Terminated(b, t) && CStr(b, t) == s
    ensures c == t + SkipBlanks(s, 0)
  {
    c := t;
    while line[c] == ' '
      invariant t <= c <= t + |s|
      invariant SkipBlanks(s, c - t) == SkipBlanks(s, 0)
      decreases t + |s| - c
    {
      c := c + 1;
    }
  }

  /** What strtok(command, " ") at the first non-space j of the segment s at
      t leaves behind, the step r: nothing from the segment's terminator on
      is written; NULL exactly when there is no word; otherwise the word
      s[j..e] (ExeWord), and the cursor either at the C string of what
      follows its closing ' ' or on a terminator (ExeCursor). */
  ghost predicate ExeResult(b: seq<char>, t: nat, s: string, r: Step) {
    ExeFrame(b, t, s, r.buffer) &&
    (r.token.None? <==> SkipBlanks(s, 0) == |s|) &&
    (r.token.Some? ==> ExeWord(t, s, r.buffer, r.token.value) && ExeCursor(t, s, r.buffer, r.save))
  }

  /** b1 is b with nothing from the terminator of the segment s at t on
      changed. */
  ghost predicate ExeFrame(b: seq<char>, t: nat, s: string, b1: seq<char>) {
    |b1| == |b| && t + |s| <= |b| && b1[t + |s|..] == b[t + |s|..]
  }

  /** The C string at p in b1 is the segment's first word. */
  ghost predicate ExeWord(t: nat, s: string, b1: seq<char>, p: nat) {
    var j := SkipBlanks(s, 0);
    p == t + j && Terminated(b1, p) && CStr(b1, p) == s[j..SpaceEnd(s, j)]
  }

  /** The cursor after the word: past its closing ' ', at the C string of
      the rest of the segment, or on a terminator when nothing follows. */
  ghost predicate ExeCursor(t: nat, s: string, b1: seq<char>, save: nat) {
    var e := SpaceEnd(s, SkipBlanks(s, 0));
    Terminated(b1, save) &&
    (e + 1 < |s| ==> save == t + e + 1 && NulFrom(b1, save) == t + |s| && CStr(b1, save) == s[e + 1..]) &&
    (e + 1 >= |s| ==> b1[save] == NUL)
  }

  /** No word: the buffer is untouched and strtok gives NULL. */
  lemma NoWordResult(b: seq<char>, t: nat, s: string)
    requires Terminated(b, t) && CStr(b, t) == s && SkipBlanks(s, 0) == |s|
    ensures var r := ExeCut(b, t, s);
            ExeResult(b, t, s, r)
  {
    assert ExeCut(b, t, s) == Step(b, None, t + |s|);
  }

  /** A word closed by a ' ' at e, which becomes a terminator. */
  lemma WordClosedResult(b: seq<char>, t: nat, s: string, j: nat, e: nat)
    requires Terminated(b, t) && CStr(b, t) == s && j == SkipBlanks(s, 0) && j < |s|
    requires e == SpaceEnd(s, j) && e < |s|
    ensures ExeResult(b, t, s, Step(b[t + e := NUL], Some(t + j), t + e + 1))
  {
    var b1 := b[t + e := NUL];
    WordText(b, t, s, j, e);
    assert ExeWord(t, s, b1, t + j);
    ClosedCursor(b, t, s, j, e);
    ClosedFrame(b, t, s, e);
  }

  /** Closing the word writes inside the segment only. */
  lemma ClosedFrame(b: seq<char>, t: nat, s: string, e: nat)
    requires Terminated(b, t) && CStr(b, t) == s && e < |s|
    ensures ExeFrame(b, t, s, b[t + e := NUL])
  {
    assert NulFrom(b, t) == t + |s|;
    UpdateBefore(b, t + e, t + |s|);
  }

  /** After a word closed at e, the cursor just past e is at the rest of the
      segment, or on its terminator. */
  lemma ClosedCursor(b: seq<char>, t: nat, s: string, j: nat, e: nat)
    requires Terminated(b, t) && CStr(b, t) == s && j == SkipBlanks(s, 0) && j < |s|
    requires e == SpaceEnd(s, j) && e < |s|
    ensures ExeCursor(t, s, b[t + e := NUL], t + e + 1)
  {
    var b1 := b[t + e := NUL];
    RestAfter(b, t, s, e);
    if e + 1 >= |s| {
      assert NulFrom(b, t) == t + |s|;
      assert b1[t + e + 1] == b[t + |s|] == NUL;
    }
  }

  /** Writing NUL at i leaves the cells from lo on, past i, as they were. */
  lemma UpdateBefore(b: seq<char>, i: nat, lo: nat)
    requires i < lo <= |b|
    ensures b[i := NUL][lo..] == b[lo..]
  {
  }

  /** A word that runs to the segment's terminator: nothing is written. */
  lemma WordAtEndResult(b: seq<char>, t: nat, s: string, j: nat)
    requires Terminated(b, t) && CStr(b, t) == s && j == SkipBlanks(s, 0) && j < |s|
    requires SpaceEnd(s, j) == |s|
    ensures ExeResult(b, t, s, Step(b, Some(t + j), t + |s|))
  {
    WordText(b, t, s, j, |s|);
    assert NulFrom(b, t) == t + |s|;
  }

  /** strtok(command, " ") at c, the first non-space of the segment s at t. */
  method ExeToken(line: array<char>, t: nat, c: nat, ghost b: seq<char>, ghost s: string)
    returns (exe: Option<nat>, save: nat, ghost b1: seq<char>)
    requires line[..] == b && Terminated(b, t) && CStr(b, t) == s && c == t + SkipBlanks(s, 0)
    modifies line
    ensures line[..] == b1 && Step(b1, exe, save) == ExeCut(b, t, s)
    ensures Punched(b, b1, {' '})
  {
    ExeCutIsStrtok(b, t, s, c);
    exe, save := Strtok(line, c, {' '});
    b1 := line[..];
  }

  /** ExeCut is one strtok call with " " from the segment's first non-space. */
  lemma ExeCutIsStrtok(b: seq<char>, t: nat, s: string, c: nat)
    requires Terminated(b, t) && CStr(b, t) == s && c == t + SkipBlanks(s, 0)
    ensures Terminated(b, c) && StrtokStep(b, c, {' '}) == ExeCut(b, t, s)
  {
    var j := SkipBlanks(s, 0);
    if j == |s| {
      assert b[c] == NUL;
      StrtokAtNul(b, c, {' '});
      assert ExeCut(b, t, s) == Step(b, None, c);
    } else {
      var e := SpaceEnd(s, j);
      WordSpan(b, t, s, j, e);
      StrtokAtToken(b, c, {' '}, t + e);
      if e < |s| {
        assert ExeCut(b, t, s) == Step(b[t + e := NUL], Some(c), t + e + 1);
      } else {
        assert ExeCut(b, t, s) == Step(b, Some(c), t + e);
      }
    }
  }

  /** The three shapes of ExeResult. */
  lemma ExeCutResult(b: seq<char>, t: nat, s: string)
    requires Terminated(b, t) && CStr(b, t) == s
    ensures var r := ExeCut(b, t, s);
            ExeResult(b, t, s, r)
  {
    var j := SkipBlanks(s, 0);
    if j == |s| {
      NoWordResult(b, t, s);
    } else if SpaceEnd(s, j) < |s| {
      var e := SpaceEnd(s, j);
      assert ExeCut(b, t, s) == Step(b[t + e := NUL], Some(t + j), t + e + 1);
      WordClosedResult(b, t, s, j, e);
    } else {
      assert ExeCut(b, t, s) == Step(b, Some(t + j), t + |s|);
      WordAtEndResult(b, t, s, j);
    }
  }

  /** ExeResult of what ExeToken hands back. */
  lemma ExeTokenResult(b: seq<char>, t: nat, s: string, b1: seq<char>, exe: Option<nat>, save: nat)
    requires Terminated(b, t) && CStr(b, t) == s && Step(b1, exe, save) == ExeCut(b, t, s)
    ensures ExeResult(b, t, s, Step(b1, exe, save))
  {
    ExeCutResult(b, t, s);
  }

  /** strtok(NULL, "") from save. */
  method ArgsToken(line: array<char>, save: nat, ghost b: seq<char>) returns (args: Option<nat>, cursor: nat)
    requires line[..] == b && Terminated(b, save)
    modifies line
    ensures line[..] == b && cursor == NulFrom(b, save)
    ensures (args.None? <==> b[save] == NUL) && (args.Some? ==> args.value == save)
  {
    ArgsStep(b, save);
    args, cursor := Strtok(line, save, {});
  }

  // ---------------------------------------------------------------------------
  // command_list_t
  // ---------------------------------------------------------------------------

  /** command_list_t: num and CMD_MAX command slots. */
  class CommandList {
    /** CMD_MAX */
    const cmdMax: nat
    /** EXE_MAX, the size of every exe field. */
    const exeMax: nat
    /** ARG_MAX, the size of every args field. */
    const argMax: nat
    var num: nat
    var commands: seq<Command>

    ghost predicate Valid()
      reads this
    {
      |commands| == cmdMax
    }

    /** A zeroed list. */
    constructor (cmdMax: nat, exeMax: nat, argMax: nat)
      ensures this.cmdMax == cmdMax && this.exeMax == exeMax && this.argMax == argMax
      ensures Valid() && num == 0 && commands == Zeroed(cmdMax)
    {
      this.cmdMax, this.exeMax, this.argMax := cmdMax, exeMax, argMax;
      num, commands := 0, Zeroed(cmdMax);
    }

    /** The exe and args stores of the loop body, for the word at c and the
        rest at save. */
    method StoreSegment(line: array<char>, c: nat, save: nat, count: nat, ghost b1: seq<char>,
                        ghost w: string, ghost rest: Option<string>)
      returns (ok: bool, cursor: nat)
      requires Valid() && count < cmdMax && commands[count] == Empty
      requires line[..] == b1 && Terminated(b1, c) && CStr(b1, c) == w && Terminated(b1, save)
      requires (rest.None? <==> b1[save] == NUL) && (rest.Some? ==> CStr(b1, save) == rest.value)
      modifies this, line
      ensures Valid() && num == old(num) && line[..] == b1
      ensures ok == Store(w, rest, exeMax, argMax).ok
      ensures commands == old(commands)[count := Store(w, rest, exeMax, argMax).slot]
      ensures ok ==> cursor < |b1| && b1[cursor] == NUL
    {
      ok, cursor := false, save;
      var name := CopyOut(line, c, b1);
      if |name| < exeMax {
        commands := commands[count := commands[count].(exe := name)];
        var args;
        args, cursor := ArgsToken(line, save, b1);
        if args.None? {
          ok := true;
        } else {
          var text := CopyOut(line, save, b1);
          if |text| < argMax {
            commands := commands[count := commands[count].(args := text)];
            ok := true;
          }
        }
      }
    }

    /** The loop body on the segment s at t, stored in the zeroed slot
        count: the slot ends up as ParseSegment describes, nothing from the
        segment's terminator on is written, and when the segment is stored
        the strtok cursor rests on a terminator. */
    method ParseCommand(line: array<char>, t: nat, count: nat, ghost b: seq<char>, ghost s: string)
      returns (ok: bool, cursor: nat, ghost b': seq<char>)
      requires Valid() && count < cmdMax && commands[count] == Empty
      requires line[..] == b && Terminated(b, t) && CStr(b, t) == s
      modifies this, line
      ensures Valid() && num == old(num)
      ensures ok == ParseSegment(s, exeMax, argMax).ok
      ensures commands == old(commands)[count := ParseSegment(s, exeMax, argMax).slot]
      ensures line[..] == b' && |b'| == |b| && b'[t + |s|..] == b[t + |s|..] && Punched(b, b', {' '})
      ensures ok ==> cursor < |b'| && b'[cursor] == NUL
    {
      var c := SkipLeading(line, t, b, s);
      var exe, save, b1 := ExeToken(line, t, c, b, s);
      ExeTokenResult(b, t, s, b1, exe, save);
      ok, cursor := false, save;
      if exe.Some? {
        ghost var j := SkipBlanks(s, 0);
        ghost var e := SpaceEnd(s, j);
        ghost var rest := if e + 1 < |s| then Some(s[e + 1..]) else None;
        assert rest.Some? ==> b1[save] != NUL by {
          if rest.Some? {
            assert CStr(b1, save)[0] == b1[save];
          }
        }
        ok, cursor := StoreSegment(line, c, save, count, b1, s[j..e], rest);
      }
      b' := line[..];
    }

    /** The loop body as written on the first segment, at t: once it is
        stored, strtok(NULL, PIPE_STRING) resumes from the terminator where
        the body's own strtok calls left the shared cursor, and returns
        NULL. */
    method FirstCommand(line: array<char>, t: nat, save: nat, ghost b: seq<char>, ghost segs: seq<string>)
      returns (ok: bool, command: Option<nat>, next: nat, ghost b': seq<char>)
      requires Valid() && 0 < cmdMax && commands[0] == Empty
      requires line[..] == b && Current(b, t, save, segs, 0)
      modifies this, line
      ensures Valid() && num == old(num) && line[..] == b'
      ensures ok == ParseSegment(segs[0], exeMax, argMax).ok
      ensures commands == old(commands)[0 := ParseSegment(segs[0], exeMax, argMax).slot]
      ensures ok ==> command.None?
      ensures Punched(b, b', CUTS)
    {
      var cursor;
      ok, cursor, b' := ParseCommand(line, t, 0, b, segs[0]);
      command, next := None, cursor;
      if ok {
        SpanInAt(b', cursor, PIPE);
        ghost var b1 := b';
        command, next := Strtok(line, cursor, PIPE);
        b' := line[..];
        PunchedChain(b, b1, b', {' '}, PIPE, CUTS);
      } else {
        PunchedChain(b, b', b', {' '}, {}, CUTS);
      }
    }

    /** The loop body with a cursor of its own for the outer strtok, on the
        segment at t, segs[count]: once it is stored, strtok(NULL,
        PIPE_STRING) returns the next segment, or NULL after the last. */
    method NextCommand(line: array<char>, t: nat, outer: nat, count: nat, ghost b: seq<char>, ghost segs: seq<string>)
      returns (ok: bool, command: Option<nat>, next: nat, ghost b': seq<char>)
      requires Valid() && count < cmdMax && commands[count] == Empty
      requires line[..] == b && Current(b, t, outer, segs, count)
      modifies this, line
      ensures Valid() && num == old(num) && line[..] == b'
      ensures ok == ParseSegment(segs[count], exeMax, argMax).ok
      ensures commands == old(commands)[count := ParseSegment(segs[count], exeMax, argMax).slot]
      ensures ok ==> (command.None? <==> count + 1 == |segs|)
      ensures ok && command.Some? ==> Current(b', command.value, next, segs, count + 1)
      ensures Punched(b, b', CUTS)
    {
      var cursor;
      ok, cursor, b' := ParseCommand(line, t, count, b, segs[count]);
      command, next := None, outer;
      if ok {
        CurrentRest(b, b', t, outer, segs, count);
        ghost var b1 := b';
        command, next, b' := NextSegment(line, outer, b', segs, count + 1);
        PunchedChain(b, b1, b', {' '}, PIPE, CUTS);
      } else {
        PunchedChain(b, b', b', {' '}, {}, CUTS);
      }
    }

    /** build_cmd_list as written: the outer strtok(NULL, PIPE_STRING) shares
        its cursor with the strtok calls of the loop body, which leave it on
        the first segment's terminator, so the loop ends after one stored
        segment. The result is Build on the first segment alone; num is set
        only on OK. */
    method BuildCmdListAsWritten(line: array<char>) returns (rc: Status)
      requires Valid() && Terminated(line[..], 0)
      modifies this, line
      ensures Valid()
      ensures var segs := Fields(old(line[..]), 0, PIPE);
              var out := Build(FirstOnly(segs), 0, cmdMax, exeMax, argMax, Zeroed(cmdMax));
              rc == out.rc && commands == out.commands && num == (if rc == Ok then out.count else 0)
      ensures Punched(old(line[..]), line[..], CUTS)
    {
      ghost var b0 := line[..];
      ghost var segs := Fields(b0, 0, PIPE);
      ghost var first := FirstOnly(segs);
      num, commands := 0, Zeroed(cmdMax);
      var command, save, b := NextSegment(line, 0, b0, segs, 0);
      PunchedChain(b0, b0, b, {}, PIPE, CUTS);
      var count := 0;
      while command.Some?
        invariant Valid() && num == 0 && line[..] == b && Punched(b0, b, CUTS)
        invariant command.Some? ==> count == 0 && commands == Zeroed(cmdMax) && Current(b, command.value, save, segs, 0)
        invariant command.None? ==> count == |first|
        invariant Build(first, 0, cmdMax, exeMax, argMax, Zeroed(cmdMax)) ==
                  Build(first, count, cmdMax, exeMax, argMax, commands)
        decreases if command.Some? then 1 else 0
      {
        BuildEnds(first, count, cmdMax, exeMax, argMax, commands);
        if count >= cmdMax {
          return ErrTooManyCommands;
        }
        ghost var cmds := commands;
        var ok;
        ghost var before := b;
        ok, command, save, b := FirstCommand(line, command.value, save, b, segs);
        PunchedChain(b0, before, b, CUTS, CUTS, CUTS);
        if !ok {
          return ErrCmdOrArgsTooBig;
        }
        BuildStored(first, count, cmdMax, exeMax, argMax, cmds);
        count := count + 1;
      }
      BuildEnds(first, count, cmdMax, exeMax, argMax, commands);
      num := count;
      rc := Ok;
    }

    /** build_cmd_list with a cursor of its own for the outer loop: every
        segment is parsed in turn. The result is Build on all the segments;
        num is set only on OK. */
    method BuildCmdList(line: array<char>) returns (rc: Status)
      requires Valid() && Terminated(line[..], 0)
      modifies this, line
      ensures Valid()
      ensures var out := Build(Fields(old(line[..]), 0, PIPE), 0, cmdMax, exeMax, argMax, Zeroed(cmdMax));
              rc == out.rc && commands == out.commands && num == (if rc == Ok then out.count else 0)
      ensures Punched(old(line[..]), line[..], CUTS)
    {
      ghost var b0 := line[..];
      ghost var segs := Fields(b0, 0, PIPE);
      num, commands := 0, Zeroed(cmdMax);
      var command, outer, b := NextSegment(line, 0, b0, segs, 0);
      PunchedChain(b0, b0, b, {}, PIPE, CUTS);
      var count := 0;
      while command.Some?
        invariant Valid() && num == 0 && line[..] == b && Punched(b0, b, CUTS)
        invariant command.Some? ==> Current(b, command.value, outer, segs, count)
        invariant command.None? ==> count == |segs|
        invariant count <= |segs| && forall k :: count <= k < cmdMax ==> commands[k] == Empty
        invariant Build(segs, 0, cmdMax, exeMax, argMax, Zeroed(cmdMax)) ==
                  Build(segs, count, cmdMax, exeMax, argMax, commands)
        decreases |segs| - count
      {
        BuildEnds(segs, count, cmdMax, exeMax, argMax, commands);
        if count >= cmdMax {
          return ErrTooManyCommands;
        }
        ghost var cmds := commands;
        var ok;
        ghost var before := b;
        ok, command, outer, b := NextCommand(line, command.value, outer, count, b, segs);
        PunchedChain(b0, before, b, CUTS, CUTS, CUTS);
        if !ok {
          return ErrCmdOrArgsTooBig;
        }
        BuildStored(segs, count, cmdMax, exeMax, argMax, cmds);
        count := count + 1;
      }
      BuildEnds(segs, count, cmdMax, exeMax, argMax, commands);
      num := count;
      rc := Ok;
    }
  }
}
