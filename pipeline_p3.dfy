/** build_cmd_list of 5-ShellP3: the line is split on '|' with strtok, each
    segment is trimmed of isspace characters at both ends in place, and each
    trimmed segment is tokenized into its own cmd_buff_t slot of the command
    list, at most CMD_MAX of them. */
module PipelineP3 {
  import opened DshTypes
  import opened CStrings
  import opened CStrtok
  import opened Tokenizer

  // ---------------------------------------------------------------------------
  // Trimming a segment
  // ---------------------------------------------------------------------------

  /** The first index at or after i that is not an isspace character. */
  function LeadEnd(s: string, i: nat): (j: nat)
    requires i <= |s|
    ensures i <= j <= |s| && (j < |s| ==> !IsSpace(s[j]))
    decreases |s| - i
  {
    if i < |s| && IsSpace(s[i]) then LeadEnd(s, i + 1) else i
  }

  /** z pulled back over the isspace characters before it, not below lo. */
  function TrailStart(s: string, lo: nat, z: nat): (y: nat)
    requires lo <= z <= |s|
    ensures lo <= y <= z && (y > lo ==> !IsSpace(s[y - 1]))
    decreases z
  {
    if z > lo && IsSpace(s[z - 1]) then TrailStart(s, lo, z - 1) else z
  }

  /** s without its leading and trailing isspace characters. */
  function Trim(s: string): string {
    var lo := LeadEnd(s, 0);
    s[lo..TrailStart(s, lo, |s|)]
  }

  predicate AllSpace(s: string) {
    forall k :: 0 <= k < |s| ==> IsSpace(s[k])
  }

  lemma {:induction false} LeadAreSpaces(s: string, i: nat)
    requires i <= |s|
    ensures forall k :: i <= k < LeadEnd(s, i) ==> IsSpace(s[k])
    decreases |s| - i
  {
    if i < |s| && IsSpace(s[i]) {
      LeadAreSpaces(s, i + 1);
    }
  }

  lemma {:induction false} TrailAreSpaces(s: string, lo: nat, z: nat)
    requires lo <= z <= |s|
    ensures forall k :: TrailStart(s, lo, z) <= k < z ==> IsSpace(s[k])
    decreases z
  {
    if z > lo && IsSpace(s[z - 1]) {
      TrailAreSpaces(s, lo, z - 1);
    }
  }

  /** The trimmed segment is the middle of s between an all-space head and an
      all-space tail, and it neither starts nor ends with an isspace
      character; a segment of isspace characters only trims to "". */
  lemma TrimSpec(s: string)
    ensures exists lo, hi :: 0 <= lo <= hi <= |s| && Trim(s) == s[lo..hi] &&
              AllSpace(s[..lo]) && AllSpace(s[hi..])
    ensures |Trim(s)| > 0 ==> !IsSpace(Trim(s)[0]) && !IsSpace(Trim(s)[|Trim(s)| - 1])
    ensures AllSpace(s) <==> Trim(s) == []
  {
    var lo := LeadEnd(s, 0);
    var hi := TrailStart(s, lo, |s|);
    LeadAreSpaces(s, 0);
    TrailAreSpaces(s, lo, |s|);
    assert AllSpace(s[..lo]) && AllSpace(s[hi..]);
    if lo == hi {
      assert s == s[..lo] + s[hi..];
      assert AllSpace(s) by {
        forall k | 0 <= k < |s|
          ensures IsSpace(s[k])
        {
          assert s[k] == (s[..lo] + s[hi..])[k];
        }
      }
    }
  }

  /** Where the trimmed segment starts, for the segment at t. */
  function TrimStart(b: seq<char>, t: nat): nat
    requires Terminated(b, t)
  {
    t + LeadEnd(CStr(b, t), 0)
  }

  /** The line after trimming the segment at t: NUL just after its last
      character that is not isspace. */
  function TrimmedLine(b: seq<char>, t: nat): seq<char>
    requires Terminated(b, t)
  {
    var seg := CStr(b, t);
    b[t + TrailStart(seg, LeadEnd(seg, 0), |seg|) := NUL]
  }

  /** The characters build_cmd_list may overwrite with NUL: the '|'
      delimiters and the isspace characters trimmed off a segment's end. */
  const CUTS: set<char> := PIPE + {' ', '\t', '\n', '\U{B}', '\U{C}', '\r'}

  /** Trimming writes its NUL over an isspace character or over the
      segment's own terminator. */
  lemma TrimPunches(b: seq<char>, t: nat)
    requires Terminated(b, t)
    ensures Punched(b, TrimmedLine(b, t), CUTS)
  {
    var seg := CStr(b, t);
    var n := |seg|;
    var lo := LeadEnd(seg, 0);
    var hi := TrailStart(seg, lo, n);
    if hi < n {
      TrailAreSpaces(seg, lo, n);
      assert b[t + hi] == seg[hi] && IsSpace(seg[hi]);
    } else {
      assert b[t + hi] == NUL;
    }
  }

  /** TrimStart and TrimmedLine for a segment of n characters whose leading
      and trailing isspace characters end at lo and start at hi. */
  lemma TrimmedLineIs(b: seq<char>, t: nat, n: nat, lo: nat, hi: nat)
    requires Terminated(b, t) && NulFrom(b, t) == t + n
    requires lo == LeadEnd(b[t..t + n], 0) && hi == TrailStart(b[t..t + n], lo, n)
    ensures TrimStart(b, t) == t + lo && TrimmedLine(b, t) == b[t + hi := NUL]
  {
    assert CStr(b, t) == b[t..t + n];
  }

  /** After trimming, the C string at the trimmed start is the trimmed
      segment, and nothing before the segment or from its terminator on has
      changed. */
  lemma TrimmedLineSpec(b: seq<char>, t: nat)
    requires Terminated(b, t)
    ensures var b' := TrimmedLine(b, t);
            var c := TrimStart(b, t);
            var e := NulFrom(b, t);
            t <= c <= e && |b'| == |b| && Terminated(b', c) &&
            CStr(b', c) == Trim(CStr(b, t)) &&
            b'[e..] == b[e..] && b'[..t] == b[..t]
  {
    var seg := CStr(b, t);
    var n := |seg|;
    var lo := LeadEnd(seg, 0);
    var hi := TrailStart(seg, lo, n);
    TrimmedLineIs(b, t, n, lo, hi);
    TrimmedText(b, b[t + hi := NUL], t, n, lo, hi);
    assert b[t + hi := NUL][t + n..] == b[t + n..];
  }

  lemma TrimmedText(b: seq<char>, b': seq<char>, t: nat, n: nat, lo: nat, hi: nat)
    requires Terminated(b, t) && NulFrom(b, t) == t + n
    requires lo == LeadEnd(b[t..t + n], 0) && hi == TrailStart(b[t..t + n], lo, n)
    requires b' == b[t + hi := NUL]
    ensures Terminated(b', t + lo) && CStr(b', t + lo) == Trim(CStr(b, t))
  {
    var seg := b[t..t + n];
    assert CStr(b, t) == seg;
    assert Trim(seg) == seg[lo..hi];
    TrimmedCells(b, t, n, lo, hi);
    NulFromIs(b', t + lo, t + hi);
  }

  /** Writing NUL at t + hi leaves the cells from t + lo up to it as they were
      in the segment. */
  lemma TrimmedCells(b: seq<char>, t: nat, n: nat, lo: nat, hi: nat)
    requires lo <= hi <= n && t + n < |b|
    ensures b[t + hi := NUL][t + lo..t + hi] == b[t..t + n][lo..hi]
  {
    var x := b[t + hi := NUL][t + lo..t + hi];
    var y := b[t..t + n][lo..hi];
    forall k | 0 <= k < |x|
      ensures x[k] == y[k]
    {
      assert x[k] == b[t + lo + k];
    }
  }

  /** Where the backward loop of the trimming code stops, TrailStart stops. */
  lemma TrailStops(s: string, lo: nat, z: nat)
    requires lo <= z <= |s| && (lo < |s| ==> !IsSpace(s[lo]))
    requires z <= lo + 1 || !IsSpace(s[z - 1])
    ensures TrailStart(s, lo, z) == z
  {
  }

  /** The trimming code of build_cmd_list on the segment strtok returned at t:
      the end pointer is taken first, the start moves over isspace characters,
      the end moves back over them but not onto the start, and the cell after
      the end becomes NUL. The trimmed segment is the C string at the new
      start; only cells of the segment (or its own terminator) are written. */
  method TrimSegment(a: array<char>, t: nat) returns (c: nat)
    requires Terminated(a[..], t)
    modifies a
    ensures c == TrimStart(old(a[..]), t) && a[..] == TrimmedLine(old(a[..]), t)
  {
    ghost var b := a[..];
    var n := Strlen(a, t);
    NulFromIs(b, t, t + n);
    ghost var seg := b[t..t + n];
    assert CStr(b, t) == seg;
    c := SkipLeadingSpace(a, t, n, seg);
    ghost var lo := c - t;
    var last := SkipTrailingSpace(a, t, n, c, seg);
    ghost var hi: nat := last + 1 - t;
    a[last + 1] := NUL;
    TrimmedLineIs(b, t, n, lo, hi);
  }

  /** The forward loop of the trimming code: the start pointer moves over
      isspace characters of the segment, stopping at its terminator. */
  method SkipLeadingSpace(a: array<char>, t: nat, n: nat, ghost seg: string) returns (c: nat)
    requires t + n < a.Length && a[t + n] == NUL && a[t..t + n] == seg
    ensures c == t + LeadEnd(seg, 0)
  {
    c := t;
    while a[c] != NUL && IsSpace(a[c])
      invariant t <= c <= t + n
      invariant LeadEnd(seg, c - t) == LeadEnd(seg, 0)
      decreases t + n - c
    {
      assert a[c] == seg[c - t];
      c := c + 1;
    }
    assert c < t + n ==> a[c] == seg[c - t];
  }

  /** The backward loop of the trimming code: the end pointer starts at the
      last character and moves back over isspace characters, never onto the
      start; it stops just before where TrailStart says the trailing spaces
      begin. */
  method SkipTrailingSpace(a: array<char>, t: nat, n: nat, c: nat, ghost seg: string) returns (last: int)
    requires t + n <= a.Length && a[t..t + n] == seg
    requires t <= c <= t + n && c == t + LeadEnd(seg, 0)
    ensures last + 1 == t + TrailStart(seg, c - t, n) && t <= last + 1 <= t + n
  {
    ghost var lo := c - t;
    ghost var hi: nat := n;
    last := t + n - 1;
    while last > c && IsSpace(a[last])
      invariant lo <= hi <= n && last == t + hi - 1
      invariant TrailStart(seg, lo, hi) == TrailStart(seg, lo, n)
    {
      assert a[last] == seg[hi - 1];
      last := last - 1;
      hi := hi - 1;
    }
    assert hi > lo + 1 ==> a[last] == seg[hi - 1];
    TrailStops(seg, lo, hi);
  }

  // ---------------------------------------------------------------------------
  // What build_cmd_list computes
  // ---------------------------------------------------------------------------

  /** strlen(line) == 0 or strspn(line, " ") == strlen(line): only spaces. */
  predicate Blank(s: string) {
    forall k :: 0 <= k < |s| ==> s[k] == ' '
  }

  /** The arguments build_cmd_buff finds in a trimmed segment. */
  function SegmentArgs(seg: string, capacity: nat): seq<string>
    requires capacity >= 1
  {
    Tokens(Copied(Trim(seg), capacity))
  }

  /** The argv slots of a command buffer have room for every token of the
      trimmed segment and the closing NULL. */
  predicate Fits(seg: string, capacity: nat, argvMax: nat)
    requires capacity >= 1
  {
    |Spans(Copied(Trim(seg), capacity), 0)| < argvMax
  }

  /** Every segment from i on that build_cmd_buff is called on Fits: the
      walk stops, as build_cmd_list does, at the end of the segments, past
      CMD_MAX, at a failed allocation, or after a segment with no
      arguments; segments after that are never tokenized. */
  predicate AllFit(segs: seq<string>, i: nat, cmdMax: nat, capacity: nat, argvMax: nat, mallocOk: nat -> bool)
    requires capacity >= 1
    decreases |segs| - i
  {
    i >= |segs| || i >= cmdMax || !mallocOk(i) ||
    (Fits(segs[i], capacity, argvMax) &&
     (SegmentArgs(segs[i], capacity) == [] || AllFit(segs, i + 1, cmdMax, capacity, argvMax, mallocOk)))
  }

  /** The status build_cmd_list returns once it reaches segment i, and the
      number of slots it has filled by then: a segment past CMD_MAX stops it
      with ERR_TOO_MANY_COMMANDS, a failed allocation with ERR_MEMORY, and a
      segment with no arguments (its slot filled but empty) with
      ERR_CMD_OR_ARGS_TOO_BIG. mallocOk(i) is the outcome of the allocation
      for slot i. */
  function Outcome(segs: seq<string>, i: nat, cmdMax: nat, capacity: nat, mallocOk: nat -> bool): (Status, nat)
    requires capacity >= 1
    decreases |segs| - i
  {
    if i >= |segs| then (Ok, i)
    else if i >= cmdMax then (ErrTooManyCommands, i)
    else if !mallocOk(i) then (ErrMemory, i)
    else if SegmentArgs(segs[i], capacity) == [] then (ErrCmdOrArgsTooBig, i + 1)
    else Outcome(segs, i + 1, cmdMax, capacity, mallocOk)
  }

  /** Trimming the current segment leaves the trimmed segment as the C
      string at the trimmed start and the calls still to come unchanged. */
  lemma TrimKeepsRest(b: seq<char>, t: nat, save: nat, segs: seq<string>, count: nat)
    requires Current(b, t, save, segs, count)
    ensures var b' := TrimmedLine(b, t);
            var c := TrimStart(b, t);
            |b'| == |b| && Terminated(b', c) && CStr(b', c) == Trim(segs[count]) &&
            Terminated(b', save) && Fields(b', save, PIPE) == segs[count + 1..]
  {
    var b' := TrimmedLine(b, t);
    TrimmedLineSpec(b, t);
    SuffixLater(b, b', NulFrom(b, t), save);
    FieldsFrame(b, b', save, PIPE);
  }

  /** The trimming code on the segment strtok just returned, segs[count]:
      the C string at the new start is the trimmed segment, and the calls
      still to come are unchanged. */
  method TrimCurrent(line: array<char>, t: nat, save: nat, ghost b: seq<char>, ghost segs: seq<string>,
                     ghost count: nat)
    returns (c: nat, ghost b': seq<char>)
    requires line[..] == b && Current(b, t, save, segs, count)
    modifies line
    ensures line[..] == b' && Terminated(b', c) && CStr(b', c) == Trim(segs[count])
    ensures Terminated(b', save) && Fields(b', save, PIPE) == segs[count + 1..]
    ensures Punched(b, b', CUTS)
  {
    TrimKeepsRest(b, t, save, segs, count);
    TrimPunches(b, t);
    c := TrimSegment(line, t);
    b' := line[..];
  }

  /** The test build_cmd_list makes before splitting: strlen(line) == 0 or
      strspn(line, " ") == strlen(line). */
  method IsBlankLine(line: array<char>, ghost b: seq<char>) returns (blank: bool)
    requires line[..] == b && Terminated(b, 0)
    ensures blank == Blank(CStr(b, 0))
  {
    var len := Strlen(line, 0);
    NulFromIs(b, 0, len);
    blank := len == 0 || SpanIn(line[..], 0, {' '}) == len;
    if !blank {
      var j := SpanIn(line[..], 0, {' '});
      assert CStr(b, 0)[j] != ' ';
    }
  }

  // ---------------------------------------------------------------------------
  // command_list_t
  // ---------------------------------------------------------------------------

  /** command_list_t: num and CMD_MAX embedded cmd_buff_t slots. */
  class CommandList {
    /** CMD_MAX */
    const cmdMax: nat
    /** SH_CMD_MAX, the buffer size of every slot. */
    const capacity: nat
    /** CMD_ARGV_MAX, the argv size of every slot. */
    const argvMax: nat
    var num: nat
    /** The slots; being embedded in the record, they never change identity. */
    const commands: seq<CmdBuff>

    ghost function Buffers(): set<array?<char>>
      reads commands
    {
      set k | 0 <= k < |commands| :: commands[k].buffer
    }

    ghost predicate Valid()
      reads commands
    {
      cmdMax >= 1 && capacity >= 1 && |commands| == cmdMax &&
      (forall i, j :: 0 <= i < j < cmdMax ==> commands[i] != commands[j]) &&
      forall k :: 0 <= k < cmdMax ==>
        commands[k].capacity == capacity && commands[k].argvMax == argvMax && commands[k].Valid()
    }

    /** The slots from p on are zeroed: no buffer, argc 0, argv all NULL. */
    ghost predicate ZeroedFrom(p: nat)
      reads commands
    {
      forall k :: p <= k < |commands| ==> commands[k].buffer == null && commands[k].IsReset()
    }

    /** The slots before p hold the arguments of the segments before p. */
    ghost predicate Filled(segs: seq<string>, p: nat)
      reads commands, Buffers()
      requires Valid()
    {
      forall k :: 0 <= k < p && k < |segs| && k < cmdMax ==>
        commands[k].Holds(SegmentArgs(segs[k], capacity))
    }

    /** The list while build_cmd_list works on line: valid, no slot's buffer
        is the line, the slots before p hold the arguments of the segments
        before p, and the slots from p on are zeroed. */
    ghost predicate Building(line: array<char>, segs: seq<string>, p: nat)
      reads commands, Buffers()
    {
      Valid() && Apart(line) && Filled(segs, p) && ZeroedFrom(p)
    }

    /** No slot's buffer is the array a. */
    ghost predicate Apart(a: array<char>)
      reads commands
    {
      a !in Buffers()
    }

    /** build_cmd_list: num is set to 0 and every slot zeroed; a NULL or
        all-space line returns WARN_NO_CMDS. Otherwise the segments strtok
        finds between the '|' delimiters are trimmed and built, slot by slot,
        until the outcome Outcome describes; num is the number of segments
        on OK and 0 on every error. The source never checks a segment's
        token count against the argv slots; the caller must leave room. */
    method BuildCmdList(line: array?<char>, mallocOk: nat -> bool) returns (rc: Status)
      requires Valid()
      requires line != null ==> Terminated(line[..], 0)
      requires line != null ==> AllFit(Fields(line[..], 0, PIPE), 0, cmdMax, capacity, argvMax, mallocOk)
      modifies this, line, commands
      ensures Valid()
      ensures line == null || Blank(CStr(old(line[..]), 0)) ==>
                rc == WarnNoCmds && num == 0 && ZeroedFrom(0)
      ensures line != null && !Blank(CStr(old(line[..]), 0)) ==>
                var segs := Fields(old(line[..]), 0, PIPE);
                var out := Outcome(segs, 0, cmdMax, capacity, mallocOk);
                rc == out.0 && num == (if rc == Ok then out.1 else 0) &&
                Filled(segs, out.1) && ZeroedFrom(out.1)
      ensures line != null ==> Punched(old(line[..]), line[..], CUTS)
    {
      ghost var b0: seq<char> := if line == null then [] else line[..];
      num := 0;
      ZeroAll();
      if line == null {
        rc := WarnNoCmds;
      } else {
        assert line[..] == b0;
        var blank := IsBlankLine(line, b0);
        if blank {
          rc := WarnNoCmds;
        } else {
          ghost var segs := Fields(b0, 0, PIPE);
          var count;
          rc, count := BuildSegments(line, b0, segs, mallocOk);
          if rc == Ok {
            SetNum(count, line, segs);
          }
          assert segs == Fields(old(line[..]), 0, PIPE);
        }
      }
    }

    /** clist->num = commandCount: the slots are left as they are. */
    method SetNum(count: nat, ghost line: array<char>, ghost segs: seq<string>)
      requires Building(line, segs, count)
      modifies this
      ensures num == count && Building(line, segs, count)
    {
      num := count;
    }

    /** The strtok loop of build_cmd_list over the segments of a line that is
        not blank: it ends with the status and slot count of Outcome. */
    method BuildSegments(line: array<char>, ghost b0: seq<char>, ghost segs: seq<string>, mallocOk: nat -> bool)
      returns (rc: Status, count: nat)
      requires Building(line, segs, 0) && AllFit(segs, 0, cmdMax, capacity, argvMax, mallocOk)
      requires line[..] == b0 && Terminated(b0, 0) && Fields(b0, 0, PIPE) == segs
      modifies line, commands
      ensures Building(line, segs, count) && (rc, count) == Outcome(segs, 0, cmdMax, capacity, mallocOk)
      ensures Punched(b0, line[..], CUTS)
    {
      count := 0;
      var command, save, b := NextInList(line, 0, b0, segs, 0);
      while command.Some?
        invariant Building(line, segs, count) && AllFit(segs, count, cmdMax, capacity, argvMax, mallocOk)
        invariant count <= |segs| && count <= cmdMax && line[..] == b && Punched(b0, b, CUTS)
        invariant command.None? ==> count == |segs|
        invariant command.Some? ==> Current(b, command.value, save, segs, count)
        invariant Outcome(segs, count, cmdMax, capacity, mallocOk) == Outcome(segs, 0, cmdMax, capacity, mallocOk)
        decreases |segs| - count
      {
        var stop;
        ghost var before := b;
        stop, rc, count, command, save, b := Round(line, command.value, save, b, segs, count, mallocOk);
        PunchedChain(b0, before, b, CUTS, CUTS, CUTS);
        if stop {
          return;
        }
      }
      rc := Ok;
    }

    /** One round of the loop on segs[count], which strtok returned at t: the
        segment is trimmed, then placed. */
    method Round(line: array<char>, t: nat, save: nat, ghost b: seq<char>, ghost segs: seq<string>, count: nat,
                 mallocOk: nat -> bool)
      returns (stop: bool, rc: Status, count': nat, command: Option<nat>, save': nat, ghost b': seq<char>)
      requires Building(line, segs, count) && AllFit(segs, count, cmdMax, capacity, argvMax, mallocOk)
      requires count <= cmdMax && line[..] == b && Current(b, t, save, segs, count)
      modifies line, commands
      ensures Building(line, segs, count') && line[..] == b' && Punched(b, b', CUTS)
      ensures stop ==> (rc, count') == Outcome(segs, count, cmdMax, capacity, mallocOk)
      ensures !stop ==>
                count' == count + 1 && count' <= cmdMax && AllFit(segs, count', cmdMax, capacity, argvMax, mallocOk) &&
                Outcome(segs, count', cmdMax, capacity, mallocOk) == Outcome(segs, count, cmdMax, capacity, mallocOk) &&
                (command.None? <==> count' == |segs|) &&
                (command.Some? ==> Current(b', command.value, save', segs, count'))
    {
      var c, b1 := TrimInList(line, t, save, b, segs, count);
      stop, rc, count', command, save', b' := Place(line, c, save, b1, segs, count, mallocOk);
      PunchedChain(b, b1, b', CUTS, CUTS, CUTS);
    }

    /** The rest of a round, once segs[count] is trimmed to the C string at c:
        past CMD_MAX the list stops with ERR_TOO_MANY_COMMANDS, otherwise the
        slot is filled and, on success, strtok is called for the next
        segment. */
    method Place(line: array<char>, c: nat, save: nat, ghost b: seq<char>, ghost segs: seq<string>, count: nat,
                 mallocOk: nat -> bool)
      returns (stop: bool, rc: Status, count': nat, command: Option<nat>, save': nat, ghost b': seq<char>)
      requires Building(line, segs, count) && AllFit(segs, count, cmdMax, capacity, argvMax, mallocOk)
      requires count <= cmdMax && count < |segs| && line[..] == b
      requires Terminated(b, c) && CStr(b, c) == Trim(segs[count])
      requires Terminated(b, save) && Fields(b, save, PIPE) == segs[count + 1..]
      modifies line, commands
      ensures Building(line, segs, count') && line[..] == b' && Punched(b, b', CUTS)
      ensures stop ==> (rc, count') == Outcome(segs, count, cmdMax, capacity, mallocOk)
      ensures !stop ==>
                count' == count + 1 && count' <= cmdMax && AllFit(segs, count', cmdMax, capacity, argvMax, mallocOk) &&
                Outcome(segs, count', cmdMax, capacity, mallocOk) == Outcome(segs, count, cmdMax, capacity, mallocOk) &&
                (command.None? <==> count' == |segs|) &&
                (command.Some? ==> Current(b', command.value, save', segs, count'))
    {
      stop, count', command, save', b' := true, count, None, save, b;
      if count >= cmdMax {
        rc := ErrTooManyCommands;
      } else {
        rc, count' := Fill(line, c, b, segs, count, mallocOk);
        if rc == Ok {
          stop := false;
          command, save', b' := NextInList(line, save, b, segs, count');
        }
      }
    }

    /** alloc_cmd_buff and build_cmd_buff for segs[count], trimmed to the C
        string at c, in slot count, with the status build_cmd_list turns their
        failures into. */
    method Fill(line: array<char>, c: nat, ghost b: seq<char>, ghost segs: seq<string>, count: nat,
                mallocOk: nat -> bool)
      returns (rc: Status, count': nat)
      requires Building(line, segs, count) && AllFit(segs, count, cmdMax, capacity, argvMax, mallocOk)
      requires count < cmdMax && count < |segs| && line[..] == b
      requires Terminated(b, c) && CStr(b, c) == Trim(segs[count])
      modifies commands[count]
      ensures Building(line, segs, count') && line[..] == b
      ensures rc != Ok ==> (rc, count') == Outcome(segs, count, cmdMax, capacity, mallocOk)
      ensures rc == Ok ==>
                count' == count + 1 && AllFit(segs, count', cmdMax, capacity, argvMax, mallocOk) &&
                Outcome(segs, count', cmdMax, capacity, mallocOk) == Outcome(segs, count, cmdMax, capacity, mallocOk)
    {
      var text := CopyOut(line, c, b);
      rc := FillSlot(count, text, mallocOk(count), line, segs);
      count' := if rc == ErrMemory then count else count + 1;
    }

    /** TrimCurrent on a line that is none of the slots' buffers. */
    method TrimInList(line: array<char>, t: nat, save: nat, ghost b: seq<char>, ghost segs: seq<string>,
                      ghost count: nat)
      returns (c: nat, ghost b': seq<char>)
      requires Building(line, segs, count)
      requires line[..] == b && Current(b, t, save, segs, count)
      modifies line
      ensures Building(line, segs, count)
      ensures line[..] == b' && Terminated(b', c) && CStr(b', c) == Trim(segs[count])
      ensures Terminated(b', save) && Fields(b', save, PIPE) == segs[count + 1..]
      ensures Punched(b, b', CUTS)
    {
      c, b' := TrimCurrent(line, t, save, b, segs, count);
    }

    /** NextSegment on a line that is none of the slots' buffers. */
    method NextInList(line: array<char>, save: nat, ghost b: seq<char>, ghost segs: seq<string>, ghost count: nat)
      returns (command: Option<nat>, next: nat, ghost b': seq<char>)
      requires Building(line, segs, count)
      requires line[..] == b && Terminated(b, save) && count <= |segs| && Fields(b, save, PIPE) == segs[count..]
      modifies line
      ensures Building(line, segs, count)
      ensures line[..] == b' && Punched(b, b', CUTS) && (command.None? <==> count == |segs|)
      ensures command.Some? ==> Current(b', command.value, next, segs, count)
    {
      command, next, b' := NextSegment(line, save, b, segs, count);
      PunchedChain(b, b, b', {}, PIPE, CUTS);
    }

    /** memset of the commands array to zero: every slot loses its buffer
        pointer and has argc 0 and argv all NULL. */
    method ZeroAll()
      requires Valid()
      modifies commands
      ensures Valid() && ZeroedFrom(0)
    {
      var i := 0;
      while i < cmdMax
        invariant i <= cmdMax && Valid()
        invariant forall k :: 0 <= k < i ==> commands[k].buffer == null && commands[k].IsReset()
      {
        commands[i].Zero();
        i := i + 1;
      }
    }

    /** The body of build_cmd_list for the trimmed segment segs[k] in slot k:
        alloc_cmd_buff, whose failure is ERR_MEMORY, then build_cmd_buff,
        whose failure (no arguments) is ERR_CMD_OR_ARGS_TOO_BIG. The other
        slots keep their buffers; slot k gets a fresh one or none. */
    method FillSlot(k: nat, text: string, mallocOk: bool, ghost line: array<char>, ghost segs: seq<string>)
      returns (rc: Status)
      requires Building(line, segs, k) && k < cmdMax && k < |segs|
      requires NoNul(text) && text == Trim(segs[k]) && (mallocOk ==> Fits(segs[k], capacity, argvMax))
      modifies commands[k]
      ensures !mallocOk ==> rc == ErrMemory && Building(line, segs, k)
      ensures mallocOk ==>
                rc == (if SegmentArgs(segs[k], capacity) == [] then ErrCmdOrArgsTooBig else Ok) &&
                Building(line, segs, k + 1)
    {
      rc := AllocSlot(k, mallocOk, line, segs);
      if rc == Ok {
        rc := BuildSlot(k, text, line, segs);
      }
    }

    /** Slot k has just been allocated: it has a reset buffer that is no
        other slot's, the slots before it are filled and those after it are
        zeroed. */
    ghost predicate Opened(line: array<char>, segs: seq<string>, k: nat)
      reads commands, Buffers()
    {
      Valid() && k < cmdMax && Apart(line) && Filled(segs, k) && ZeroedFrom(k + 1) &&
      commands[k].buffer != null && commands[k].IsReset() &&
      forall j :: 0 <= j < k ==> commands[j].buffer != commands[k].buffer
    }

    /** alloc_cmd_buff on slot k. */
    method AllocSlot(k: nat, mallocOk: bool, ghost line: array<char>, ghost segs: seq<string>)
      returns (rc: Status)
      requires Building(line, segs, k) && k < cmdMax
      modifies commands[k]
      ensures rc == (if mallocOk then Ok else ErrMemory)
      ensures !mallocOk ==> Building(line, segs, k)
      ensures mallocOk ==> Opened(line, segs, k) && fresh(commands[k].buffer)
    {
      rc := commands[k].Alloc(mallocOk);
    }

    /** build_cmd_buff on the freshly allocated slot k with the trimmed
        segment: no arguments is ERR_CMD_OR_ARGS_TOO_BIG, and either way the
        slot now holds the segment's arguments. */
    method BuildSlot(k: nat, text: string, ghost line: array<char>, ghost segs: seq<string>)
      returns (rc: Status)
      requires Opened(line, segs, k) && k < |segs|
      requires NoNul(text) && text == Trim(segs[k]) && Fits(segs[k], capacity, argvMax)
      modifies commands[k], commands[k].buffer
      ensures rc == (if SegmentArgs(segs[k], capacity) == [] then ErrCmdOrArgsTooBig else Ok)
      ensures Building(line, segs, k + 1)
    {
      ghost var slot := commands[k];
      ghost var args := SegmentArgs(segs[k], capacity);
      var buildRc := commands[k].BuildCmdBuff(Some(text));
      rc := if buildRc != Ok then ErrCmdOrArgsTooBig else Ok;
      assert slot.Holds(args);
      assert Buffers() == old(Buffers());
      forall j | 0 <= j < k
        ensures commands[j].Holds(SegmentArgs(segs[j], capacity))
      {
        assert commands[j] != slot && commands[j].buffer != slot.buffer;
      }
    }

    /** A zeroed list of CMD_MAX slots. */
    constructor (cmdMax: nat, capacity: nat, argvMax: nat)
      requires cmdMax >= 1 && capacity >= 1 && argvMax >= 1
      ensures this.cmdMax == cmdMax && this.capacity == capacity && this.argvMax == argvMax
      ensures Valid() && num == 0 && ZeroedFrom(0)
    {
      var slots: seq<CmdBuff> := [];
      while |slots| < cmdMax
        invariant |slots| <= cmdMax
        invariant forall i, j :: 0 <= i < j < |slots| ==> slots[i] != slots[j]
        invariant forall k :: 0 <= k < |slots| ==>
                    slots[k].capacity == capacity && slots[k].argvMax == argvMax && slots[k].Valid() &&
                    slots[k].buffer == null && slots[k].IsReset() && fresh(slots[k])
      {
        var slot := new CmdBuff(capacity, argvMax);
        slots := slots + [slot];
      }
      this.cmdMax := cmdMax;
      this.capacity := capacity;
      this.argvMax := argvMax;
      num := 0;
      commands := slots;
    }
  }

  // ---------------------------------------------------------------------------
  // Properties of the outcome
  // ---------------------------------------------------------------------------

  /** Segment k gets its slot and the loop goes on: the allocation succeeds
      and the trimmed segment has arguments. */
  predicate Succeeds(segs: seq<string>, k: nat, capacity: nat, mallocOk: nat -> bool)
    requires capacity >= 1 && k < |segs|
  {
    mallocOk(k) && SegmentArgs(segs[k], capacity) != []
  }

  /** Segments that succeed are passed over: the outcome is decided at the
      first one that does not, or at the end or CMD_MAX. */
  lemma {:induction false} OutcomeSkips(segs: seq<string>, i: nat, f: nat, cmdMax: nat, capacity: nat,
                                        mallocOk: nat -> bool)
    requires capacity >= 1 && i <= f <= |segs| && f <= cmdMax
    requires forall k :: i <= k < f ==> Succeeds(segs, k, capacity, mallocOk)
    ensures Outcome(segs, i, cmdMax, capacity, mallocOk) == Outcome(segs, f, cmdMax, capacity, mallocOk)
    decreases f - i
  {
    if i < f {
      assert Succeeds(segs, i, capacity, mallocOk);
      OutcomeSkips(segs, i + 1, f, cmdMax, capacity, mallocOk);
    }
  }

  /** What each status says about the count: it never exceeds the segments
      or CMD_MAX; OK means every segment got a slot; ERR_TOO_MANY_COMMANDS
      means CMD_MAX slots were filled and a segment was left over; ERR_MEMORY
      names the slot whose allocation failed; ERR_CMD_OR_ARGS_TOO_BIG
      counts the slot of the segment without arguments. */
  lemma {:induction false} OutcomeBounds(segs: seq<string>, i: nat, cmdMax: nat, capacity: nat,
                                         mallocOk: nat -> bool)
    requires capacity >= 1 && i <= |segs| && i <= cmdMax
    ensures var out := Outcome(segs, i, cmdMax, capacity, mallocOk);
            i <= out.1 <= |segs| && out.1 <= cmdMax &&
            (out.0 == Ok ==> out.1 == |segs|) &&
            (out.0 == ErrTooManyCommands ==> out.1 == cmdMax < |segs|) &&
            (out.0 == ErrMemory ==> out.1 < |segs| && !mallocOk(out.1)) &&
            (out.0 == ErrCmdOrArgsTooBig ==>
               i < out.1 && mallocOk(out.1 - 1) && SegmentArgs(segs[out.1 - 1], capacity) == []) &&
            out.0 != WarnNoCmds
    decreases |segs| - i
  {
    if i < |segs| && i < cmdMax && mallocOk(i) && SegmentArgs(segs[i], capacity) != [] {
      OutcomeBounds(segs, i + 1, cmdMax, capacity, mallocOk);
    }
  }

  /** The loop ends with OK exactly when there are at most CMD_MAX segments
      and every one of them gets its slot. */
  lemma OutcomeOkIff(segs: seq<string>, cmdMax: nat, capacity: nat, mallocOk: nat -> bool)
    requires capacity >= 1
    ensures Outcome(segs, 0, cmdMax, capacity, mallocOk).0 == Ok <==>
              |segs| <= cmdMax && forall k :: 0 <= k < |segs| ==> Succeeds(segs, k, capacity, mallocOk)
  {
    var out := Outcome(segs, 0, cmdMax, capacity, mallocOk);
    if |segs| <= cmdMax && forall k :: 0 <= k < |segs| ==> Succeeds(segs, k, capacity, mallocOk) {
      OutcomeSkips(segs, 0, |segs|, cmdMax, capacity, mallocOk);
    } else if out.0 == Ok {
      var f := FirstStop(segs, 0, cmdMax, capacity, mallocOk);
      OutcomeSkips(segs, 0, f, cmdMax, capacity, mallocOk);
    }
  }

  /** More than CMD_MAX segments whose first CMD_MAX all get their slots is
      ERR_TOO_MANY_COMMANDS with CMD_MAX slots filled. */
  lemma TooManyCommands(segs: seq<string>, cmdMax: nat, capacity: nat, mallocOk: nat -> bool)
    requires capacity >= 1 && |segs| > cmdMax
    requires forall k :: 0 <= k < cmdMax ==> Succeeds(segs, k, capacity, mallocOk)
    ensures Outcome(segs, 0, cmdMax, capacity, mallocOk) == (ErrTooManyCommands, cmdMax)
  {
    OutcomeSkips(segs, 0, cmdMax, cmdMax, capacity, mallocOk);
  }

  /** The first index from i on, up to the segments' end and CMD_MAX, whose
      segment does not succeed. */
  function FirstStop(segs: seq<string>, i: nat, cmdMax: nat, capacity: nat, mallocOk: nat -> bool): (f: nat)
    requires capacity >= 1 && i <= |segs| && i <= cmdMax
    ensures i <= f <= |segs| && f <= cmdMax
    ensures forall k :: i <= k < f ==> Succeeds(segs, k, capacity, mallocOk)
    ensures f < |segs| && f < cmdMax ==> !Succeeds(segs, f, capacity, mallocOk)
    decreases |segs| - i
  {
    if i < |segs| && i < cmdMax && Succeeds(segs, i, capacity, mallocOk)
    then FirstStop(segs, i + 1, cmdMax, capacity, mallocOk)
    else i
  }

  // ---------------------------------------------------------------------------
  // Example lines
  // ---------------------------------------------------------------------------

  /** "||" is not blank, but strtok finds no segment in it, so the loop never
      runs: OK with no command. */
  lemma OnlyPipes(b: seq<char>, cmdMax: nat, capacity: nat, mallocOk: nat -> bool)
    requires b == "||\0" && capacity >= 1
    ensures Terminated(b, 0) && !Blank(CStr(b, 0)) && Fields(b, 0, PIPE) == [] &&
            Outcome(Fields(b, 0, PIPE), 0, cmdMax, capacity, mallocOk) == (Ok, 0)
  {
    NulFromIs(b, 0, 2);
    assert CStr(b, 0)[0] == '|';
    NulFromIs(b, 2, 2);
    assert SpanIn(b, 2, PIPE) == 2;
    assert SpanIn(b, 0, PIPE) == 2;
  }

  /** The segments "ls " and " wc" trim to the one-word commands "ls" and
      "wc". */
  lemma LsWcArgs(capacity: nat)
    requires capacity >= 3
    ensures SegmentArgs("ls ", capacity) == ["ls"] && SegmentArgs(" wc", capacity) == ["wc"]
  {
    assert Trim("ls ") == "ls" by {
      assert LeadEnd("ls ", 0) == 0;
      assert TrailStart("ls ", 0, 2) == 2;
    }
    assert Trim(" wc") == "wc" by {
      assert LeadEnd(" wc", 1) == 1;
      assert TrailStart(" wc", 1, 3) == 3;
    }
    JoinRoundTrip(["ls"]);
    JoinRoundTrip(["wc"]);
  }

  /** "ls | wc" gives the commands "ls" and "wc", each in its own slot: OK
      with two commands. */
  lemma TwoCommands(b: seq<char>, cmdMax: nat, capacity: nat, mallocOk: nat -> bool)
    requires b == "ls | wc\0" && cmdMax >= 2 && capacity >= 3 && mallocOk(0) && mallocOk(1)
    ensures Terminated(b, 0) && !Blank(CStr(b, 0))
    ensures var segs := Fields(b, 0, PIPE);
            segs == ["ls ", " wc"] &&
            SegmentArgs(segs[0], capacity) == ["ls"] && SegmentArgs(segs[1], capacity) == ["wc"] &&
            Outcome(segs, 0, cmdMax, capacity, mallocOk) == (Ok, 2)
  {
    LsWcFields(b);
    assert !Blank(CStr(b, 0)) by {
      NulFromIs(b, 0, 7);
      assert CStr(b, 0)[0] == 'l';
    }
    LsWcArgs(capacity);
    LsWcOutcome(cmdMax, capacity, mallocOk);
  }

  /** Both segments of "ls | wc" get their slot, so the loop ends OK at 2. */
  lemma LsWcOutcome(cmdMax: nat, capacity: nat, mallocOk: nat -> bool)
    requires cmdMax >= 2 && capacity >= 3 && mallocOk(0) && mallocOk(1)
    ensures Outcome(["ls ", " wc"], 0, cmdMax, capacity, mallocOk) == (Ok, 2)
  {
    var segs := ["ls ", " wc"];
    LsWcArgs(capacity);
    assert segs[0] == "ls " && segs[1] == " wc";
    assert Succeeds(segs, 0, capacity, mallocOk) && Succeeds(segs, 1, capacity, mallocOk);
    assert Outcome(segs, 2, cmdMax, capacity, mallocOk) == (Ok, 2);
    assert Outcome(segs, 1, cmdMax, capacity, mallocOk) == (Ok, 2);
  }

  /** A first segment that trims to nothing stops the loop before any later
      segment is tokenized, so the later segments need no argv room at all,
      however many tokens they hold. */
  lemma BlankFirstStops(rest: seq<string>, cmdMax: nat, capacity: nat, argvMax: nat, mallocOk: nat -> bool)
    requires cmdMax >= 1 && capacity >= 1 && argvMax >= 1
    ensures AllFit(["\t"] + rest, 0, cmdMax, capacity, argvMax, mallocOk)
    ensures mallocOk(0) ==> Outcome(["\t"] + rest, 0, cmdMax, capacity, mallocOk) == (ErrCmdOrArgsTooBig, 1)
  {
    assert (["\t"] + rest)[0] == "\t";
    assert Trim("\t") == "" by {
      assert LeadEnd("\t", 0) == 1;
    }
    assert Spans("", 0) == [];
  }

  /** A line holding only a tab is not blank to the space-only test, but its
      segment trims to nothing: the slot is filled with no arguments and the
      result is ERR_CMD_OR_ARGS_TOO_BIG. */
  lemma TabOnly(b: seq<char>, cmdMax: nat, capacity: nat, mallocOk: nat -> bool)
    requires b == "\t\0" && cmdMax >= 1 && capacity >= 1 && mallocOk(0)
    ensures Terminated(b, 0) && !Blank(CStr(b, 0)) && Fields(b, 0, PIPE) == ["\t"] &&
            Outcome(Fields(b, 0, PIPE), 0, cmdMax, capacity, mallocOk) == (ErrCmdOrArgsTooBig, 1)
  {
    NulFromIs(b, 0, 1);
    assert CStr(b, 0)[0] == '\t';
    assert SpanIn(b, 0, PIPE) == 0;
    assert SpanOut(b, 0, PIPE) == 1;
    assert CStr(b, 0) == "\t";
    NulFromIs(b, 1, 1);
    assert SpanIn(b, 1, PIPE) == 1;
    assert Fields(b, 1, PIPE) == [];
    assert Trim("\t") == "" by {
      assert LeadEnd("\t", 0) == 1;
    }
    assert Spans("", 0) == [];
  }
}
