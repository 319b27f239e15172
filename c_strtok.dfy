/** strtok from the C library, with its hidden saved position made an explicit
    cursor that every call takes and returns. A call skips the delimiters at the
    cursor; if it reaches the terminator there is no token. Otherwise the token
    runs to the next delimiter or the terminator; a delimiter there is
    overwritten with NUL and the cursor moves past it, a terminator leaves the
    cursor on itself. The line is a buffer holding a C string. */
module CStrtok {
  import opened DshTypes
  import opened CStrings

  /** The delimiter set "|" (PIPE_STRING). */
  const PIPE: set<char> := {'|'}

  /** What one call leaves: the buffer, the token's start (None for NULL) and
      the saved cursor. */
  datatype Step = Step(buffer: seq<char>, token: Option<nat>, save: nat)

  lemma TerminatedNext(b: seq<char>, i: nat)
    requires Terminated(b, i) && b[i] != NUL
    ensures Terminated(b, i + 1)
  {
    var t := NulFrom(b, i);
    assert i + 1 <= t;
  }

  /** strspn: the first index at or after i whose character is not a
      delimiter; the terminator never is one. */
  function SpanIn(b: seq<char>, i: nat, delim: set<char>): (j: nat)
    requires NUL !in delim && Terminated(b, i)
    ensures i <= j < |b| && b[j] !in delim
    ensures forall k :: i <= k < j ==> b[k] in delim
    decreases |b| - i
  {
    if b[i] in delim then TerminatedNext(b, i); SpanIn(b, i + 1, delim) else i
  }

  /** strcspn: the first index at or after i that holds a delimiter or the
      terminator. */
  function SpanOut(b: seq<char>, i: nat, delim: set<char>): (e: nat)
    requires Terminated(b, i)
    ensures i <= e < |b| && (b[e] == NUL || b[e] in delim)
    ensures forall k :: i <= k < e ==> b[k] != NUL && b[k] !in delim
    decreases |b| - i
  {
    if b[i] != NUL && b[i] !in delim then TerminatedNext(b, i); SpanOut(b, i + 1, delim) else i
  }

  /** One strtok call from the cursor. */
  function StrtokStep(b: seq<char>, save: nat, delim: set<char>): (r: Step)
    requires NUL !in delim && Terminated(b, save)
    ensures |r.buffer| == |b| && save <= r.save < |b| && Terminated(r.buffer, r.save)
  {
    var t := SpanIn(b, save, delim);
    if b[t] == NUL then Step(b, None, t)
    else
      var e := SpanOut(b, t, delim);
      if b[e] == NUL then Step(b, Some(t), e)
      else
        var b' := b[e := NUL];
        assert b'[NulFrom(b, e)] == NUL;
        Step(b', Some(t), e + 1)
  }

  /** A call writes NUL over one delimiter at most and changes nothing else. */
  lemma StrtokPunches(b: seq<char>, save: nat, delim: set<char>)
    requires NUL !in delim && Terminated(b, save)
    ensures Punched(b, StrtokStep(b, save, delim).buffer, delim)
  {
  }

  /** The text of the token a call returned. */
  function TokenText(r: Step): string
    requires r.token.Some? && Terminated(r.buffer, r.token.value)
  {
    CStr(r.buffer, r.token.value)
  }

  /** What a call does, stated without the helper functions. With no token,
      everything from the cursor to a terminator is delimiters and nothing is
      written. With a token at t: only delimiters precede it, it is a nonempty
      run of characters that are neither delimiters nor NUL, it ends at a
      delimiter (now NUL, the cursor just past it) or at the terminator (the
      cursor on it), and no other cell changes. */
  lemma StrtokSpec(b: seq<char>, save: nat, delim: set<char>)
    requires NUL !in delim && Terminated(b, save)
    ensures var r := StrtokStep(b, save, delim);
            (r.token.None? ==>
               r.buffer == b && b[r.save] == NUL && forall k :: save <= k < r.save ==> b[k] in delim) &&
            (r.token.Some? ==>
               var t := r.token.value;
               Terminated(r.buffer, t) &&
               var e := NulFrom(r.buffer, t);
               save <= t < e < |b| &&
               (forall k :: save <= k < t ==> b[k] in delim) &&
               (forall k :: t <= k < e ==> b[k] != NUL && b[k] !in delim) &&
               (b[e] == NUL || b[e] in delim) &&
               r.buffer == b[e := NUL] &&
               r.save == (if b[e] == NUL then e else e + 1))
  {
    var r := StrtokStep(b, save, delim);
    if r.token.Some? {
      var t := r.token.value;
      var e := SpanOut(b, t, delim);
      NulFromIs(r.buffer, t, e);
    }
  }

  /** The tokens that repeated calls return, from the cursor until NULL. */
  function Fields(b: seq<char>, save: nat, delim: set<char>): seq<string>
    requires NUL !in delim && Terminated(b, save)
    decreases |b| - save
  {
    var r := StrtokStep(b, save, delim);
    if r.token.None? then []
    else
      StrtokSpec(b, save, delim);
      [TokenText(r)] + Fields(r.buffer, r.save, delim)
  }

  /** Fields never are empty and never hold a delimiter or the terminator:
      consecutive delimiters yield no empty field. */
  lemma {:induction false} FieldsAreSolid(b: seq<char>, save: nat, delim: set<char>)
    requires NUL !in delim && Terminated(b, save)
    ensures forall f :: f in Fields(b, save, delim) ==>
              |f| > 0 && NoNul(f) && forall k :: 0 <= k < |f| ==> f[k] !in delim
    decreases |b| - save
  {
    var r := StrtokStep(b, save, delim);
    if r.token.Some? {
      StrtokSpec(b, save, delim);
      FieldsAreSolid(r.buffer, r.save, delim);
      TokenSolid(b, save, delim);
    }
  }

  /** The token one call returns is not empty and holds no delimiter or
      terminator. */
  lemma TokenSolid(b: seq<char>, save: nat, delim: set<char>)
    requires NUL !in delim && Terminated(b, save)
    requires StrtokStep(b, save, delim).token.Some?
    ensures var r := StrtokStep(b, save, delim);
            Terminated(r.buffer, r.token.value) &&
            var f := TokenText(r);
            |f| > 0 && NoNul(f) && forall k :: 0 <= k < |f| ==> f[k] !in delim
  {
    var r := StrtokStep(b, save, delim);
    StrtokSpec(b, save, delim);
    var t := r.token.value;
    var f := TokenText(r);
    forall k | 0 <= k < |f|
      ensures f[k] != NUL && f[k] !in delim
    {
      assert f[k] == b[t + k];
    }
  }

  /** The calls from a cursor look only at the cells from the cursor on. */
  lemma StepFrame(b: seq<char>, b': seq<char>, save: nat, delim: set<char>)
    requires NUL !in delim && Terminated(b, save)
    requires |b'| == |b| && b'[save..] == b[save..]
    ensures Terminated(b', save)
    ensures var r := StrtokStep(b, save, delim);
            var r' := StrtokStep(b', save, delim);
            r'.token == r.token && r'.save == r.save &&
            |r'.buffer| == |r.buffer| && r'.buffer[save..] == r.buffer[save..]
  {
    SpanInFrame(b, b', save, save, delim);
    var j := SpanIn(b, save, delim);
    assert b'[j] == b[save..][j - save];
    if b[j] != NUL {
      SpanOutFrame(b, b', save, j, delim);
      var e := SpanOut(b, j, delim);
      assert b'[e] == b[save..][e - save];
      var r := StrtokStep(b, save, delim);
      var r' := StrtokStep(b', save, delim);
      forall k | save <= k < |b|
        ensures r'.buffer[k] == r.buffer[k]
      {
        assert b'[k] == b[save..][k - save];
      }
    }
  }

  /** Agreement from lo on is agreement from any later index. */
  lemma SuffixLater(b: seq<char>, b': seq<char>, lo: nat, hi: nat)
    requires |b'| == |b| && lo <= hi <= |b| && b'[lo..] == b[lo..]
    ensures b'[hi..] == b[hi..]
  {
    forall k | hi <= k < |b|
      ensures b'[k] == b[k]
    {
      assert b'[k] == b'[lo..][k - lo];
    }
  }

  /** The C string at t depends only on the cells from t on. */
  lemma CStrFrame(b: seq<char>, b': seq<char>, t: nat)
    requires Terminated(b, t) && |b'| == |b| && t <= |b| && b'[t..] == b[t..]
    ensures Terminated(b', t) && CStr(b', t) == CStr(b, t)
  {
    var e := NulFrom(b, t);
    forall k | t <= k <= e
      ensures b'[k] == b[k]
    {
      assert b'[k] == b'[t..][k - t];
    }
    NulFromIs(b', t, e);
  }

  lemma {:induction false} SpanInFrame(b: seq<char>, b': seq<char>, lo: nat, i: nat, delim: set<char>)
    requires NUL !in delim && Terminated(b, i) && lo <= i
    requires |b'| == |b| && b'[lo..] == b[lo..]
    ensures Terminated(b', i) && SpanIn(b', i, delim) == SpanIn(b, i, delim)
    decreases |b| - i
  {
    var t := NulFrom(b, i);
    assert b'[t] == b[lo..][t - lo];
    assert b'[i] == b[lo..][i - lo];
    if b[i] in delim {
      TerminatedNext(b, i);
      SpanInFrame(b, b', lo, i + 1, delim);
    }
  }

  lemma {:induction false} SpanOutFrame(b: seq<char>, b': seq<char>, lo: nat, i: nat, delim: set<char>)
    requires Terminated(b, i) && lo <= i
    requires |b'| == |b| && b'[lo..] == b[lo..]
    ensures Terminated(b', i) && SpanOut(b', i, delim) == SpanOut(b, i, delim)
    decreases |b| - i
  {
    var t := NulFrom(b, i);
    assert b'[t] == b[lo..][t - lo];
    assert b'[i] == b[lo..][i - lo];
    if b[i] != NUL && b[i] !in delim {
      TerminatedNext(b, i);
      SpanOutFrame(b, b', lo, i + 1, delim);
    }
  }

  /** Writes before the cursor do not change the fields still to come. */
  lemma {:induction false} FieldsFrame(b: seq<char>, b': seq<char>, save: nat, delim: set<char>)
    requires NUL !in delim && Terminated(b, save)
    requires |b'| == |b| && b'[save..] == b[save..]
    ensures Terminated(b', save) && Fields(b', save, delim) == Fields(b, save, delim)
    decreases |b| - save
  {
    StepFrame(b, b', save, delim);
    var r := StrtokStep(b, save, delim);
    var r' := StrtokStep(b', save, delim);
    if r.token.Some? {
      StrtokSpec(b, save, delim);
      var t := r.token.value;
      SuffixLater(r.buffer, r'.buffer, save, t);
      CStrFrame(r.buffer, r'.buffer, t);
      SuffixLater(r.buffer, r'.buffer, save, r.save);
      FieldsFrame(r.buffer, r'.buffer, r.save, delim);
    }
  }

  /** strtok(s, delim) or strtok(NULL, delim) with the saved cursor passed in
      and handed back. */
  method Strtok(a: array<char>, save: nat, delim: set<char>) returns (token: Option<nat>, next: nat)
    requires NUL !in delim && Terminated(a[..], save)
    modifies a
    ensures Step(a[..], token, next) == StrtokStep(old(a[..]), save, delim)
    ensures Punched(old(a[..]), a[..], delim)
  {
    StrtokPunches(a[..], save, delim);
    var t := SpanIn(a[..], save, delim);
    if a[t] == NUL {
      return None, t;
    }
    var e := SpanOut(a[..], t, delim);
    if a[e] == NUL {
      return Some(t), e;
    }
    a[e] := NUL;
    token, next := Some(t), e + 1;
  }

  // ---------------------------------------------------------------------------
  // A strtok loop over the fields of a line
  // ---------------------------------------------------------------------------

  /** strspn at a character that is not a delimiter is zero. */
  lemma SpanInAt(b: seq<char>, i: nat, delim: set<char>)
    requires NUL !in delim && Terminated(b, i) && b[i] !in delim
    ensures SpanIn(b, i, delim) == i
  {
  }

  /** Any index whose cell is NUL or a delimiter, with neither before it, is
      where strcspn stops. */
  lemma {:induction false} SpanOutIs(b: seq<char>, i: nat, delim: set<char>, e: nat)
    requires Terminated(b, i) && i <= e < |b| && (b[e] == NUL || b[e] in delim)
    requires forall k :: i <= k < e ==> b[k] != NUL && b[k] !in delim
    ensures SpanOut(b, i, delim) == e
    decreases e - i
  {
    if i < e {
      TerminatedNext(b, i);
      SpanOutIs(b, i + 1, delim, e);
    }
  }

  /** strtok from a cursor on a NUL finds no token and leaves the cursor. */
  lemma StrtokAtNul(b: seq<char>, i: nat, delim: set<char>)
    requires NUL !in delim && Terminated(b, i) && b[i] == NUL
    ensures StrtokStep(b, i, delim) == Step(b, None, i)
  {
    SpanInAt(b, i, delim);
  }

  /** From a token's first cell, strtok ends the token at e, where strcspn
      stops, and writes NUL there unless the terminator is already there. */
  lemma StrtokAtToken(b: seq<char>, i: nat, delim: set<char>, e: nat)
    requires NUL !in delim && Terminated(b, i) && b[i] != NUL && b[i] !in delim && SpanOut(b, i, delim) == e
    ensures b[e] == NUL ==> StrtokStep(b, i, delim) == Step(b, Some(i), e)
    ensures b[e] != NUL ==> StrtokStep(b, i, delim) == Step(b[e := NUL], Some(i), e + 1)
  {
    SpanInAt(b, i, delim);
  }

  /** strtok has just returned the segment at t, which is segs[count], and
      the calls still to come from save return the segments after it. */
  ghost predicate Current(b: seq<char>, t: nat, save: nat, segs: seq<string>, count: nat) {
    count < |segs| && Terminated(b, t) && Terminated(b, save) &&
    NulFrom(b, t) <= save && CStr(b, t) == segs[count] &&
    Fields(b, save, PIPE) == segs[count + 1..]
  }

  /** The calls from save return segs[count..]: the next call returns
      segs[count], or NULL when there is none. */
  lemma StrtokAdvances(b: seq<char>, save: nat, segs: seq<string>, count: nat)
    requires Terminated(b, save) && count <= |segs| && Fields(b, save, PIPE) == segs[count..]
    ensures var r := StrtokStep(b, save, PIPE);
            (r.token.None? <==> count == |segs|) &&
            (r.token.Some? ==> Current(r.buffer, r.token.value, r.save, segs, count))
  {
    var r := StrtokStep(b, save, PIPE);
    StrtokSpec(b, save, PIPE);
    if r.token.Some? {
      assert Fields(b, save, PIPE) == [TokenText(r)] + Fields(r.buffer, r.save, PIPE);
      assert segs[count..][1..] == segs[count + 1..];
    }
  }

  /** Writes inside the current segment leave the calls still to come
      unchanged. */
  lemma CurrentRest(b: seq<char>, b': seq<char>, t: nat, save: nat, segs: seq<string>, count: nat)
    requires Current(b, t, save, segs, count)
    requires |b'| == |b| && b'[t + |segs[count]|..] == b[t + |segs[count]|..]
    ensures Terminated(b', save) && Fields(b', save, PIPE) == segs[count + 1..]
  {
    var n := t + |segs[count]|;
    assert n == NulFrom(b, t) <= save;
    SuffixLater(b, b', n, save);
    FieldsFrame(b, b', save, PIPE);
  }

  /** strtok(NULL, PIPE) once the calls from save return segs[count..]. */
  method NextSegment(line: array<char>, save: nat, ghost b: seq<char>, ghost segs: seq<string>, ghost count: nat)
    returns (command: Option<nat>, next: nat, ghost b': seq<char>)
    requires line[..] == b && Terminated(b, save) && count <= |segs| && Fields(b, save, PIPE) == segs[count..]
    modifies line
    ensures line[..] == b' && Punched(b, b', PIPE)
    ensures command.None? <==> count == |segs|
    ensures command.Some? ==> Current(b', command.value, next, segs, count)
  {
    StrtokAdvances(b, save, segs, count);
    command, next := Strtok(line, save, PIPE);
    b' := line[..];
  }

  /** strtok splits "ls | wc" into "ls " and " wc". */
  lemma LsWcFields(b: seq<char>)
    requires b == "ls | wc\0"
    ensures Terminated(b, 0) && Fields(b, 0, PIPE) == ["ls ", " wc"]
  {
    NulFromIs(b, 0, 7);
    assert SpanIn(b, 0, PIPE) == 0;
    assert SpanOut(b, 2, PIPE) == 2 + 1;
    assert SpanOut(b, 0, PIPE) == 3;
    var b1 := b[3 := NUL];
    assert StrtokStep(b, 0, PIPE) == Step(b1, Some(0), 4);
    NulFromIs(b1, 0, 3);
    assert CStr(b1, 0) == "ls ";
    NulFromIs(b1, 4, 7);
    assert SpanIn(b1, 4, PIPE) == 4;
    assert SpanOut(b1, 6, PIPE) == 6 + 1;
    assert SpanOut(b1, 5, PIPE) == 7;
    assert SpanOut(b1, 4, PIPE) == 7;
    assert StrtokStep(b1, 4, PIPE) == Step(b1, Some(4), 7);
    assert CStr(b1, 4) == " wc";
    NulFromIs(b1, 7, 7);
    assert SpanIn(b1, 7, PIPE) == 7;
    assert Fields(b1, 7, PIPE) == [];
    assert Fields(b1, 4, PIPE) == [" wc"];
  }
}
