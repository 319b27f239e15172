/** NUL-terminated character buffers as the C code sees them, and strlen. */
module CStrings {
  import opened DshTypes

  /** A terminator occurs at or after index i of b. */
  ghost predicate Terminated(b: seq<char>, i: nat) {
    exists t :: i <= t < |b| && b[t] == NUL
  }

  /** The index of the first NUL at or after i: where the C string at i ends. */
  function NulFrom(b: seq<char>, i: nat): (t: nat)
    requires Terminated(b, i)
    ensures i <= t < |b| && b[t] == NUL
    ensures forall k :: i <= k < t ==> b[k] != NUL
    decreases |b| - i
  {
    if b[i] == NUL then i else NulFrom(b, i + 1)
  }

  /** Any terminator position with no terminator before it is the first one. */
  lemma NulFromIs(b: seq<char>, i: nat, t: nat)
    requires i <= t < |b| && b[t] == NUL
    requires forall k :: i <= k < t ==> b[k] != NUL
    ensures Terminated(b, i) && NulFrom(b, i) == t
  {
  }

  /** The C string that starts at index i of b. */
  function CStr(b: seq<char>, i: nat): string
    requires Terminated(b, i)
  {
    b[i..NulFrom(b, i)]
  }

  /** b' is b with NUL written over some of its cells, each of which held a
      character of cuts; every other cell is unchanged. */
  ghost predicate Punched(b: seq<char>, b': seq<char>, cuts: set<char>) {
    |b'| == |b| && forall k :: 0 <= k < |b| ==> b'[k] == b[k] || (b'[k] == NUL && b[k] in cuts)
  }

  /** Two rounds of punching are one, over the union of what each may cut. */
  lemma PunchedChain(b0: seq<char>, b1: seq<char>, b2: seq<char>, c1: set<char>, c2: set<char>, cuts: set<char>)
    requires Punched(b0, b1, c1) && Punched(b1, b2, c2) && c1 <= cuts && c2 <= cuts
    ensures Punched(b0, b2, cuts)
  {
  }

  /** strlen(a + p): the number of characters before the terminator. */
  method Strlen(a: array<char>, p: nat) returns (n: nat)
    requires Terminated(a[..], p)
    ensures p + n < a.Length && a[p + n] == NUL
    ensures forall k :: p <= k < p + n ==> a[k] != NUL
  {
    ghost var t := NulFrom(a[..], p);
    n := 0;
    while a[p + n] != NUL
      invariant p + n <= t
      invariant forall k :: p <= k < p + n ==> a[k] != NUL
      decreases t - (p + n)
    {
      n := n + 1;
    }
  }

  /** strlen(a + c) and a copy of that many characters: the C string at c. */
  method CopyOut(line: array<char>, c: nat, ghost b: seq<char>) returns (text: string)
    requires line[..] == b && Terminated(b, c)
    ensures text == CStr(b, c) && NoNul(text)
  {
    var n := Strlen(line, c);
    NulFromIs(b, c, c + n);
    text := line[c..c + n];
  }
}
