/** Shared vocabulary of the dsh shell drafts: characters, return codes and the
    result of built-in dispatch. The header that defines the numeric codes is not
    part of this model; the codes are kept distinct by making them constructors. */
module DshTypes {

  /** The C string terminator. */
  const NUL: char := '\0'

  datatype Option<T> = None | Some(value: T)

  /** Return codes of the parsing functions (OK, WARN_NO_CMDS, ERR_...). */
  datatype Status =
    | Ok
    | WarnNoCmds
    | ErrTooManyCommands
    | ErrCmdOrArgsTooBig
    | ErrMemory

  /** isspace() in the C locale. */
  predicate IsSpace(c: char) {
    c == ' ' || c == '\t' || c == '\n' || c == '\U{B}' || c == '\U{C}' || c == '\r'
  }

  /** The contents of a C string: no terminator inside. */
  predicate NoNul(s: seq<char>) {
    forall k :: 0 <= k < |s| ==> s[k] != NUL
  }

  function Min(a: nat, b: nat): nat {
    if a <= b then a else b
  }
}
