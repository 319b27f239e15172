/** Built-in command dispatch of the shell drafts: match_command and
    exec_built_in_cmd. The bodies of chdir and print_dragon are not part of this
    model; the dispatcher reports which of them it would invoke as an Effect. */
module BuiltIns {

  /** Built_In_Cmds: the results of lookup and of dispatch. */
  datatype BuiltIn = NotBuiltIn | CmdExit | CmdDragon | CmdCd | Executed

  /** The outside action a dispatch performs. */
  datatype Effect = NoEffect | PrintDragon | ChangeDir(path: string)

  /** match_command: exact comparison with the three built-in names. */
  function MatchCommand(input: string): BuiltIn {
    if input == "exit" then CmdExit
    else if input == "dragon" then CmdDragon
    else if input == "cd" then CmdCd
    else NotBuiltIn
  }

  /** The name of each built-in command. */
  function Name(b: BuiltIn): (name: string)
    requires b in {CmdExit, CmdDragon, CmdCd}
  {
    match b
    case CmdExit => "exit"
    case CmdDragon => "dragon"
    case CmdCd => "cd"
  }

  /** The lookup recognises exactly the three names, each as its own command:
      a string is a built-in iff it is the name of one. */
  lemma MatchIsExact(input: string)
    ensures MatchCommand(input) != NotBuiltIn ==>
              MatchCommand(input) in {CmdExit, CmdDragon, CmdCd} && Name(MatchCommand(input)) == input
    ensures forall b :: b in {CmdExit, CmdDragon, CmdCd} && input == Name(b) ==> MatchCommand(input) == b
  {
  }

  /** The comparison is case-sensitive and allows no surrounding text. */
  lemma MatchIsCaseSensitive()
    ensures MatchCommand("EXIT") == NotBuiltIn && MatchCommand("Exit") == NotBuiltIn
    ensures MatchCommand("CD") == NotBuiltIn && MatchCommand(" cd") == NotBuiltIn
    ensures MatchCommand("exit ") == NotBuiltIn && MatchCommand("") == NotBuiltIn
  {
  }

  /** exec_built_in_cmd on the strings argv[0 .. argc): "exit" yields CmdExit,
      "dragon" prints the dragon, "cd" changes directory to argv[1] only when
      there is one; both yield Executed. Anything else is NotBuiltIn with no
      effect. The source reads argv[0], so argc is at least 1. */
  function ExecBuiltIn(args: seq<string>): (r: (BuiltIn, Effect))
    requires |args| >= 1
    ensures r.0 in {NotBuiltIn, CmdExit, Executed}
    ensures r.0 == NotBuiltIn <==> MatchCommand(args[0]) == NotBuiltIn
    ensures r.0 == CmdExit <==> args[0] == "exit"
    ensures r.1 == PrintDragon <==> args[0] == "dragon"
    ensures r.1.ChangeDir? <==> args[0] == "cd" && |args| > 1
    ensures r.1.ChangeDir? ==> r.1.path == args[1]
    ensures r.0 != Executed ==> r.1 == NoEffect
  {
    match MatchCommand(args[0])
    case CmdExit => (CmdExit, NoEffect)
    case CmdDragon => (Executed, PrintDragon)
    case CmdCd => (Executed, if |args| > 1 then ChangeDir(args[1]) else NoEffect)
    case _ => (NotBuiltIn, NoEffect)
  }

  /** "cd" with no operand is accepted and does nothing. */
  lemma CdAloneIsNoOp(args: seq<string>)
    requires |args| == 1 && args[0] == "cd"
    ensures ExecBuiltIn(args) == (Executed, NoEffect)
  {
  }
}
