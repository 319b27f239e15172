# Drexel shell drafts: the parsing core in Dafny

This project models the text-processing half of a small Unix shell written in C
over several drafts, and proves what each part promises.

- **The argument tokenizer** (`skip_spaces`, `parse_argument`, `build_cmd_buff`
  of 4-ShellP2 and 5-ShellP3). It copies a command line into a buffer of
  SH_CMD_MAX cells and walks it with a pointer. It overwrites every token's
  separator or closing quote with NUL in place and stores each token's start
  in `argv`. The buffer is an `array<char>`, `argv` a sequence of offsets
  (`Ptr`), and `argc` a field of the class `Tokenizer.CmdBuff`. That class also
  models `alloc_cmd_buff`, `free_cmd_buff` and `clear_cmd_buff`.
  - Module `Tokenizer` holds the corrected parser.
  - Module `TokenizerDrafts` holds both drafts as written, step for step, with
    the reads past the buffer they make (see Findings).
- **`strtok`** (module `CStrtok`). Its hidden saved position is an explicit
  cursor that every call takes and hands back. `Fields` is the sequence of
  tokens that repeated calls return.
- **`build_cmd_list` of 5-ShellP3** (module `PipelineP3`). It splits the line
  on `|`, trims `isspace` from both ends of every segment, enforces CMD_MAX, and
  fills one `cmd_buff_t` per segment (class `PipelineP3.CommandList`). The
  function `Outcome` states the status and count it ends with. A failed
  `malloc` is a parameter `mallocOk`, giving the allocation outcome per slot.
- **`build_cmd_list` of the first shell draft** (module `PipelinePart1`). It
  splits every segment into an executable name and an argument string, with the
  EXE_MAX and ARG_MAX limits (class `PipelinePart1.CommandList`).
  - The inner `strtok(command, " ")` and `strtok(NULL, "")` move the same
    cursor that the outer `strtok(NULL, "|")` resumes from, so the code as
    written stores at most one command.
  - Both the code as written and a corrected loop are modelled, each against
    the function `Build`.
- **Built-in dispatch** (module `BuiltIns`). `match_command` and
  `exec_built_in_cmd`. `chdir` and `print_dragon` appear only as the `Effect`
  the dispatch reports.
- **`setup_buff` and `count_words`** of the C refresher (module `StringFun`).
  `setup_buff` copies a string into a 50-cell buffer, keeping the first
  character of every run of spaces and tabs. It pads the rest with `'.'` and
  terminates it. `count_words` is a stub that returns 0.

The return codes of the unseen header `dshlib.h` are the datatype
`DshTypes.Status`, so they are distinct. The sizes SH_CMD_MAX, CMD_ARGV_MAX,
CMD_MAX, EXE_MAX and ARG_MAX are constant fields fixed by constructors, or
parameters. BUFFER_SZ is 50, as `stringfun.c` defines it.

Where the code and the header comment of 5-ShellP3/starter/dshlib.c differ,
the model follows the code:
- The comment at 5-ShellP3/starter/dshlib.c:40 gives WARN_NO_CMDS for "No
  commands parsed". A line of only pipes such as `"||"` is not blank to the
  test at 5-ShellP3/starter/dshlib.c:300. Yet `strtok` finds no segment in it,
  so `build_cmd_list` parses no command and still returns OK
  (`PipelineP3.OnlyPipes`).
- The comment at 5-ShellP3/starter/dshlib.c:33 gives WARN_NO_CMDS when "the
  user command was empty". A line holding only a tab passes the space-only
  blank test. Its trimmed segment has no argument, so the result is
  ERR_CMD_OR_ARGS_TOO_BIG (`PipelineP3.TabOnly`).

## Model

| member | source | states |
|---|---|---|
| BuiltIns.MatchIsExact | 5-ShellP3/starter/dshlib.c:147-158 | match_command recognises exactly "exit", "dragon" and "cd", each as its own code; every other string is not a built-in |
| BuiltIns.MatchIsCaseSensitive | 4-ShellP2/starter/dshlib.c:141-150 | the comparison is exact: "EXIT", "Exit", "CD", " cd", "exit " and "" are not built-ins |
| BuiltIns.ExecBuiltIn | 5-ShellP3/starter/dshlib.c:160-180 | exit gives BI_CMD_EXIT; dragon prints the dragon and gives BI_EXECUTED; cd gives BI_EXECUTED and changes directory to argv[1] exactly when argc > 1; anything else is BI_NOT_BI with no effect |
| BuiltIns.CdAloneIsNoOp | 4-ShellP2/starter/dshlib.c:163-167 | "cd" with no operand is executed and does nothing |
| CStrings.Strlen | 5-ShellP3/starter/dshlib.c:310 | strlen returns the distance to the first NUL; no NUL lies before it |
| CStrings.CopyOut | 3-Drexel_Shell_Part_1/starter/dshlib.c:67 | the characters strncpy copies into a field are exactly the C string at the source pointer, with no NUL inside |
| CStrtok.StrtokSpec | 3-Drexel_Shell_Part_1/starter/dshlib.c:42 | one strtok call: with no token, only delimiters lie between the cursor and a NUL and nothing is written; with a token, only delimiters precede it, it is a nonempty run of non-delimiters, the delimiter after it (if any) becomes NUL, and the cursor moves past that NUL or stays on the terminator |
| CStrtok.Strtok | 3-Drexel_Shell_Part_1/starter/dshlib.c:84 | the method's buffer, token and cursor are those of one strtok call from the cursor it is given; the only cells it changes are delimiters made NUL |
| CStrtok.StrtokPunches | 3-Drexel_Shell_Part_1/starter/dshlib.c:42 | a strtok call changes a cell only by writing NUL over a delimiter |
| CStrtok.FieldsAreSolid | 5-ShellP3/starter/dshlib.c:306-308 | strtok never returns an empty field, nor one holding a delimiter or NUL: consecutive pipes give no empty segment |
| CStrtok.StrtokAdvances | 5-ShellP3/starter/dshlib.c:342 | when the calls from the cursor return segs[count..], the next call returns segs[count], or NULL exactly when none is left |
| CStrtok.CurrentRest | 5-ShellP3/starter/dshlib.c:310-321 | writes inside the current segment leave the segments still to come unchanged |
| CStrtok.NextSegment | 5-ShellP3/starter/dshlib.c:342 | strtok(NULL, PIPE_STRING) returns the next segment with the cursor for the rest, or NULL after the last |
| CStrtok.LsWcFields | 5-ShellP3/starter/dshlib.c:306 | strtok splits "ls \| wc" into "ls " and " wc" |
| Tokenizer.SkipBlanks | 4-ShellP2/starter/dshlib.c:214-219 | the position skip_spaces reaches is at or after its input and holds no ' ' |
| Tokenizer.SkippedAreBlank | 4-ShellP2/starter/dshlib.c:214-219 | skip_spaces passes over ' ' only |
| Tokenizer.SkipSpaces | 5-ShellP3/starter/dshlib.c:223-228 | on the buffer: stops at the first cell that is not ' ', with only ' ' before it |
| Tokenizer.QuotedHasNoQuote | 4-ShellP2/starter/dshlib.c:223-240 | a token opened by '"' runs through spaces and holds no '"' |
| Tokenizer.WordHasNoSeparator | 4-ShellP2/starter/dshlib.c:231-246 | an unquoted token holds neither ' ' nor '"' |
| Tokenizer.ArgEnd | 4-ShellP2/starter/dshlib.c:231-240 | the scan of parse_argument stops at NUL, at '"', or at ' ' outside quotes, and at no cell before that, so it never passes the terminator |
| Tokenizer.ParseArgument | 4-ShellP2/starter/dshlib.c:221-249 | an opening quote is stepped over and sets the flag; exactly the cell where the scan stops becomes NUL; a closing quote clears the flag; the result is the token start |
| Tokenizer.SpansWellFormed | 4-ShellP2/starter/dshlib.c:262-277 | token spans lie inside the line, their starts strictly increase, and each ends at a separator or the end |
| Tokenizer.NoTokensIffBlank | 4-ShellP2/starter/dshlib.c:279-281 | a line has no tokens exactly when it is all spaces |
| Tokenizer.JoinRoundTrip | 4-ShellP2/starter/dshlib.c:265-277 | tokenizing plain words joined by single spaces gives back the words |
| Tokenizer.WordSpans | 4-ShellP2/starter/dshlib.c:231-246 | a word followed by a space is one token, and the rest is tokenized as if alone |
| Tokenizer.QuotedThenRest | 4-ShellP2/starter/dshlib.c:223-240 | a double-quoted stretch is one token, spaces kept and quotes dropped; what follows is tokenized on its own |
| Tokenizer.LeadingSpace | 4-ShellP2/starter/dshlib.c:262-277 | a space before the line adds no token and changes none |
| Tokenizer.SpacesThenRest | 4-ShellP2/starter/dshlib.c:214-219 | a run of spaces of any length before the line is skipped: the tokens are those of the rest |
| Tokenizer.WordSpacesRest | 4-ShellP2/starter/dshlib.c:231-246 | a word followed by a run of one or more spaces is one token, and the rest is tokenized as if alone |
| Tokenizer.OneWord | 4-ShellP2/starter/dshlib.c:231-246 | a plain word that ends the line is one token |
| Tokenizer.SpreadRoundTrip | 4-ShellP2/starter/dshlib.c:262-277 | plain words separated by runs of one or more spaces, with any run of spaces before and after, tokenize back to the words |
| Tokenizer.RunsOfSpaces | 4-ShellP2/starter/dshlib.c:262-277 | "  a   b  " tokenizes to "a" and "b" |
| Tokenizer.TokenShapes | 4-ShellP2/starter/dshlib.c:221-249 | no token holds '"'; a token opened by a quote starts just after that '"'; every token not opened by one, including one that follows a word-ending or closing '"', is nonempty and holds no ' ' |
| Tokenizer.WordAfterQuote | 4-ShellP2/starter/dshlib.c:223-240 | in ab"cd the '"' ends the word "ab" without opening a quote, so "cd" is a second, plain token |
| Tokenizer.ArgReadBack | 4-ShellP2/starter/dshlib.c:271 | each argv entry reads back, as a C string in the written buffer, exactly its token |
| Tokenizer.Copied | 4-ShellP2/starter/dshlib.c:258-259 | the buffer keeps a prefix of the line shorter than SH_CMD_MAX, the whole line when it fits |
| Tokenizer.CopyLine | 5-ShellP3/starter/dshlib.c:263-264 | strncpy of at most SH_CMD_MAX - 1 characters, NUL padding, and a NUL in the last cell |
| Tokenizer.ScanNext | 4-ShellP2/starter/dshlib.c:265-277 | one loop round: at the terminator every token is recorded; otherwise the next token's end becomes NUL, its start is returned, and the step after it stays inside the buffer |
| Tokenizer.CmdBuff.ParseTokens | 5-ShellP3/starter/dshlib.c:267-278 | the loop stores every token start in order, argc is the token count, and the buffer holds NUL at exactly the token ends |
| Tokenizer.CmdBuff.BuildCmdBuff | 5-ShellP3/starter/dshlib.c:256-288 | NULL line or buffer is ERR_MEMORY before any write; otherwise the buffer is the copied line with the token ends made NUL, argv holds the token starts then NULL, the strings read through argv are the tokens, and the result is OK iff argc > 0, else WARN_NO_CMDS |
| Tokenizer.CmdBuff.ArgsAreTokens | 4-ShellP2/starter/dshlib.c:271-279 | once buffer and argv are written, the strings argv points to are the line's tokens |
| Tokenizer.CmdBuff.Alloc | 5-ShellP3/starter/dshlib.c:182-196 | a fresh buffer of SH_CMD_MAX cells, argc 0 and argv all NULL; on malloc failure ERR_MEMORY with a NULL buffer |
| Tokenizer.CmdBuff.Free | 5-ShellP3/starter/dshlib.c:198-209 | the buffer pointer becomes NULL, argc 0, argv all NULL; with no buffer it is ERR_MEMORY and nothing changes |
| Tokenizer.CmdBuff.Clear | 5-ShellP3/starter/dshlib.c:211-221 | every buffer cell becomes NUL, argc 0, argv all NULL; with no buffer it is ERR_MEMORY and nothing changes |
| Tokenizer.CmdBuff.Zero | 5-ShellP3/starter/dshlib.c:295 | memset of a slot: no buffer, argc 0, argv all NULL |
| TokenizerDrafts.ShellP3ScanRunsOff | 5-ShellP3/starter/dshlib.c:238 | outside quotes the 5-ShellP3 scan passes NUL and runs off the buffer |
| TokenizerDrafts.ShellP3WordOverruns | 5-ShellP3/starter/dshlib.c:230-277 | every one-word line, such as "ls", makes the 5-ShellP3 build_cmd_buff read the cell past the buffer |
| TokenizerDrafts.ShellP3QuoteClosedParses | 5-ShellP3/starter/dshlib.c:238-252 | "ab\"": the closing '"' ends the last token before the terminator, so the 5-ShellP3 draft stays inside the buffer and stores the token "ab" |
| TokenizerDrafts.ShellP3OpenQuoteOverruns | 5-ShellP3/starter/dshlib.c:238-252 | "\"hi": a quote left open is scanned through the terminator, and the 5-ShellP3 draft runs off the buffer |
| TokenizerDrafts.ShellP2ScanStops | 4-ShellP2/starter/dshlib.c:231 | the 4-ShellP2 scan outside quotes stops at the first ' ', '"' or NUL |
| TokenizerDrafts.ShellP2FullWordOverruns | 4-ShellP2/starter/dshlib.c:273-276 | a word of SH_CMD_MAX - 1 characters makes 4-ShellP2 step past the final NUL and read the cell past the buffer |
| TokenizerDrafts.ShellP2ShortWordParses | 4-ShellP2/starter/dshlib.c:262-281 | one character shorter, 4-ShellP2 stays inside the buffer and stores the single token |
| PipelineP3.LeadEnd | 5-ShellP3/starter/dshlib.c:312-315 | the trimmed start lies in the segment, at a character that is not isspace or at the end |
| PipelineP3.TrailStart | 5-ShellP3/starter/dshlib.c:317-320 | the trimmed end never goes below the start and follows a character that is not isspace |
| PipelineP3.LeadAreSpaces | 5-ShellP3/starter/dshlib.c:312-315 | only isspace characters are dropped at the front |
| PipelineP3.TrailAreSpaces | 5-ShellP3/starter/dshlib.c:317-320 | only isspace characters are dropped at the back |
| PipelineP3.TrimSpec | 5-ShellP3/starter/dshlib.c:310-321 | the segment is spaces, the trimmed text, spaces; the trimmed text neither starts nor ends with isspace, and is empty only for an all-space segment |
| PipelineP3.TrimmedLineSpec | 5-ShellP3/starter/dshlib.c:310-321 | after trimming, the C string at the new start is the trimmed segment, and nothing before the segment or from its terminator on changes |
| PipelineP3.SkipLeadingSpace | 5-ShellP3/starter/dshlib.c:312-315 | the forward loop stops where LeadEnd says |
| PipelineP3.SkipTrailingSpace | 5-ShellP3/starter/dshlib.c:317-320 | the backward loop stops just before where TrailStart says the trailing spaces begin |
| PipelineP3.TrimSegment | 5-ShellP3/starter/dshlib.c:310-321 | the trimming code writes one NUL after the last non-space character and returns the trimmed start |
| PipelineP3.TrimKeepsRest | 5-ShellP3/starter/dshlib.c:310-321 | trimming the current segment does not change the segments strtok still returns |
| PipelineP3.TrimPunches | 5-ShellP3/starter/dshlib.c:310-321 | trimming changes a cell only by writing NUL over a '\|' or isspace character |
| PipelineP3.TrimCurrent | 5-ShellP3/starter/dshlib.c:310-321 | on the segment strtok just returned: the trimmed segment is the C string at the new start, and the calls to come are unchanged |
| PipelineP3.IsBlankLine | 5-ShellP3/starter/dshlib.c:300 | the test strlen == 0 or strspn(line, " ") == strlen is true exactly for a line of only spaces |
| PipelineP3.CommandList.BuildCmdList | 5-ShellP3/starter/dshlib.c:290-347 | a NULL or all-space line is WARN_NO_CMDS with num 0 and every slot zeroed; otherwise the status is the one Outcome gives, num is the segment count on OK and 0 on error, the filled slots hold the arguments of their segments in order, and the rest stay zeroed; the line changes only by NULs written over '\|' and isspace characters |
| PipelineP3.CommandList.BuildSegments | 5-ShellP3/starter/dshlib.c:306-343 | the strtok loop ends with Outcome's status and count, the slots before the count filled and the rest zeroed; it writes into the line only NULs over '\|' and isspace characters |
| PipelineP3.CommandList.Round | 5-ShellP3/starter/dshlib.c:308-343 | one round trims the current segment and places it; it stops with Outcome's verdict or goes on to the next segment |
| PipelineP3.CommandList.Place | 5-ShellP3/starter/dshlib.c:323-342 | past CMD_MAX it stops with ERR_TOO_MANY_COMMANDS; otherwise the slot is filled and strtok moves to the next segment |
| PipelineP3.CommandList.Fill | 5-ShellP3/starter/dshlib.c:328-339 | alloc_cmd_buff then build_cmd_buff on the trimmed segment; a failure stops with Outcome's status |
| PipelineP3.CommandList.FillSlot | 5-ShellP3/starter/dshlib.c:328-339 | a failed allocation is ERR_MEMORY; otherwise a segment without arguments is ERR_CMD_OR_ARGS_TOO_BIG; either way after allocation the slot holds the segment's arguments |
| PipelineP3.CommandList.AllocSlot | 5-ShellP3/starter/dshlib.c:328-331 | the slot gets a fresh buffer no other slot has, or ERR_MEMORY |
| PipelineP3.CommandList.BuildSlot | 5-ShellP3/starter/dshlib.c:336-339 | build_cmd_buff in the slot: the slot holds the trimmed segment's tokens; no tokens is ERR_CMD_OR_ARGS_TOO_BIG |
| PipelineP3.CommandList.ZeroAll | 5-ShellP3/starter/dshlib.c:295 | every slot is zeroed |
| PipelineP3.CommandList.SetNum | 5-ShellP3/starter/dshlib.c:345 | num is set and the slots are left as they are |
| PipelineP3.OutcomeSkips | 5-ShellP3/starter/dshlib.c:308-343 | segments that get their slot are passed over; the result is decided at the first that does not |
| PipelineP3.OutcomeBounds | 5-ShellP3/starter/dshlib.c:323-346 | the count never exceeds the segments or CMD_MAX; OK means every segment got a slot; ERR_TOO_MANY_COMMANDS means CMD_MAX slots filled and a segment left over; ERR_MEMORY names the failed allocation; ERR_CMD_OR_ARGS_TOO_BIG names a segment without arguments; the loop never returns WARN_NO_CMDS |
| PipelineP3.OutcomeOkIff | 5-ShellP3/starter/dshlib.c:308-346 | OK exactly when there are at most CMD_MAX segments and every one gets its slot |
| PipelineP3.TooManyCommands | 5-ShellP3/starter/dshlib.c:323-326 | more than CMD_MAX segments whose first CMD_MAX succeed is ERR_TOO_MANY_COMMANDS with CMD_MAX slots filled |
| PipelineP3.FirstStop | 5-ShellP3/starter/dshlib.c:308-343 | the first segment that does not get its slot: all before it do |
| PipelineP3.OnlyPipes | 5-ShellP3/starter/dshlib.c:300-308 | "\|\|" is not blank, yet strtok finds no segment: OK with no command |
| PipelineP3.LsWcArgs | 5-ShellP3/starter/dshlib.c:310-321 | the segments "ls " and " wc" trim to the one-word commands "ls" and "wc" |
| PipelineP3.TwoCommands | 5-ShellP3/starter/dshlib.c:306-346 | "ls \| wc" gives the commands "ls" and "wc", OK with two commands |
| PipelineP3.BlankFirstStops | 5-ShellP3/starter/dshlib.c:306-346 | a first segment of only a tab needs no argv room for what follows; once its slot is allocated, the build stops there with ERR_CMD_OR_ARGS_TOO_BIG and count 1, whatever follows |
| PipelineP3.LsWcOutcome | 5-ShellP3/starter/dshlib.c:323-346 | both segments of "ls \| wc" get their slot, so the loop ends OK with two commands |
| PipelineP3.TabOnly | 5-ShellP3/starter/dshlib.c:300-339 | a line of one tab passes the blank test but trims to nothing: ERR_CMD_OR_ARGS_TOO_BIG |
| PipelinePart1.Zeroed | 3-Drexel_Shell_Part_1/starter/dshlib.c:39 | memset leaves CMD_MAX empty slots |
| PipelinePart1.SpaceEnd | 3-Drexel_Shell_Part_1/starter/dshlib.c:60 | the executable name runs to the next ' ' or the segment's end, with no ' ' inside |
| PipelinePart1.ParseSegmentSpec | 3-Drexel_Shell_Part_1/starter/dshlib.c:53-80 | a stored segment is leading spaces, a word shorter than EXE_MAX and optional args shorter than ARG_MAX; the slot holds that word and those args |
| PipelinePart1.ParseLayout | 3-Drexel_Shell_Part_1/starter/dshlib.c:53-80 | the converse: laying out a valid command and parsing it gives the command back |
| PipelinePart1.BuildSpec | 3-Drexel_Shell_Part_1/starter/dshlib.c:45-90 | the count stays within the segments and CMD_MAX; OK means every segment was stored in its own slot in order; ERR_TOO_MANY_COMMANDS means CMD_MAX stored and one left over; ERR_CMD_OR_ARGS_TOO_BIG names the segment not stored; no other slot is written |
| PipelinePart1.FirstOnly | 3-Drexel_Shell_Part_1/starter/dshlib.c:84 | the segments the code as written reaches: a prefix of at most one |
| PipelinePart1.AsWrittenStoresAtMostOne | 3-Drexel_Shell_Part_1/starter/dshlib.c:60-84 | as written, at most one command is ever stored |
| PipelinePart1.LsWcAsWrittenVsCorrected | 3-Drexel_Shell_Part_1/starter/dshlib.c:42-90 | "ls \| wc": as written, OK with one command "ls"; with a separate cursor, OK with "ls" and "wc" |
| PipelinePart1.ExeCutShape | 3-Drexel_Shell_Part_1/starter/dshlib.c:60 | strtok(command, " ") in the buffer's terms: NULL on a terminator when there is no word, otherwise the word from the first non-space to the next ' ' or NUL |
| PipelinePart1.ExeCutIsStrtok | 3-Drexel_Shell_Part_1/starter/dshlib.c:60 | ExeCut is exactly one strtok(command, " ") call from the segment's first non-space |
| PipelinePart1.ExeToken | 3-Drexel_Shell_Part_1/starter/dshlib.c:60 | the buffer, token and cursor the call leaves are those of ExeCut; it changes a cell only by writing NUL over a ' ' |
| PipelinePart1.ExeCutResult | 3-Drexel_Shell_Part_1/starter/dshlib.c:60-64 | NULL exactly when there is no word; otherwise the token is the word, and the cursor is either on the rest after its closing ' ' or on a terminator; nothing past the segment is written |
| PipelinePart1.ArgsStep | 3-Drexel_Shell_Part_1/starter/dshlib.c:70 | strtok(NULL, "") is NULL at a terminator, otherwise everything to the terminator; the cursor ends on the terminator and nothing is written |
| PipelinePart1.ArgsToken | 3-Drexel_Shell_Part_1/starter/dshlib.c:70 | the method gives the token and cursor of ArgsStep |
| PipelinePart1.SkipLeading | 3-Drexel_Shell_Part_1/starter/dshlib.c:54-57 | the loop stops at the first non-space of the segment |
| PipelinePart1.CommandList.StoreSegment | 3-Drexel_Shell_Part_1/starter/dshlib.c:61-80 | a name of EXE_MAX characters or more stores nothing; otherwise the exe is stored, and args of ARG_MAX or more fail after it; absent args are never measured |
| PipelinePart1.CommandList.ParseCommand | 3-Drexel_Shell_Part_1/starter/dshlib.c:53-80 | the loop body leaves the slot as ParseSegment says, writes nothing past the segment, changes a cell only by writing NUL over a ' ', and on success leaves the shared cursor on a terminator |
| PipelinePart1.CommandList.FirstCommand | 3-Drexel_Shell_Part_1/starter/dshlib.c:53-84 | as written, once the first segment is stored the outer strtok(NULL, "\|") returns NULL |
| PipelinePart1.CommandList.NextCommand | 3-Drexel_Shell_Part_1/starter/dshlib.c:53-84 | with a cursor of its own, the outer strtok returns the next segment, or NULL after the last |
| PipelinePart1.CommandList.BuildCmdListAsWritten | 3-Drexel_Shell_Part_1/starter/dshlib.c:37-91 | status, slots and num are those of Build on the first segment alone; num is 0 unless OK; the line changes only by NULs written over '\|' and ' ' |
| PipelinePart1.CommandList.BuildCmdList | 3-Drexel_Shell_Part_1/starter/dshlib.c:37-91 | corrected: status, slots and num are those of Build on every segment; num is 0 unless OK; the line changes only by NULs written over '\|' and ' ' |
| StringFun.CollapseNoAdjacentBlanks | 1-C-Refresher/stringfun.c:36-58 | no two neighbouring characters of the copied text are both spaces or tabs |
| StringFun.CollapseKeepsNonBlanks | 1-C-Refresher/stringfun.c:32-61 | only blanks are dropped; every other character survives, in order |
| StringFun.CollapseFixesNoAdjacent | 1-C-Refresher/stringfun.c:36-58 | a string with no adjacent blanks is copied unchanged |
| StringFun.CollapseIdempotent | 1-C-Refresher/stringfun.c:32-61 | collapsing twice is collapsing once |
| StringFun.LayoutShape | 1-C-Refresher/stringfun.c:32-74 | the filled buffer has BUFFER_SZ cells: the collapsed input cut to BUFFER_SZ - 1, then '.' up to index BUFFER_SZ - 2, then NUL; no adjacent blanks before it |
| StringFun.CopyCollapsed | 1-C-Refresher/stringfun.c:32-61 | the copy loop writes the collapsed input cut to BUFFER_SZ - 1 characters and nothing from BUFFER_SZ on |
| StringFun.PadDots | 1-C-Refresher/stringfun.c:64-69 | the pad loop writes '.' up to index BUFFER_SZ - 2 and leaves the copied prefix |
| StringFun.SetupBuff | 1-C-Refresher/stringfun.c:16-75 | len > BUFFER_SZ is -1 with the buffer untouched; otherwise the result is BUFFER_SZ - 1 and the first BUFFER_SZ cells are Layout of the input; no cell from BUFFER_SZ on is written |
| StringFun.CountWords | 1-C-Refresher/stringfun.c:92-103 | the stub reports 0 whatever it is given |

## Left out

- The read-eval loops (`exec_local_cmd_loop`, `main` of `dsh_cli.c`), `exec_cmd`, `execute_pipeline`, `fork`, `execvp`, `pipe`, `dup2` and `waitpid`: these are process orchestration and I/O, with no checkable text behaviour.
- The bodies of `chdir` and `print_dragon`: foreign calls and console output. The dispatch reports only the `Effect` it would cause.
- The debug `printf` lines of 5-ShellP3 `dshlib.c`, and `main`, `usage` and `print_buff` of `stringfun.c` (argument handling and printing). `main`'s `malloc(sizeof(BUFFER_SZ))` is not modelled; `setup_buff` is given a buffer of at least BUFFER_SZ cells.
- `malloc` failure is a parameter (`mallocOk`), and the allocation itself is a fresh Dafny array.
- A NULL `cmd_buff_t *` or `command_list_t *` receiver: Dafny receivers are never null. A NULL `cmd_line` is an `Option` (or a nullable array in `PipelineP3.CommandList.BuildCmdList`), and a NULL `_cmd_buffer` is `buffer == null`.
- `strtok`, `strspn`, `strcspn`, `strlen` and `strncpy` are library routines. They are modelled from their C-library definitions (`CStrtok`, `CStrings`), not from source in this repository.
- Tokenizer.CmdBuff.BuildCmdBuff: requires the argv slots to have room for every token and the closing NULL. The source never checks argc against CMD_ARGV_MAX, so a line with too many tokens writes past argv.
- PipelineP3.CommandList.BuildCmdList: inherits that requirement only for the segments that reach build_cmd_buff (`AllFit`). These run up to the first segment past CMD_MAX, the first failed allocation, or the first segment without arguments. Nothing is required of the segments after that.
- Tokenizer.CmdBuff.BuildCmdBuff: is the corrected parser: 4-ShellP2's scan guard, and a step past a token that never leaves the buffer. The drafts as written are `TokenizerDrafts.BuildAsWritten`, a function on the buffer contents; they are shown to overrun in the Findings, not modelled as methods.
- Tokenizer.ScanNext: one round of the corrected loop, not of either draft as written (Findings rows 1 and 2).
- Tokenizer.CmdBuff.ParseTokens: the corrected loop. 5-ShellP3's own loop runs off the buffer whenever the scan of the last token reaches the terminator: an unquoted last token not closed by '"', or an unclosed quote (Findings row 1).
- PipelineP3.CommandList.BuildCmdList: each segment is tokenized by the corrected parser (`Tokenizer.CmdBuff.BuildCmdBuff`). 5-ShellP3's own build_cmd_buff reads past the buffer whenever the scan of a segment's last token reaches the terminator (an unquoted last token not closed by '"', or an unclosed quote; Findings row 1), where the model returns the segment's arguments.
- PipelineP3.CommandList.FillSlot: tokenizes its segment with the corrected parser, so it succeeds where 5-ShellP3's own build_cmd_buff reads past the buffer (the condition on the BuildCmdList line above).
- PipelineP3.CommandList.BuildSlot: tokenizes its segment with the corrected parser, so it succeeds where 5-ShellP3's own build_cmd_buff reads past the buffer (the condition on the BuildCmdList line above).
- PipelineP3.CommandList.BuildSegments: fills every slot through `FillSlot`, so it inherits the corrected parser; where 5-ShellP3's own build_cmd_buff reads past the buffer (the condition on the BuildCmdList line above), the model reports the segment's arguments and Outcome's status.
- PipelineP3.CommandList.Round: places its segment through `FillSlot`, so it inherits the corrected parser; where 5-ShellP3's own build_cmd_buff reads past the buffer (the condition on the BuildCmdList line above), the model reports the segment's arguments and Outcome's status.
- PipelineP3.CommandList.Place: fills its slot through `FillSlot`, so it inherits the corrected parser; where 5-ShellP3's own build_cmd_buff reads past the buffer (the condition on the BuildCmdList line above), the model reports the segment's arguments and Outcome's status.
- PipelineP3.CommandList.Fill: runs build_cmd_buff through `FillSlot`, so it inherits the corrected parser; where 5-ShellP3's own build_cmd_buff reads past the buffer (the condition on the BuildCmdList line above), the model reports the segment's arguments and Outcome's status.
- PipelineP3.LsWcArgs: the arguments "ls" and "wc" are those of the corrected parser; 5-ShellP3's own build_cmd_buff overruns on both, since the scan of each one's unquoted last token reaches the terminator (Findings row 1).
- PipelineP3.TwoCommands: OK with two commands is the result under the corrected parser; with 5-ShellP3's own build_cmd_buff the first segment already overruns (Findings row 1).
- 4-ShellP2's `build_cmd_buff` copies with `strncpy` from the line into the buffer. When the caller passes the buffer itself as the line, the overlapping copy is undefined in C; the model copies from a separate string.
- The `exe` and `args` fields of the first draft's `command_t` are the strings they hold. The copy of at most EXE_MAX or ARG_MAX characters always fits, because the lengths are checked first.
- PipelinePart1.CommandList.BuildCmdList: CMD_MAX may be 0 in the model; the source's constant is positive.
- TokenizerDrafts.BuildAsWritten: ends a run at the first read past the buffer (Overrun); what C would do after that read is not modelled.

## Findings

| source | as written | input that shows it | evidently intended | confidence | as-written member | corrected member |
|---|---|---|---|---|---|---|
| 5-ShellP3/starter/dshlib.c:238 | the scan guard `(*p && in) \|\| (*p != ' ')` is true at NUL outside quotes, and an open quote is not seen there either, so whenever the scan of the last token reaches the terminator (an unquoted last token not closed by '"', or an unclosed quote) it runs past it and off the buffer | the line "ls" (any one plain word shorter than SH_CMD_MAX), or "\"hi"; "ab\"" stays inside | stop at NUL, as the 4-ShellP2 guard `*p && (in \|\| *p != ' ')` does | high, not executed | TokenizerDrafts.ShellP3WordOverruns | Tokenizer.CmdBuff.BuildCmdBuff |
| 4-ShellP2/starter/dshlib.c:273-276 | after a token, `while (*ptr) ptr++; ptr++;` steps past the NUL it reaches even when that NUL is the buffer's last cell, and the loop test then reads past the buffer | a word of SH_CMD_MAX - 1 characters, which fills the buffer | stop at the buffer's final NUL | high, not executed | TokenizerDrafts.ShellP2FullWordOverruns | Tokenizer.ScanNext |
| 3-Drexel_Shell_Part_1/starter/dshlib.c:60-84 | the inner `strtok(command, " ")` and `strtok(NULL, "")` reset strtok's one saved position into the first segment, so the outer `strtok(NULL, PIPE_STRING)` resumes on that segment's terminator and returns NULL; at most one command is stored | "ls \| wc" returns OK with num 1 | every segment stored: OK with num 2 | high, not executed | PipelinePart1.LsWcAsWrittenVsCorrected | PipelinePart1.CommandList.BuildCmdList |
