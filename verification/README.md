# Eerie Leap: a verified model of its calculating, coding and layout core

This project models the parts of the Eerie Leap firmware and its vendored libraries whose results are
hard to check by reading, and proves what they promise. Everything is stated over all inputs or all
runs; nothing here executes the original.

- **muParser** (`mu_*.dfy`). Formulas as token streams, the reader's syntax flags, the two-stack parser,
  the byte code builder with its peephole optimiser, the linking of `?:` jumps, and the stack machine.
  Values are real numbers; division by zero and powers outside 0 to 4 are parameters, as are callbacks.
  The results: the parser accepts exactly the spellings of the trees its tables allow and compiles
  each to that tree's code; the finished program computes the tree from left to right within the
  recorded stack; the optimiser changes nothing, with one exact exception. Folding `&&` and `||`
  truncates its operands to integers while the machine does not, so `0.5 && 1` is 0 when folded and 1
  when run; `FoldExact` says exactly which folds agree, and `FoldSafe`, which asks it of a whole tree,
  holds exactly for the trees that are compiled correctly together with all their parts. The trees
  are those of a grammar written down layer by layer, formulas are unambiguous, and what an operator
  gives is said by laws (`mu_laws`) that do not name the functions that compute it.
- **DBC signals and messages** (`dbc_words`, `dbc_layout`, `dbc_signal`, `dbc_message`). The constructor's
  choice among four alignments with its masks and shifts, the decoder as a fast form of the encoder's
  bit walk, round trips, and the encoding of whole messages from an unordered map. Words are numbers
  below 2^64 with C's operators defined on their digits.
- **MDF files** (`mdf_layout`, `mdf_file`). Blocks that share children and may link in cycles, laid out by
  one traversal and written by another that uses a different mark, over any history of adding blocks,
  adding and replacing links, and writing the file again.
- **The cubic spline** (`spline`) over real numbers, the **moving average** (`ema`) in exact integer
  arithmetic, and the **runner tasks** of a work queue (`queue`) as a state machine over the steps of
  all threads.
- **CBOR configurations** (`cbor_*`). Encoders, decoders and size calculators for the CAN and sensors
  configurations, on primitives as sections 3.1, 3.2.2 and 3.3 of RFC 8949 define them;
  `cbor_wire` writes the bytes of data items down apart from the encoders.
- **The DBC index** (`dbc_index`). The nested maps built from the syntax tree against linear scans.

Code that changes state is modelled by classes and methods with loops, each tied to a function whose
properties are then proved as lemmas; code made of expressions is modelled by functions. Where a
promise turned out to hold only under a condition, a lemma states the condition as an equivalence, and
another gives an input on which the promise fails:

| promise | holds exactly | fails on |
|---|---|---|
| compiled code computes the tree | `MuExact.CompilerCorrectIff`, `MuCode.FuseIsSoundIff` | `MuExact.FoldingDisagrees` |
| loads stay in the frame | `DbcSignal.LoadsStayInside` | `DbcSignal.LoadsLeaveTheFrame` |
| signals beyond the message are noticed | `DbcSignal.ExceedsIff` | `DbcSignal.ShortMessagePasses`, `DbcSignal.FarSignalPasses` |
| decoding is right on every frame | `DbcMessages.DecodesRightIff` | `DbcMessages.UnswappedMisreads`, `DbcMessages.WordMisreads` |
| the encoder stays inside the frame | `DbcMessages.DbcMessage.EncodeMessage` | `DbcMessages.DbcMessage.ShortMessageOverruns` |
| the encoded frame holds all values | `DbcMessages.DbcMessage.EncodeMessage` | `DbcMessages.OverlapCannotBeHeld` |
| adding a signal keeps references current | `DbcMessages.DbcMessage.AddSignal` | `DbcMessages.DbcMessage.LeftBehind` |
| a file written again is sound | `MdfFile.Mdf4File.WriteFileToStream`, `MdfLayout.ClearedIff` | `MdfFile.Mdf4File.StaleFile` |

Where the code and its documentation differ, the model follows the code:

- The decoder of a signal may load bytes beyond the frame length that `Signal.h` asks of callers
  (`libs/dbcppp/include/dbcppp/Signal.h:169-171`); `LoadsStayInside` says exactly when it does not.
- The size of a calibration map is bounded by 2 and 50 in the schema, but the encoder checks only the
  lower bound.
- When `AddSignal` is refused for a name that exists, the signal has already been appended, and if
  the vector moved the map's references are left behind.

## Model

| member | source | states |
|---|---|---|
| MuExact.CompilerCorrectIff | libs/muparser/src/muParserBytecode.cpp:110-524 | the compiler is right about a tree and all its parts, from every store, if and only if no logical operator in it is folded inexactly |
| MuExact.OptimiserPreservesMeaningIff | libs/muparser/src/muParserBytecode.cpp:196-447 | the optimiser changes no run of a tree or of its parts if and only if no logical operator in it is folded inexactly |
| MuCorrect.CompilerCorrect | libs/muparser/src/muParserBytecode.cpp:110-524 | compiler correctness: the finished program computes the left-to-right value and final store of every tree none of whose logical operators is folded inexactly |
| MuCorrect.ProgramComputes | libs/muparser/src/muParserBase.cpp:1061-1233 | for every well-formed tree and store, with the optimiser on or off, the finished program halts with one value: the tree's, with folded subtrees at their folded value |
| MuCorrect.BuilderReserves | libs/muparser/src/muParserBytecode.cpp:110-149 | the recorded maximum covers the deepest stack the tree needs and the unsigned position never wraps, although folds and IF/ELSE leave the position too high |
| MuCorrect.PeepholeRefines | libs/muparser/src/muParserBytecode.cpp:196-339 | a fused token runs as the two operands and the operator do, from any stack and store, if and only if it is not an inexact logical fold |
| MuEval.AcceptedIffFormula | libs/muparser/src/muParserBase.cpp:1236-1492 | a formula is accepted if and only if it spells a tree of the layered grammar, and it spells only one |
| MuGrammar.GrammaticalIff | libs/muparser/src/muParserBase.cpp:607-664 | the trees that the precedence and associativity tables allow are exactly those of a layered grammar: assignment, conditional, disjunction, conjunction, comparison, sum, product, sign, right-associative power, primary |
| MuEval.AcceptedIffGrammatical | libs/muparser/src/muParserBase.cpp:607-664 | a formula is accepted if and only if some tree allowed by the tables is spelled by it |
| MuUnique.SpelledOneWay | libs/muparser/src/muParserBase.cpp:607-664 | formulas are unambiguous: no two grammatical trees have the same spelling |
| MuSound.ParserSound | libs/muparser/src/muParserBase.cpp:1236-1492 | whatever is accepted is the spelling of a grammatical tree, and the emitted code is that tree's |
| MuComplete.ParserComplete | libs/muparser/src/muParserBase.cpp:1236-1492 | every tree that the precedence and associativity tables allow is accepted in its spelling and compiled to exactly its own code |
| MuEval.ParseString | libs/muparser/src/muParserBase.cpp:1503-1538 | the whole evaluator: succeeds exactly on formulas that spell a tree of the grammar, leaves the variables alone otherwise, and gives the result of the finished program, which is what that one tree computes and its left-to-right value unless a fold is inexact |
| MuLaws.Comparisons | libs/muparser/src/muParserBase.cpp:1075-1080 | less-than is the sign of the difference, the others its converse and complements, and exactly one of less, equal and greater holds |
| MuLaws.Arithmetic | libs/muparser/src/muParserBase.cpp:1081-1086 | + and * add and multiply, - undoes + and / undoes *, except by zero |
| MuLaws.TwoOperatorsGive | libs/muparser/src/muParserBase.cpp:1384-1415 | the value of x op y op z for every pair of operators: products come before sums, sums before comparisons, these before && and that before ||, powers first and from the right |
| DbcSignal.Signal.Decode | libs/dbcppp/src/SignalImpl.cpp:18-100 | decoding under whichever alignment equals the bit-at-a-time value, sign-extended for signed integers, of the frame the loads see: the frame itself, or its mirrored word if the byte swap has no effect; a Double of another size returns the loaded word |
| DbcMessages.DecodesRightIff | libs/dbcppp/src/SignalImpl.cpp:18-100 | decoding is right on every frame if and only if the signal is little-endian or the byte swap takes effect, and it is no Double of another size than 64 |
| DbcMessages.RoundTrip | libs/dbcppp/src/SignalImpl.cpp:18-261 | decoding after encoding, with words swapped as they are to be, gives the raw value modulo 2^size, sign-extended if signed |
| DbcMessages.NumberRoundTrip | libs/dbcppp/src/SignalImpl.cpp:18-261 | every number of an integer signal range is read back, as a signed number of 64 bits if the signal is signed and as an unsigned one otherwise |
| DbcMessages.RewriteKeepsFrame | libs/dbcppp/src/SignalImpl.cpp:18-261 | encoding again a value decoded with words swapped as they are to be leaves the frame unchanged |
| DbcMessages.DisjointMessage | src/subsys/dbc/dbc_message.cpp:119-129 | for signals that share no bits the encoder gives the same bytes in any order, and every signal decodes from them, with words swapped as they are to be, to the value encoded for it |
| DbcMessages.DbcMessage.EncodeMessage | src/subsys/dbc/dbc_message.cpp:119-129 | in any iteration order: stays inside the frame if and only if every signal fits, which for signals that passed their checks means that none went unnoticed; the frame is then clear outside the signals and holds every raw value if and only if signals that share bits agree |
| MdfFile.Mdf4File.WriteFileToStream | src/subsys/mdf/mdf4_file.cpp:241-254 | after any history, replaced links included: writing never fails and every record starts at its block's address; each reached block is written once, contiguously, with every link the offset of its child's record, if and only if the reset met every marked block the header reaches |
| MdfFile.PassIsSoundIff | src/subsys/mdf/serializable_block_base.cpp:8-58 | a pass from any marks, the same of both kinds, never fails and writes each block at its address; the file is sound if and only if no block that the header reaches was marked |
| MdfFile.LayoutMeetsFile | src/subsys/mdf/serializable_block_base.cpp:8-58 | the two traversals, with different marks, agree: laid out in one order and written in the other, the file is sound |
| CubicSpline.Interpolator.Create | src/utilities/voltage_interpolator/cubic_spline_voltage_interpolator.hpp:21-68 | fails exactly for fewer than two points; otherwise the coefficients are those of the natural cubic spline |
| CubicSpline.SolutionIsSpline | src/utilities/voltage_interpolator/cubic_spline_voltage_interpolator.hpp:63-67 | the cubics fitted to a solution interpolate every point and meet in value, first and second derivative, with no second derivative at the ends |
| CubicSpline.SplineIsUnique | src/utilities/voltage_interpolator/cubic_spline_voltage_interpolator.hpp:21-68 | there is only one natural cubic spline through a table |
| CborSensors.ConfigCodes | src/configuration/cbor/cbor_sensors_config/cbor_sensors_config_cbor_decode.cpp:109-150 | any sensors configuration written before any tail is read back equal, leaves the tail, and takes exactly the computed size |
| CborSensors.ConfigIsWire | src/configuration/cbor/cbor_sensors_config/cbor_sensors_config_cbor_encode.cpp:95-107 | the encoding of a sensors configuration is, byte for byte, the data item of its fields in the encoder order, without the absent ones |
| CborCanbus.ConfigCodes | src/configuration/cbor/cbor_canbus_config/cbor_canbus_config_cbor_decode.cpp:171-214 | any CAN configuration written before any tail is read back equal, leaves the tail, and takes exactly the computed size |
| CborCanbus.ConfigIsWire | src/configuration/cbor/cbor_canbus_config/cbor_canbus_config_cbor_encode.cpp:77-90 | the encoding of a CAN configuration is, byte for byte, the data item of its fields in the encoder order |
| RunnerTasks.Reclamation | src/subsys/threading/work_queue_thread.cpp:48-86 | under every interleaving each task runs at most once, has exactly one owner, is freed only after its handler returned, and at most one completed task waits |
| RunnerTasks.RestMeansDone | src/subsys/threading/work_queue_thread.cpp:48-86 | at rest every task has run exactly once and all but perhaps the last are freed |
| RunnerTasks.ServesAll | src/subsys/threading/work_queue_thread.cpp:48-86 | for every number of calls of Run there is a run to rest in which each task has run once |
| RunnerTasks.RunsInOrder | src/subsys/threading/work_queue_thread.cpp:82-83 | tasks run in the order in which they were made |
| Ema.Converges | src/utilities/math/ema_filter.hpp:18-23 | a constant input is reached exactly within a bounded number of steps, after which nothing changes |
| Ema.RunStaysInRange | src/utilities/math/ema_filter.hpp:18-23 | the output never leaves the range of the initial value and the inputs |
| Ema.RunConserves | src/utilities/math/ema_filter.hpp:18-23 | over any run the scaled sum changes by what came in less what was put out |
| DbcIndex.BuildNetwork | libs/dbcppp/src/DBCAST2Network.cpp:731-883 | the network built through the index is the one that linear scans would build, and gives each object of the tree, in order, all its attributes and its last comment and descriptions |
| DbcIndex.EveryAttributeOnce | libs/dbcppp/src/DBCAST2Network.cpp:731-883 | with distinct keys every attribute of an existing object occurs in the network exactly once and no other occurs |
| MuCode.FoldingIsExactIff | libs/muparser/src/muParserBytecode.cpp:152-183 | for every operator and pair of constants, folding gives the machine's value if and only if the operator is not a logical one whose operands truncation changes |
| MuCode.FuseAddPointer | libs/muparser/src/muParserBytecode.cpp:246-269 | in every additive pattern the rewrite's own assertion holds, and the joined pointer is the pointer of the one variable involved |
| MuCode.FuseAddIsSound | libs/muparser/src/muParserBytecode.cpp:244-269 | the additive rewrites keep the token invariant and give the sum or difference of the operands in every store |
| MuCode.FuseMulIsSound | libs/muparser/src/muParserBytecode.cpp:271-311 | the product rewrites keep the token invariant and give the product of the operands in every store |
| MuCode.FusePowIsSound | libs/muparser/src/muParserBytecode.cpp:217-242 | the power rewrites for exponents 0 to 4 keep the token invariant and give the power |
| MuCode.FuseDivIsSound | libs/muparser/src/muParserBytecode.cpp:313-322 | the division rewrite keeps the token invariant and gives the quotient |
| MuCode.FuseIsSoundIff | libs/muparser/src/muParserBytecode.cpp:196-339 | any rewrite of two operand tokens keeps the token invariant, and gives the operator's value exactly unless it is a logical fold that truncation changes |
| MuBuilder.ByteCode.EmitVar | libs/muparser/src/muParserBytecode.cpp:110-125 | pushes a variable token, raises the running position and the recorded maximum |
| MuBuilder.ByteCode.EmitVal | libs/muparser/src/muParserBytecode.cpp:137-149 | pushes a value token, raises the running position and the recorded maximum |
| MuBuilder.ByteCode.ConstantFolding | libs/muparser/src/muParserBytecode.cpp:152-183 | replaces two value tokens by one holding the folded value |
| MuBuilder.ByteCode.EmitOp | libs/muparser/src/muParserBytecode.cpp:196-339 | in place: the two last tokens become the fused one, or the operator is appended and the position lowered, as the specification AddOp says |
| MuBuilder.ByteCode.EmitIfElse | libs/muparser/src/muParserBytecode.cpp:342-357 | appends a jump token and leaves the counters alone |
| MuBuilder.ByteCode.EmitAssignOp | libs/muparser/src/muParserBytecode.cpp:360-370 | appends an assignment and lowers the position |
| MuBuilder.ByteCode.EmitFun | libs/muparser/src/muParserBytecode.cpp:376-447 | drops, folds or appends a call, with the position and maximum as specified, for fixed and variable argument counts |
| MuBuilder.ByteCode.LinkToken | libs/muparser/src/muParserBytecode.cpp:497-521 | one round of the linking loop patches at most one earlier jump |
| MuBuilder.ByteCode.Close | libs/muparser/src/muParserBytecode.cpp:489-524 | appends the end marker and links every jump, given balanced jumps |
| MuBuilder.LinkStepKeeps | libs/muparser/src/muParserBytecode.cpp:497-521 | on balanced code neither of the linker's two stacks is ever read while empty |
| MuExpr.CompileAppends | libs/muparser/src/muParserBytecode.cpp:110-447 | what the builder emits for a tree does not depend on what was emitted before: the rewrites never look past the tree |
| MuExpr.OperandTail | libs/muparser/src/muParserBytecode.cpp:196-339 | code that ends in an operand token is that one token, so the tail that a rewrite inspects is the whole operand |
| MuExpr.AtomMeaning | libs/muparser/src/muParserBytecode.cpp:152-331 | a tree folded to one token means what that token pushes, and assigns nothing |
| MuExpr.ComputesReference | libs/muparser/src/muParserBytecode.cpp:152-183 | where no logical operator is folded inexactly, the folded values are the values of left-to-right evaluation |
| MuExpr.UnoptimisedIsFoldSafe | libs/muparser/src/muParserBytecode.cpp:196-205 | with the optimiser off nothing is folded |
| MuLink.CodeLinks | libs/muparser/src/muParserBytecode.cpp:489-524 | linking a tree's code inside any surrounding code and with any jumps open around it patches exactly the tree's own jumps |
| MuLink.FinalizeLinksTree | libs/muparser/src/muParserBytecode.cpp:489-524 | after linking, each IF jumps just past its own ELSE and each ELSE just past its own ENDIF, at every nesting depth |
| MuVm.ParseCmdCode | libs/muparser/src/muParserBase.cpp:1061-1233 | the loop over the stack buffer never leaves the buffer and returns the abstract machine's result and variables |
| MuVm.Execute | libs/muparser/src/muParserBase.cpp:1080-1228 | one token of the loop acts on the buffer as the abstract step acts on the stack |
| MuCorrect.CodeRuns | libs/muparser/src/muParserBase.cpp:1061-1233 | wherever a tree's linked code stands, running it pushes exactly the tree's value, with the tree's effect on the variables, and never overflows the reserved stack |
| MuCorrect.OptimiserPreservesMeaning | libs/muparser/src/muParserBytecode.cpp:196-447 | the program compiled with the optimiser and the one without it run to the same result |
| MuExact.FoldingDisagrees | libs/muparser/src/muParserBytecode.cpp:160-161 | the program of 0.5 && 1 halts at 0 with the optimiser on and at 1 with it off |
| MuExact.InexactFoldCanBeMasked | libs/muparser/src/muParserBytecode.cpp:160-161 | 0 * (0.5 && 1) has an inexact fold and is compiled correctly, so the exact condition is about all parts together |
| MuReader.WantsOperandPermits | libs/muparser/src/muParserTokenReader.cpp:418-514 | what the syntax flags let through where an operand is due; after a sign they also let ?, : and the end through |
| MuReader.HasOperandPermits | libs/muparser/src/muParserTokenReader.cpp:418-514 | what the flags let through after an operand |
| MuReader.FlagsAreExclusive | libs/muparser/src/muParserTokenReader.cpp:573-595 | no flag set both asks for an operand and follows one |
| MuReader.TokenReader.IsBuiltIn | libs/muparser/src/muParserTokenReader.cpp:418-514 | recognises operators, brackets, ? and :, checks the flags and the bracket stack, and sets the next flags |
| MuReader.TokenReader.IsInfixOpTok | libs/muparser/src/muParserTokenReader.cpp:573-615 | recognises a sign where the flags allow it |
| MuReader.TokenReader.IsValTok | libs/muparser/src/muParserTokenReader.cpp:761-813 | recognises a number where the flags allow it |
| MuReader.TokenReader.IsVarTok | libs/muparser/src/muParserTokenReader.cpp:816-844 | recognises a variable where the flags allow it |
| MuReader.TokenReader.IsEOF | libs/muparser/src/muParserTokenReader.cpp:548-570 | accepts the end where the flags allow it and no bracket is open |
| MuReader.TokenReader.ReadNextToken | libs/muparser/src/muParserTokenReader.cpp:263-346 | tries the recognisers in order and fails when none takes the lexeme |
| MuParser.Parser.ApplyFunc | libs/muparser/src/muParserBase.cpp:776-850 | applies a sign on the two stacks and emits its call |
| MuParser.Parser.ApplyBinary | libs/muparser/src/muParserBase.cpp:914-951 | applies an operator or an assignment, which needs a variable on its left |
| MuParser.Parser.ApplyIfElse | libs/muparser/src/muParserBase.cpp:866-897 | applies a complete ?: by choosing one of the two operands and emitting the end of the branch |
| MuParser.Parser.ApplyRemainingOprt | libs/muparser/src/muParserBase.cpp:961-1000 | applies operators down to the next bracket or ? |
| MuParser.Parser.ApplyStronger | libs/muparser/src/muParserBase.cpp:1384-1415 | applies the operators that bind at least as tightly as the new one, by precedence and associativity |
| MuParser.Parser.ReadBracketClose | libs/muparser/src/muParserBase.cpp:1314-1357 | closes a bracket, checks its argument count, and pops it |
| MuParser.Parser.ReadColon | libs/muparser/src/muParserBase.cpp:1281-1297 | closes the condition's first branch, or fails without a ? to match |
| MuParser.Parser.ReadQuestionMark | libs/muparser/src/muParserBase.cpp:1362-1422 | opens a conditional |
| MuParser.Parser.ReadOne | libs/muparser/src/muParserBase.cpp:1253-1463 | one round of the main loop does what the specified step does and fails exactly where it fails |
| MuParser.CreateByteCode | libs/muparser/src/muParserBase.cpp:1236-1492 | the whole parse: the builder's state and the result index are the specified ones, and errors coincide |
| MuParser.StepSettled | libs/muparser/src/muParserBase.cpp:1253-1463 | every step keeps the code's jumps balanced with the ? and : on the operator stack |
| MuSyntax.RoomAfter | libs/muparser/src/muParserBase.cpp:1384-1415 | a token that closes a tree makes the loop apply exactly the operators pending from that tree |
| MuSyntax.RemainingAfter | libs/muparser/src/muParserBase.cpp:961-1000 | the same for the loop that stops at brackets and ? |
| MuComplete.ReadsTree | libs/muparser/src/muParserBase.cpp:1253-1463 | reading a grammatical tree in any context that admits it leaves its pending operators, one value, and the code of its finished part |
| MuAccount.StepKeepsAccount | libs/muparser/src/muParserBase.cpp:1253-1463 | what every step keeps between brackets, conditionals, operands and flags |
| MuAccount.DoomedIsRejected | libs/muparser/src/muParserBase.cpp:1236-1492 | the mistakes the flags let through after a sign are always reported before the end |
| MuAccount.AcceptedIsClean | libs/muparser/src/muParserBase.cpp:1465-1492 | an accepted run leaves no operator, exactly one value and the first result index |
| MuSound.GoodStep | libs/muparser/src/muParserBase.cpp:1253-1463 | after every step the two stacks spell, with a hole, exactly what has been read, and the code is that of the finished parts |
| MuUnique.ReadOneWay | libs/muparser/src/muParserBase.cpp:607-664 | two trees that stand right of the same operator, begin the same text and end where something else must follow are equal |
| MuGrammar.TwoOperators | libs/muparser/src/muParserBase.cpp:607-664 | of two operators without brackets exactly one nesting is allowed: the second first if it is of a tighter layer or both are powers |
| MuEval.AcceptedRuns | libs/muparser/src/muParserBase.cpp:1503-1538 | an accepted formula's program halts at depth one with the value of the tree it spells |
| MuEval.ShortAgrees | libs/muparser/src/muParserBase.cpp:1015-1058 | the short evaluator for one-token programs gives what the full machine gives |
| MuLaws.Variables | libs/muparser/src/muParserBase.cpp:1073-1121 | the result of an operator on variables depends only on their values, with the optimiser on or off, and leaves the variables alone |
| MuLaws.Numbers | libs/muparser/src/muParserBytecode.cpp:152-183 | on numbers an operator gives what it gives on variables of these values, unless it is a folded logical operator |
| MuLaws.Powers | libs/muparser/src/muParserBase.cpp:1088-1090 | powers to 0, 1, 2, 3, 4 are repeated products, others are those of the machine |
| MuLaws.Logic | libs/muparser/src/muParserBase.cpp:1092-1093 | the truth tables of && and ||, where all numbers but 0 are true |
| MuLaws.FoldedLogic | libs/muparser/src/muParserBytecode.cpp:160-161 | the same tables for folded && and ||, where only numbers of magnitude 1 and more are true |
| MuLaws.Signs | libs/muparser/src/muParserBase.cpp:776-850 | -x and x add up to 0, and +x is x |
| MuLaws.Conditionals | libs/muparser/src/muParserBase.cpp:1105-1118 | a conditional gives its first branch unless the condition is 0 |
| MuLaws.Assignments | libs/muparser/src/muParserBase.cpp:1095-1101 | an assignment gives its value, sets its variable, and sets no other |
| MuLaws.LeftToRight | libs/muparser/src/muParserBase.cpp:1061-1233 | operands are evaluated from left to right, so that an assignment is seen by what is to its right |
| MuLaws.CallsGetArguments | libs/muparser/src/muParserBase.cpp:1152-1185 | a callback gets the values of its arguments in their order |
| MuLaws.SignedPower | libs/muparser/src/muParserBase.cpp:776-850 | a sign takes a power with it: -x ^ y is -(x ^ y) |
| DbcLayout.PathIsPosition | libs/dbcppp/src/SignalImpl.cpp:220-258 | bit i of the encoder's walk lies at a closed-form position, for both byte orders |
| DbcLayout.WalkIsInjective | libs/dbcppp/src/SignalImpl.cpp:222-258 | the walk never returns to a bit |
| DbcLayout.GatherBits | libs/dbcppp/src/SignalImpl.cpp:222-258 | each bit of the value gathered along the walk is the frame's bit at its position |
| DbcLayout.ExtendKeepsValue | libs/dbcppp/src/SignalImpl.cpp:90-98 | sign extension to 64 bits keeps the number denoted in two's complement |
| DbcSignal.OneWordDecodes | libs/dbcppp/src/SignalImpl.cpp:59-85 | shift and mask of one loaded word, in the signal's byte order, give the gathered value |
| DbcSignal.SplitLowDecodes | libs/dbcppp/src/SignalImpl.cpp:36-44 | the nine-byte little-endian case gives the gathered value |
| DbcSignal.SplitHighDecodes | libs/dbcppp/src/SignalImpl.cpp:27-35 | the nine-byte big-endian case gives the gathered value of the frame as the swapped word shows it |
| DbcSignal.OrExtends | libs/dbcppp/src/SignalImpl.cpp:50-56 | setting the sign mask extends a value whose sign bit is set |
| DbcSignal.LowMaskIs | libs/dbcppp/src/SignalImpl.cpp:362-364 | the value mask, shifted in two steps, selects exactly the low bits for every size from 1 to 64 |
| DbcSignal.HighMaskIs | libs/dbcppp/src/SignalImpl.cpp:365 | the sign mask selects exactly the sign bit and those above |
| DbcSignal.LoadsStayInside | libs/dbcppp/include/dbcppp/Signal.h:165-178 | decoding loads all the signal's bytes, and stays within the frame length the interface asks for if and only if one of four alignment conditions holds |
| DbcSignal.ExceedsIff | libs/dbcppp/src/SignalImpl.cpp:319-337 | the check for signals that exceed the message is right about the declared length if and only if the signal fits, or reaches beyond the eighth byte and is not a big-endian one starting at bit 32768 or later |
| DbcSignal.Signal.constructor | libs/dbcppp/src/SignalImpl.cpp:319-434 | the chosen alignment, masks and shifts mean what decoding needs, and the error word is 4 for a signal that exceeds its message, 8 for a wrong size, 12 for both and 0 otherwise |
| DbcSignal.Signal.Align | libs/dbcppp/src/SignalImpl.cpp:367-434 | each of the four alignment cases places the signal where its shifts say |
| DbcSignal.Signal.Encode | libs/dbcppp/src/SignalImpl.cpp:214-261 | sets exactly the signal's bits from the raw value and changes no other bit of the buffer |
| DbcSignal.WritesNext | libs/dbcppp/src/SignalImpl.cpp:222-258 | one round of the encoding loop adds one position to those written |
| DbcSignal.UnswappedLoad | libs/dbcppp/src/Helper.h:16-21 | a load whose byte swap has no effect sees the frame with the eight bytes of the word mirrored |
| DbcSignal.LoadsLeaveTheFrame | libs/dbcppp/include/dbcppp/Signal.h:165-178 | a four-bit signal in the ninth byte needs nine bytes, and decoding it loads sixteen |
| DbcSignal.FarSignalPasses | libs/dbcppp/src/SignalImpl.cpp:319-337 | a big-endian signal starting at bit 32775 passes the check of an eight-byte message |
| DbcSignal.ShortMessagePasses | libs/dbcppp/src/SignalImpl.cpp:319-327 | a signal in the fifth byte passes the check of a message of four bytes |
| DbcMessages.MessageIsUnique | src/subsys/dbc/dbc_message.cpp:119-129 | the raw values determine the whole frame, so the unordered map's iteration order cannot matter |
| DbcMessages.MessageDecodes | src/subsys/dbc/dbc_message.cpp:109-129 | every signal decodes from the zero-padded frame to the value encoded for it |
| DbcMessages.HeldTogetherAgree | src/subsys/dbc/dbc_message.cpp:119-129 | one frame can hold all raw values only if signals that share bits agree on them |
| DbcMessages.DisjointAgree | src/subsys/dbc/dbc_message.cpp:119-129 | signals with pairwise disjoint bits always agree |
| DbcMessages.DbcMessage.GetSignalValue | src/subsys/dbc/dbc_message.cpp:109-117 | finds and registers the signal on first use, decodes it from a frame that only it has to fit, and fails exactly for unknown names |
| DbcMessages.DbcMessage.RegisterSignal | src/subsys/dbc/dbc_message.cpp:26-33 | refuses a taken name hash, and otherwise leaves every reference current |
| DbcMessages.DbcMessage.UpdateSignalReferences | src/subsys/dbc/dbc_message.cpp:131-137 | after the loop every reference points into the vector's present storage at a signal of its name hash |
| DbcMessages.DbcMessage.AddSignal | src/subsys/dbc/dbc_message.cpp:62-87 | references stay current if and only if the name hash was new or the vector did not move |
| DbcMessages.DbcMessage.HasSignal | src/subsys/dbc/dbc_message.cpp:89-94 | true exactly if the message declares the name hash |
| DbcMessages.UnswappedMisreads | libs/dbcppp/src/Helper.h:16-21 | if the byte swap has no effect, every big-endian signal is misread on some frame |
| DbcMessages.OverlapCannotBeHeld | src/subsys/dbc/dbc_message.cpp:119-129 | two signals in one byte with different raw values: no frame holds both |
| DbcMessages.DbcMessage.Create | src/subsys/dbc/dbc_message.cpp:9-20 | registers every declared signal and leaves every reference current; fails exactly if two names have the same hash |
| DbcMessages.DbcMessage.LeftBehind | src/subsys/dbc/dbc_message.cpp:62-87 | adding a registered name again while the vector moves leaves the references behind |
| DbcMessages.WordMisreads | libs/dbcppp/src/SignalImpl.cpp:79-82 | a Double of another size is misread on a frame of ones |
| DbcMessages.DbcMessage.ShortMessageOverruns | src/subsys/dbc/dbc_message.cpp:119-129 | a message of four bytes whose only signal passed its check and is encoded past the frame |
| MdfLayout.VisitIsNew | src/subsys/mdf/serializable_block_base.cpp:52-55 | a traversal meets no block twice and none that was marked |
| MdfLayout.VisitEncloses | src/subsys/mdf/serializable_block_base.cpp:52-55 | every child of a met block is met or was marked |
| MdfLayout.ReachedIsLeastClosed | src/subsys/mdf/serializable_block_base.cpp:19-22 | what a traversal meets from a root is the least set that links do not leave |
| MdfLayout.ClearedIff | src/subsys/mdf/serializable_block_base.cpp:35-46 | a reset from the root meets given blocks if and only if no set that marked children cannot leave misses one of them |
| MdfLayout.CoveredGrows | src/subsys/mdf/serializable_block_base.cpp:35-46 | adding blocks and links, and giving up links to unmarked blocks, keeps all marks within reach of the next reset |
| MdfLayout.ReachedIsCovered | src/subsys/mdf/serializable_block_base.cpp:35-58 | after a full pass all marks are within reach of the next reset |
| MdfLayout.Block.ResolveAddress | src/subsys/mdf/serializable_block_base.cpp:48-58 | on any graph with sharing and cycles: unaddressed blocks that are reached get consecutive addresses in traversal order, others keep theirs, and the result is the first free address |
| MdfLayout.Block.WriteToStream | src/subsys/mdf/serializable_block_base.cpp:8-25 | appends one record per block met, in traversal order, with its links; fails exactly at a link to a block without an address; the result is the bytes written |
| MdfLayout.Block.Reset | src/subsys/mdf/serializable_block_base.cpp:35-46 | clears both marks of exactly the marked blocks reached through marked blocks |
| MdfLayout.ReplacedLinkHides | src/subsys/mdf/serializable_block_base.cpp:35-46 | replacing the link to a marked block by one to a new block that links to it leaves the mark out of reach of a reset |
| MdfLayout.ClearableGrows | src/subsys/mdf/serializable_block_base.cpp:35-46 | giving up links to marked blocks is harmless if none of them stays in reach and none comes back into it |
| MdfLayout.DroppedLinkIsHarmless | src/subsys/mdf/serializable_block_base.cpp:35-46 | a marked block that drops out of reach is not met by the next reset and need not be |
| MdfLayout.MarkedIsClearable | src/subsys/mdf/serializable_block_base.cpp:35-46 | where all that the root reaches is marked, a reset meets exactly that |
| MdfLayout.VisitIgnores | src/subsys/mdf/serializable_block_base.cpp:48-58 | marks outside a set of blocks that no link leaves do not change a traversal inside it |
| MdfFile.ResetIsComplete | src/subsys/mdf/mdf4_file.cpp:245-247 | a reset leaves no mark on a block that the root reaches if and only if it meets every marked one of those, and no mark at all if and only if it meets all that are marked |
| MdfFile.RecordOffsets | src/subsys/mdf/serializable_block_base.cpp:8-58 | every record starts at its block's address and the lengths add up to the first free address |
| MdfFile.Mdf4File.CreateBlock | src/subsys/mdf/serializable_block_base.cpp:5-6 | a new block, with no address and not serialized, keeps the file's invariant |
| MdfFile.Mdf4File.SetLink | src/subsys/mdf/utilities/block_links.h:38-40 | setting or replacing a link keeps the file well formed; the next file stays sound if no marked block comes back into reach with the new child and none that is lost with the old one stays in reach |
| MdfFile.Mdf4File.AddExtraLink | src/subsys/mdf/utilities/block_links.h:42-45 | adding a link slot of eight bytes keeps the file well formed, and the next file sound unless it brings a marked block back into reach |
| MdfFile.Mdf4File.constructor | src/subsys/mdf/mdf4/header_block.cpp:5-16 | a new file satisfies the invariant and has exactly a header of 104 bytes, a file history of 56 bytes in its second slot, and a comment in the second slot of that; all other slots are empty |
| MdfFile.Mdf4File.LinkBlock | src/subsys/mdf/mdf4/data_group_block.cpp:24-31 | follows the chain of first slots to its end and links the block there, changing nothing else |
| MdfFile.Mdf4File.CreateDataGroup | src/subsys/mdf/mdf4_file.cpp:34-41 | a new data group of 64 bytes with a data block of 24 bytes in its third slot is linked behind the last one and reached from the header, and the next file stays sound |
| MdfFile.HiddenBehind | src/subsys/mdf/serializable_block_base.cpp:35-46 | a marked block that is reached only through a new block is not met by a reset |
| MdfFile.Mdf4File.StaleFile | src/subsys/mdf/mdf4_file.cpp:241-254 | a file that is not sound when written again: the link to a written block was replaced by one to a new block that links to it |
| MdfFile.Mdf4File.FirstFile | src/subsys/mdf/mdf4_file.cpp:241-254 | the first file written is the id block, the header, the file history and its comment, byte offsets and links included |
| CubicSpline.PivotStep | src/utilities/voltage_interpolator/cubic_spline_voltage_interpolator.hpp:53-55 | every pivot exceeds its row's width, so the multiplier lies in [0, 1) |
| CubicSpline.SubstitutionSolves | src/utilities/voltage_interpolator/cubic_spline_voltage_interpolator.hpp:63-64 | back substitution solves the tridiagonal system with zero ends |
| CubicSpline.SolutionIsUnique | src/utilities/voltage_interpolator/cubic_spline_voltage_interpolator.hpp:49-64 | the system of any table has at most one solution |
| CubicSpline.SplineSolves | src/utilities/voltage_interpolator/cubic_spline_voltage_interpolator.hpp:46-67 | conversely, every natural cubic spline through the table solves the system |
| CubicSpline.Interpolator.Differences | src/utilities/voltage_interpolator/cubic_spline_voltage_interpolator.hpp:43-47 | interval widths and right-hand sides |
| CubicSpline.Interpolator.Eliminate | src/utilities/voltage_interpolator/cubic_spline_voltage_interpolator.hpp:49-60 | forward elimination establishes every pivot row |
| CubicSpline.Interpolator.Substitute | src/utilities/voltage_interpolator/cubic_spline_voltage_interpolator.hpp:61-67 | the backward loop computes the solution and the fitted coefficients |
| CubicSpline.Interpolator.Interpolate | src/utilities/voltage_interpolator/cubic_spline_voltage_interpolator.hpp:70-87 | evaluates the spline in the voltage's interval, gives table values at table voltages, and the end values beyond the ends when clamping |
| CubicSpline.EliminationExists | src/utilities/voltage_interpolator/cubic_spline_voltage_interpolator.hpp:49-60 | forward elimination goes through on every table |
| Ema.EmaFilter.Filter | src/utilities/math/ema_filter.hpp:18-23 | one step: the remainder stays proper and the scaled sum changes by the input less the old output |
| Ema.StepStaysInRange | src/utilities/math/ema_filter.hpp:18-23 | bounds on every intermediate value, within which an integer type does not overflow |
| Ema.StepApproaches | src/utilities/math/ema_filter.hpp:18-23 | a step moves the output towards the input and never past it |
| RunnerTasks.StepKeeps | src/subsys/threading/work_queue_thread.cpp:48-86 | every step of every thread keeps the protocol's invariant |
| RunnerTasks.HeldIsNotInMap | src/subsys/threading/work_queue_thread.cpp:82-83 | the map never refuses a new task, because living tasks have different addresses |
| RunnerTasks.ReclaimKeeps | src/subsys/threading/work_queue_thread.cpp:55-62 | the handler finds its task in the map, frees only tasks whose handlers have returned, and leaves one completed task |
| RunnerTasks.WorkerDrains | src/subsys/threading/work_queue_thread.cpp:48-65 | once no caller is inside the lock, the worker alone brings any run to rest |
| RunnerTasks.CallerProgress | src/subsys/threading/work_queue_thread.cpp:67-86 | as soon as the mutex is free a caller outside can call Run: all its steps can be taken, and leave it outside, the mutex free and its task last in the queue |
| RunnerTasks.CallerGoesOn | src/subsys/threading/work_queue_thread.cpp:67-86 | a caller inside the lock can always take its next step |
| RunnerTasks.WorkerGoesOn | src/subsys/threading/work_queue_thread.cpp:48-65 | the worker waits for nothing but tasks and the mutex, also while a caller is inside |
| CborCodec.HeadRoundTrip | src/utilities/cbor/cbor_size_calculator.hpp:28-34 | a minimal-length head is read back with its argument, leaves the tail, and takes one byte and the argument's bytes |
| CborCodec.SizeIsHead | src/utilities/cbor/cbor_size_calculator.hpp:28-34 | the size computed for an unsigned integer is the length of its head |
| CborCodec.I32RoundTrip | src/utilities/cbor/cbor_size_calculator.hpp:39-46 | negative and non-negative integers are read back and take the computed size |
| CborCodec.TextRoundTrip | src/utilities/cbor/cbor_size_calculator.hpp:62-76 | a text string is read back and takes the computed size |
| CborCodec.ItemsRoundTrip | src/configuration/cbor/cbor_canbus_config/cbor_canbus_config_cbor_decode.cpp:147-156 | items written before a break are read back, whatever their number |
| CborCodec.ItemsSize | src/utilities/cbor/cbor_size_calculator.hpp:123-129 | items take the sum of their sizes |
| CborCanbus.EncodeSignal | src/configuration/cbor/cbor_canbus_config/cbor_canbus_config_cbor_encode.cpp:24-38 | writes a signal, or fails exactly without room |
| CborCanbus.EncodeMessage | src/configuration/cbor/cbor_canbus_config/cbor_canbus_config_cbor_encode.cpp:40-56 | writes a message with its signals, or fails exactly without room |
| CborCanbus.EncodeChannel | src/configuration/cbor/cbor_canbus_config/cbor_canbus_config_cbor_encode.cpp:58-75 | writes a channel with its messages, or fails exactly without room |
| CborCanbus.EncodeConfig | src/configuration/cbor/cbor_canbus_config/cbor_canbus_config_cbor_encode.cpp:77-90 | writes the configuration's encoding, or fails exactly without room |
| CborCanbus.DecodeSignal | src/configuration/cbor/cbor_canbus_config/cbor_canbus_config_cbor_decode.cpp:24-38 | reads a signal off the front as specified |
| CborCanbus.DecodeMessage | src/configuration/cbor/cbor_canbus_config/cbor_canbus_config_cbor_decode.cpp:40-101 | reads a message and its list of signals off the front as specified |
| CborCanbus.DecodeChannel | src/configuration/cbor/cbor_canbus_config/cbor_canbus_config_cbor_decode.cpp:103-169 | reads a channel and its list of messages off the front as specified |
| CborCanbus.DecodeConfig | src/configuration/cbor/cbor_canbus_config/cbor_canbus_config_cbor_decode.cpp:171-214 | reads the three nested lists off the front as specified |
| CborCanbus.GetSize | src/configuration/cbor/cbor_canbus_config/cbor_canbus_config_size.h:9-53 | the size computed by the nested loops |
| CborCanbus.Serialize | src/configuration/cbor/cbor_serializer.h:31-46 | the buffer of the computed size is always enough, and the encoding, which is the data item of the configuration, fills it to the last byte |
| CborCanbus.Deserialize | src/configuration/cbor/cbor_serializer.h:48-58 | bytes that begin with a configuration's encoding are read as that configuration, using exactly its bytes |
| CborSensors.ChannelRoundTrip | src/configuration/cbor/cbor_sensors_config/cbor_sensors_config_cbor_decode.cpp:86-87 | a missing channel cannot be mistaken for the string that follows |
| CborSensors.TableFieldRoundTrip | src/configuration/cbor/cbor_sensors_config/cbor_sensors_config_cbor_decode.cpp:89 | a missing calibration map cannot be mistaken for what follows |
| CborSensors.ExpressionRoundTrip | src/configuration/cbor/cbor_sensors_config/cbor_sensors_config_cbor_decode.cpp:90 | a missing expression cannot be mistaken for the break |
| CborSensors.ConfigurationRoundTrip | src/configuration/cbor/cbor_sensors_config/cbor_sensors_config_cbor_decode.cpp:78-94 | any presence of the three optional fields is read back, in the computed size |
| CborSensors.EncodeTable | src/configuration/cbor/cbor_sensors_config/cbor_sensors_config_cbor_encode.cpp:51-62 | writes a calibration map, or fails exactly without room or with fewer than two points |
| CborSensors.EncodeConfiguration | src/configuration/cbor/cbor_sensors_config/cbor_sensors_config_cbor_encode.cpp:64-80 | writes the fields present, or fails exactly without room or with a short calibration map |
| CborSensors.EncodeSensor | src/configuration/cbor/cbor_sensors_config/cbor_sensors_config_cbor_encode.cpp:82-93 | writes a sensor under the same conditions |
| CborSensors.EncodeConfig | src/configuration/cbor/cbor_sensors_config/cbor_sensors_config_cbor_encode.cpp:95-107 | writes the configuration's encoding, or fails exactly without room or with a short calibration map |
| CborSensors.DecodeConfiguration | src/configuration/cbor/cbor_sensors_config/cbor_sensors_config_cbor_decode.cpp:78-94 | reads the mandatory fields and those optional ones that are there |
| CborSensors.DecodeSensor | src/configuration/cbor/cbor_sensors_config/cbor_sensors_config_cbor_decode.cpp:96-107 | reads a sensor off the front as specified |
| CborSensors.DecodeConfig | src/configuration/cbor/cbor_sensors_config/cbor_sensors_config_cbor_decode.cpp:109-150 | reads the configuration off the front as specified |
| CborSensors.GetSize | src/configuration/cbor/cbor_sensors_config/cbor_sensors_config_size.h:9-69 | the size computed by the loops |
| CborSensors.Serialize | src/configuration/cbor/cbor_serializer.h:31-46 | fills the buffer of the computed size to the last byte with the data item of the configuration, and gives no bytes exactly if a calibration map has fewer than two points |
| CborSensors.Deserialize | src/configuration/cbor/cbor_serializer.h:48-58 | bytes that begin with a configuration's encoding are read as that configuration, using exactly its bytes |
| CborSensors.DecodeTable | src/configuration/cbor/cbor_sensors_config/cbor_sensors_config_cbor_decode.cpp:51-76 | a calibration map is absent where none starts and where one starts that cannot be read, after which reading goes on wherever the library leaves the cursor |
| DbcIndex.Cache.AddAttribute | libs/dbcppp/src/DBCAST2Network.cpp:735-786 | appends to the target's list in the nested maps and to no other |
| DbcIndex.Cache.SetDescription | libs/dbcppp/src/DBCAST2Network.cpp:788-818 | overwrites the target's description and no other |
| DbcIndex.Cache.SetComment | libs/dbcppp/src/DBCAST2Network.cpp:820-868 | overwrites the target's comment and no other |
| DbcIndex.Index | libs/dbcppp/src/DBCAST2Network.cpp:733-868 | for every object the index holds the positions of its attributes in order, and of its last description and comment |
| DbcIndex.PositionsScan | libs/dbcppp/src/DBCAST2Network.cpp:182-204 | following the indexed positions gives the order-preserving filter of the list |
| DbcIndex.LastIsLast | libs/dbcppp/src/DBCAST2Network.cpp:820-868 | the position kept for a single entry is that of the last one about the object |
| DbcIndex.GetAttributeValues | libs/dbcppp/src/DBCAST2Network.cpp:431-450 | the attributes read through the index are those a scan finds, in order |
| DbcIndex.GetComment | libs/dbcppp/src/DBCAST2Network.cpp:451-462 | the comment read through the index is the last one |
| DbcIndex.GetValueDescriptions | libs/dbcppp/src/DBCAST2Network.cpp:511-530 | the descriptions read through the index are those of the last entry |
| DbcIndex.CollectedIsDue | libs/dbcppp/src/DBCAST2Network.cpp:735-786 | each attribute occurs as often as there are objects its entries are about, repeated keys included |
| DbcIndex.ScannedIsOfTree | libs/dbcppp/src/DBCAST2Network.cpp:731-883 | linear scans give each object, in order, all its attributes and its last comment and descriptions |
| CborWire.HeadIsUnique | src/utilities/cbor/cbor_size_calculator.hpp:28-34 | a head, described by its major type and the positional value of its argument in the fewest bytes, is determined by them |
| CborWire.WireHeadIs | src/utilities/cbor/cbor_size_calculator.hpp:28-34 | the heads of data items meet that description |
| CborWire.IntExamples | src/utilities/cbor/cbor_size_calculator.hpp:28-46 | the bytes of some integers, such as 19 01 f4 for 500 and 20 for -1 |
| CborWire.OtherExamples | src/configuration/cbor/cbor_canbus_config/cbor_canbus_config_cbor_encode.cpp:58-75 | the bytes of false, true, a float and a text |

## Left out

- ParseString: formulas are token streams of numbers, variables (each name already resolved to the storage it is bound to), built-in operators, signs, brackets, `?:` and assignment; splitting characters into tokens, functions with argument lists, commas, strings, postfix and user-defined operators, variable factories and locales are not part of this model.
- CreateByteCode: signs are the only calls the parser model emits; calls of any fixed argument count are covered from the tree down (`Compile`, `Code`, `Run`), not from formula text.
- CompilerCorrect: asks `FoldSafe`, which is what the tree and all its parts need to be compiled correctly (`CompilerCorrectIff`); a tree that is not `FoldSafe` can still have the right value itself (`InexactFoldCanBeMasked`). `ProgramComputes` needs no such condition and says what is computed. All ask for trees of fewer than 2^32 nodes, so that the unsigned position cannot wrap.
- ParseCmdCode: bulk and multi-threaded evaluation, bulk and string functions, and rounding, infinities and NaN of machine numbers; conversion of a truncated operand to `int` does not overflow here.
- FusePowIsSound: powers outside 0 to 4 stay a parameter of the machine.
- Signal.Decode: whether the byte swap of big-endian words takes effect depends on a macro in a header that is not part of this model, so it is a parameter, and the result is stated for both. The native byte order is little-endian.
- Signal.constructor: the two codes for machines without IEEE 754 numbers, the multiplexer and descriptive fields; sizes other than 1 to 64, for which the shifts are undefined. The table of decoder functions is modelled by the decoder testing the same four attributes.
- DbcMessage.GetSignalValue: conversion between raw and physical values, which rounds; the caller supplies raw values to the encoder.
- DbcMessage.EncodeMessage: writing beyond the vector is undefined in the original; the model fails there instead.
- Block.WriteToStream: a stream that takes fewer bytes than offered; contents of blocks other than their length and links; wrap-around of 64-bit addresses.
- Mdf4File.WriteFileToStream: of the concrete blocks only the header, the file history and the data groups are built as the original does; others are a positive size, a list of links and an order in which the traversals take them.
- Interpolator.Create: rounding of single-precision numbers; asks for increasing voltages, without which the divisions have no meaning.
- Interpolator.Interpolate: unclamped voltages outside the table, for which the original indexes past its vectors.
- EmaFilter.Filter: overflow of the integer type, for which `StepStaysInRange` gives the bounds that exclude it; unsigned types, whose differences wrap.
- Reclamation: the destructor, the load balancer and tasks with user data; delays and cancellation of scheduled work. A caller on the worker's own thread is one more caller.
- Reader.Head: containers of definite length and nesting limits on input; the encoders write indefinite lengths only.
- DecodeTable: where the library leaves the cursor after a calibration map that cannot be read is a parameter; the library is not part of this model, nor is what the failure does to its nesting records.
- Serialize: an absent optional field has no value here, while the original keeps an unused one beside its flag.
- BuildNetwork: the parts of the network that are copied field by field from the tree, and attribute values other than as opaque contents.
- The text grammar and printer of DBC files, displays, drivers, Lua, JSON and file-system services.
- The ADC and system configurations in CBOR: the first has the shape of the sensors configuration and is smaller; the codec of the second is not part of this model.
