# Verification of a C-subset compiler

A model, in Dafny, of the five parts of the compiler that are hard to get right, with proofs about
all their inputs.

**Code generation.** `Ast` is the integer part of the syntax tree, `CSemantics` gives it a meaning
as a machine with an explicit continuation (goto, labels, break, continue and return included), and
`Ir` is the slice of LLVM IR that the compiler emits, with a machine that runs it. `Creator` and
`Codegen` are the emitter: a class whose fields are the block graph, the insert point, the label map
and the break and continue points, and methods that change them as the original does. Each method is
proved to reach the state that a function gives, and the functions are what the theorems are about:
`GraphShape`, `BodyShape` and `WellFormed` (terminators), `PhiShape` and `PhiJoins` (phis),
`Simulation`, `Continuations` and `Preservation` (meaning). `CSemantics` has two modes. `C11` is the
standard's meaning, `AsBuilt` differs from it only where the generator does: logical operators whose
value is used, and continue. `Faithful` and `JumpTargets` say exactly when the two coincide.

**Constant propagation.** `Lattice` has the elements and the transfer functions, `SccpSound` proves
folding right for all tables closed under them, `SccpRun` and `SccpPass` follow the pass itself (its
tables, its queue, its visits), and `SccpVisits` says what a visit reaches and queues. `SccpEnds`, `BranchRanks` and `BranchCycles` say when it ends, and
that it does on what the compiler emits (`Ssa` has the form that needs). `SccpExit`, `SccpSettled`
and `SccpOrder` compare the state it stops in with closed tables, `SccpMissed` and `SccpStale` are
runs of it that go wrong. `SccpFold`, `SccpTearDown`, `FoldedForm`, `DeadChains`, `DeadBlocks`
and `DeadCycle` rewrite the function.
`Optimised` joins this to code generation.

**Parser and printer.** `Grammar` and `Statements` specify the parser as a function on tokens and
prove which trees it returns; `StandardGrammar` and `StandardStatements` have the productions of
the standard and prove that these are the same trees. `Parser` is the parser with its loops.
`Printer` is the printer and the round trip over tokens, `PrintedForm` says which parentheses it
writes, and `Spelling` is the round trip through text and lexer.

**Declarators and scopes.** `Types` and `Declarators` convert declarators, `MirrorsUse` reads their
types off from the way the declared thing is used, and `DeclaratorSyntax`, `DeclaratorPrinter`,
`DeclaratorForm`, `DeclaratorParser` and `DeclaratorRoundTrip` read and write them. `Scopes` has the
plain chain of scope maps, `ScopeRuns` and `ScopeAnswers` what holds over its runs, and
`SemanticTree` the tree of nodes with one lazily cleaned stack for each name, which answers as the
chain does.

**Lexer.** `LexerSpec` says which tokens a text has, `LexerLaws` says without its recursions where
each part of a text ends, and `Lexer` is the lexer over a file that it advances and rewinds.

`dafny verify dfyconfig.toml` checks the project.

## Words used below

- *Admissible* body: labels are unique and every goto has one (the parser sees to both), and every
  break and continue sits where its loop's points are the current ones, which
  `JumpTargets.JumpsReachTheirLoopsExactlyWhen` shows to be the exact condition.
- *World*: the memory and the trace of loads and stores made so far.
- *Settled* tables: visiting any reachable instruction once more would change nothing.
- *Closed* tables: every reachable entry is at least its transfer function, and the blocks that
  reachable terminators can go to are reachable, and a branch is mapped to a constant only if its
  condition is.

## Where the code does something else than it is meant to

The model follows the code. What fails is shown on a concrete input, next to the exact condition
under which it does not.

- The value of `&&`, `||` and `!` is computed bitwise, both operands evaluated
  (`Faithful.LandIsCExactlyWhen`, `LorIsCExactlyWhen`, `NotIsCExactlyWhen`, for operands in which no
  such value is used).
- `continue` goes to the body of a while loop without testing (`Faithful.ContinueIsCExactlyWhen`,
  `ContinueRunsOn`), and break and continue points are not restored behind an inner loop
  (`JumpTargets.JumpsReachTheirLoopsExactlyWhen`, `MissedDivergesAsBuilt`).
- Constant propagation does not store a computed 0 over bottom (`SccpExit.ZeroIsLost`), keeps a
  branch mapped to a constant that its condition has lost (`SccpStale.StaleBranchIsFolded`), and does
  not queue the target of an unconditional branch, so that a reachable block may never be visited
  (`SccpMissed.BlockIsMissed`). In each case folding by the tables it stops with changes the function.
  `SccpSettled.SettledExactlyWhen` and `SccpExit.SettledIsClosedExactlyWhen` say when those tables are
  closed, and `SccpOrder.OrderedRunSettles` gives a check on the function that excludes the last two.
  On a graph with a cycle of conditional branches alone it may take blocks for ever
  (`SccpExit.LoopNeverEnds`); the generator emits no such cycle (`BranchCycles.NoCycleInFunction`),
  and the pass ends on what it emits (`BranchRanks.PassEndsOnFunction`). Dead loops that
  hold a choice stay (`DeadCycle.CycleStays`; `DeadBlocks.FunctionBlocks.DeleteDeadBlocks` has the
  exact condition).
- The printed form of an if whose consequence would take its else is read differently
  (`Printer.StatementRoundTripExactlyWhen`, `ElseMoves`), and so is an abstract function declarator
  with an empty list (`DeclaratorPrinter.EmptyListIsLost`, `DeclaratorRoundTrip.ComesBackExactlyWhen`).
- The left side of `=` may be any conditional expression, not only a unary one
  (`StandardGrammar.GrammaticalExactlyWhen`).
- Function parameters are adjusted to pointers only when there is one
  (`Types.KeptIsStandardExactlyWhen`).
- Completing an announced struct re-enters a node that stays inactive: members may be declared twice
  and are not found (`ScopeRuns.MembersAreLost`, `FoundAgainExactlyWhen`, `ReenteredExactlyWhen`).
- A keyword with which the file ends becomes an identifier (`Lexer.TokenLexer.ConsumeIdent`).

## Model

| member | source | states |
|---|---|---|
| `Preservation.GraphMeansFunction` | src/codegen/cogen.cc:194-317 | For every admissible function, all arguments and all memories: the emitted graph, run from its entry block, stops with a result and a world (memory and the ordered trace of all loads and stores) if and only if the function does under the as-built meaning; if, while, do, return, goto, labels, break and continue included |
| `Preservation.GraphNeverStuck` | src/codegen/ircreator.cc:121-175 | A run of the emitted graph never leaves the graph, never reads an undefined value and never runs off a block: after any number of steps it is still running or has returned |
| `Faithful.GraphMeansC` | src/codegen/cogen.cc:151-192 | The same equivalence against the meaning of C11 (sections 6.5.13 to 6.5.16, 6.8.4, 6.8.5), for every body that uses logical operators only as conditions and continues only do loops and loops whose condition is constantly true; falling off the end returns 0 |
| `Simulation.SimCondition` | src/codegen/cogen.cc:323-371 | Control that enters the code of a condition arrives at the start of the true successor or of the false successor as the condition decides, having made exactly the loads and stores of the operands that C evaluates, in order, for any nesting of logical operators, negations and ternaries |
| `Simulation.SimRvalue` | src/codegen/cogen.cc:421-515 | Running the code of an expression ends at its end with the value of the expression in the returned operand, the same world, and every earlier value unchanged |
| `Faithful.PlainTestIsC` | src/codegen/cogen.cc:328-371 | A condition compiled to jumps decides and has the effects that C11 gives it, for every nesting |
| `Faithful.NotIsCExactlyWhen` | src/codegen/ircreator.cc:577-586 | As a value, the code for a negation (xor with all ones) gives the value of C exactly when its operand is -1 |
| `Faithful.LandIsCExactlyWhen` | src/codegen/ircreator.cc:452-462 | As a value, the code for a logical and (bitwise and of both operands) gives the value and effects of C exactly when the left operand is 0 and the right one has no effect, or the right one is 0, or the two share only the lowest bit |
| `Faithful.LorIsCExactlyWhen` | src/codegen/ircreator.cc:464-473 | As a value, the code for a logical or gives the value and effects of C exactly when both operands are 0 or 1 and a left operand of 1 is followed by one without effect |
| `Faithful.ContinueIsCExactlyWhen` | src/codegen/cogen.cc:243-247 | A continue in a while loop (which goes to the body without testing) does the same as in C exactly when the condition of the loop, by its form alone, is true without touching memory |
| `Faithful.AlwaysTrueExactlyWhen` | src/codegen/cogen.cc:328-371 | A condition decides for true without any access to memory if and only if its form says so: a constant that is not 0, a negation, a logical operator or a ternary whose constant parts decide it, for every nesting |
| `Faithful.ContinueRunsOn` | src/codegen/cogen.cc:255-296 | A concrete loop with a continue that ends in C and never ends as built |
| `JumpTargets.JumpsReachTheirLoopsExactlyWhen` | src/codegen/ircreator.cc:734-748 | Since break and continue points are never restored: every break and continue of a body aims at its own loop if and only if it sits inside a while, not directly inside a do, with no other loop before it in the same body |
| `JumpTargets.MissedReturnsInC` | src/codegen/cogen.cc:249-253 | A function with a break behind an inner loop returns 0 in C |
| `JumpTargets.MissedGraph` | src/codegen/cogen.cc:255-296 | The blocks that a run of the graph emitted for that function goes through: its break jumps back to the end of the inner loop |
| `JumpTargets.MissedDivergesAsBuilt` | src/codegen/cogen.cc:249-253 | The graph emitted for that function runs for ever, from every memory |
| `WellFormed.NeverTwoTerminators` | src/codegen/ircreator.cc:121-255 | With unique labels, whatever else the body does, no block of the emitted function ever has two terminators or an instruction behind one |
| `WellFormed.WellFormedExactlyWhen` | src/codegen/ircreator.cc:121-255 | With unique labels, every block of the finished function ends in exactly one terminator and all targets are blocks of it, if and only if every goto names a label and every break or continue comes after a loop has set its point |
| `BodyShape.EmitStage` | src/codegen/cogen.cc:194-317 | Invariant of code generation: before and after every statement in any context, every block but the current one and those waiting for code is closed by exactly one terminator, the current one is open, and exactly the pending labels are still open |
| `PhiShape.RvalueQuiet` | src/codegen/cogen.cc:719-744 | The code of an expression adds jumps to its own new blocks only, and phis to new blocks only, each listing exactly the predecessors of its block |
| `PhiJoins.PhisListPredecessors` | src/codegen/ircreator.cc:685-696 | In the finished function every phi stands first in its block and lists exactly the predecessors of the block, each once, for arbitrarily nested ternaries in a body with gotos and loops; the entry block has none |
| `Optimised.OptimisedMeansC` | src/codegen/sccp_pass.cc:724-785 | Folding applied directly to what code generation emits (the compiler promotes memory to registers in between): for any closed tables, the folded graph returns a result and a world if and only if the C function does |
| `Optimised.OptimisedRunMeansC` | src/codegen/sccp_pass.cc:86-125 | The same with the tables that the pass itself ends with, for functions that pass the check of SccpOrder and as long as no computed 0 was lost |
| `Optimised.PassRunsOn` | src/codegen/sccp_pass.cc:86-125 | Every admissible function that uses logical operators only as conditions is one on which the pass ends |
| `Creator.IRCreator.constructor` | src/codegen/ircreator.cc:81-101 | A new function has one empty current block, no labels, and break and continue points that are null |
| `Creator.IRCreator.Insert` | src/codegen/ircreator.cc:279-283 | Appends one instruction to the current block under a fresh identity and returns it |
| `Creator.IRCreator.GetControlFlowBlock` | src/codegen/ircreator.cc:720-728 | Adds an empty block without connecting it; the current block stays |
| `Creator.IRCreator.MakeBlock` | src/codegen/ircreator.cc:194-210 | Adds a block, jumps to it from the current block if asked to, and continues there |
| `Creator.IRCreator.SetCurrentBasicBlock` | src/codegen/ircreator.cc:729-732 | Moves the insert point only |
| `Creator.IRCreator.Connect` | src/codegen/ircreator.cc:241-245 | Ends the current block with a jump |
| `Creator.IRCreator.ConnectFrom` | src/codegen/ircreator.cc:247-254 | Ends the block given, or the current one, with a jump, and returns which block that was (the block a phi must name) |
| `Creator.IRCreator.MakeConditionalBranch` | src/codegen/ircreator.cc:224-235 | Compares the value with 0 and branches to the two successors |
| `Creator.IRCreator.MakeReturn` | src/codegen/ircreator.cc:143-175 | Returns the value, or 0, or nothing, and continues in a new unreachable block |
| `Creator.IRCreator.JumpToLabel` | src/codegen/ircreator.cc:212-222 | Finds the block of a label or creates it, remembering it in the label map |
| `Creator.IRCreator.LabelBlock` | src/codegen/ircreator.cc:216-222 | The block for a label that is being placed, the one earlier gotos used if there is one |
| `Creator.IRCreator.SetLoopPoints` | src/codegen/ircreator.cc:734-740 | Sets break and continue points; nothing restores the former ones |
| `Creator.IRCreator.MakePhi` | src/codegen/ircreator.cc:685-696 | A phi of two values with the two blocks they come from |
| `Creator.IRCreator.FinishFunction` | src/codegen/ircreator.cc:121-140 | Returns 0, or nothing from a void function, at the end of the current block |
| `Codegen.EmitRvalue` | src/codegen/cogen.cc:421-515 | Emits, block by block, exactly the graph that Simulation.SimRvalue is about |
| `Codegen.EmitTernary` | src/codegen/cogen.cc:719-744 | Both arms end in the join block; the phi names the blocks in which they ended, not those in which they began |
| `Codegen.EmitCondition` | src/codegen/cogen.cc:323-371 | Emits exactly the graph that Simulation.SimCondition is about |
| `Codegen.EmitLogicalCondition` | src/codegen/cogen.cc:328-350 | The second operand is emitted into a block of its own, reached only when the first does not decide |
| `Codegen.EmitTernaryCondition` | src/codegen/cogen.cc:362-371 | Only the chosen arm is reached, and it jumps to the two successors itself |
| `Codegen.EmitWhile` | src/codegen/cogen.cc:255-296 | Header, body and end block in the order that Continuations.InWhile follows |
| `Codegen.EmitDo` | src/codegen/cogen.cc:255-296 | Body before test; the break and continue points are set after the body |
| `Codegen.EmitSelection` | src/codegen/cogen.cc:298-317 | Consequence and alternative meet in the end block |
| `Codegen.EmitElseBranch` | src/codegen/cogen.cc:298-317 | The alternative, or the end block in its place if there is none |
| `Codegen.EmitIR` | src/codegen/cogen.cc:194-317 | Emits exactly the graph that Preservation.GraphMeansFunction is about, for every statement |
| `Codegen.EmitFunctionDefinition` | src/codegen/cogen.cc:151-192 | Stores the arguments to their slots, emits the body and finishes the function |
| `Lattice.TransferMonotone` | src/codegen/sccp_pass.cc:222-309 | Every transfer function is monotone in the constants and in the set of reachable blocks |
| `Lattice.TransferCovers` | src/codegen/sccp_pass.cc:355-421 | What an instruction computes on any execution is covered by its transfer function, for add, sub, mul, comparisons, zext and phis over reachable predecessors |
| `SccpSound.StartRight` | src/codegen/sccp_pass.cc:141-171 | Closed tables are right about the start of every call |
| `SccpSound.RunRight` | src/codegen/sccp_pass.cc:222-433 | For tables closed under the transfer functions: at every step of every run the executed block is marked reachable and every computed value is the constant it is mapped to |
| `SccpSound.FoldKeepsMeaning` | src/codegen/sccp_pass.cc:724-785 | Replacing the constants, folding their branches and dropping unreachable blocks keeps result and memory accesses of every run, in both directions, so termination too |
| `SccpRun.InitialBelow` | src/codegen/sccp_pass.cc:141-171 | The tables that the pass starts with are below their transfer functions |
| `SccpRun.VisitAscends` | src/codegen/sccp_pass.cc:222-621 | A visit of any instruction from tables below their transfer functions keeps them below and only raises entries, so the checked insert never fails; the only failure is a phi about which nothing is known |
| `SccpRun.RunsAscend` | src/codegen/sccp_pass.cc:86-125 | The same over any sequence of visits in any order |
| `SccpRun.ConstantsStay` | src/codegen/sccp_pass.cc:32-59 | A constant, once stored, never becomes another constant: the check that is commented out holds |
| `SccpRun.BinaryUpToDateExactlyWhen` | src/codegen/sccp_pass.cc:222-309 | After the visit of an add, sub or mul its entry is its transfer function, except exactly when that is the constant 0 and the entry was bottom |
| `SccpRun.OthersUpToDate` | src/codegen/sccp_pass.cc:355-570 | After the visit of a comparison, zext, phi or load its entry is its transfer function |
| `SccpVisits.MarkedExactlyWhen` | src/codegen/sccp_pass.cc:575-621 | A visit makes a block reachable if and only if it is the target of the branch visited and, for a conditional branch, some value that its condition can have selects it |
| `SccpVisits.QueuedExactlyWhen` | src/codegen/sccp_pass.cc:575-683 | A visit only adds to the end of the queue, and adds exactly: both targets of an undecided branch, the target of a decided one that was not reachable, and for any other instruction the reachable blocks that use its value, if what is known of it changed and is no constant found by a comparison |
| `SccpVisits.TakenFirstExactlyWhen` | src/codegen/sccp_pass.cc:178-195 | The block taken from the queue is the first reachable one, and those before it are dropped |
| `SccpVisits.KnownExactlyWhen` | src/codegen/sccp_pass.cc:222-421 | The new element of a computation is a constant exactly when all its operands are, and top exactly when one of them is |
| `SccpVisits.PhiIsLeastUpperBound` | src/codegen/sccp_pass.cc:488-570 | The element of a phi is the least above all its values from reachable blocks |
| `SccpPass.PassOnlyAscends` | src/codegen/sccp_pass.cc:86-125 | Over the whole pass with its work queue, tables after more blocks are above tables after fewer, and no constant changes |
| `SccpPass.VerdictJoin` | src/codegen/sccp_pass.cc:488-570 | What the phi visit decides from its two tests (some value is no constant, all constants are the same) is the join of the incoming values |
| `SccpPass.AllSame` | src/codegen/sccp_pass.cc:488-570 | Whether all collected constants are equal |
| `SccpPass.Transition.constructor` | src/codegen/sccp_pass.cc:86-171 | Every block is queued, arguments are top, the entry block is reachable |
| `SccpPass.Transition.CheckedInsert` | src/codegen/sccp_pass.cc:32-59 | Stores the element; a descent in the lattice makes the pass fail |
| `SccpPass.Transition.GetConstantLatticeElem` | src/codegen/sccp_pass.cc:685-713 | A constant is itself, an unseen value is entered as bottom, any other has its entry |
| `SccpPass.Transition.EnqueueCFGSuccessors` | src/codegen/sccp_pass.cc:666-683 | Queues the reachable blocks of all users of a value |
| `SccpPass.Transition.VisitBinaryOperator` | src/codegen/sccp_pass.cc:222-309 | The new tables, the lost 0 included |
| `SccpPass.Transition.VisitICmpInst` | src/codegen/sccp_pass.cc:355-409 | The new tables for a comparison |
| `SccpPass.Transition.VisitZExtInst` | src/codegen/sccp_pass.cc:412-421 | The new tables for a zext |
| `SccpPass.Transition.VisitMemoryInst` | src/codegen/sccp_pass.cc:459-482 | A load or a store is entered as top |
| `SccpPass.Transition.VisitBranchInst` | src/codegen/sccp_pass.cc:575-621 | Marks one target or both reachable; targets are not queued, and a branch on a constant is entered with it |
| `SccpPass.Transition.CollectIncoming` | src/codegen/sccp_pass.cc:488-570 | The entries of the incoming values from reachable blocks |
| `SccpPass.Transition.VisitPHINode` | src/codegen/sccp_pass.cc:488-570 | The new tables for a phi |
| `SccpPass.Transition.VisitInst` | src/codegen/sccp_pass.cc:222-660 | Dispatches on the instruction |
| `SccpPass.Transition.VisitBlock` | src/codegen/sccp_pass.cc:86-125 | Visits the instructions of a block in order |
| `SccpPass.Transition.GetNextBlock` | src/codegen/sccp_pass.cc:178-195 | Takes the first reachable block and drops the unreachable ones before it |
| `SccpEnds.EndsWhenRanked` | src/codegen/sccp_pass.cc:86-125 | The work queue runs empty, or an assertion fails, after finitely many blocks on every graph whose conditional branches can be numbered upwards, whatever else it computes and however its unconditional branches lead back |
| `SccpEnds.RunOnFunction` | src/codegen/sccp_pass.cc:86-125 | The loop over the queue ends on such a graph; its tables are those of some number of rounds and below their transfer functions |
| `SccpEnds.CycleNeverEnds` | src/codegen/sccp_pass.cc:576-621 | Once a reachable cycle of conditional branches whose conditions are never found constant is queued, the queue is never empty again unless an assertion of the pass fails: the other half of EndsWhenRanked |
| `BranchRanks.BranchesRise` | src/codegen/cogen.cc:194-371 | In what is emitted for any function body, every conditional branch leads upwards in one numbering of the blocks |
| `BranchRanks.PassEndsOnFunction` | src/codegen/sccp_pass.cc:86-125 | So the pass ends on every function that the compiler emits whose logical operators are used as conditions only |
| `BranchRanks.PassEndsOnSameBranches` | src/codegen/sccp_pass.cc:86-125 | And on whatever promoting memory to registers makes of it, since that keeps the branches |
| `BranchCycles.RankedExactlyWhen` | src/codegen/sccp_pass.cc:576-621 | Such a numbering exists if and only if no cycle consists of conditional branches alone |
| `BranchCycles.NoCycleInFunction` | src/codegen/cogen.cc:255-296 | Every cycle of an emitted function, loops and gotos included, has an unconditional branch |
| `BranchCycles.EndsWithoutCycle` | src/codegen/sccp_pass.cc:86-125 | The pass ends on every graph without a cycle of conditional branches |
| `SccpExit.SettledIsClosedExactlyWhen` | src/codegen/sccp_pass.cc:222-621 | Tables that no further visit would change are closed (what FoldKeepsMeaning asks for) if and only if no computed 0 was lost and no branch is mapped to a constant that its condition no longer has |
| `SccpExit.ZeroIsLost` | src/codegen/sccp_pass.cc:302-309 | A one-block function that returns 0 for which the pass ends with tables that are not closed, and folding by them leaves a graph that is stuck |
| `SccpExit.LoopNeverEnds` | src/codegen/sccp_pass.cc:576-621 | On a graph that the generator does not make, a block with a conditional branch to itself, the queue never gets empty however many blocks are taken |
| `SccpSettled.SettledExactlyWhen` | src/codegen/sccp_pass.cc:86-125 | When the queue has run empty without a failure, the tables are settled if and only if visiting any reachable block that was not caught (taken while it was reachable, with its phis, after their predecessors) changes nothing |
| `SccpOrder.OrderedRunSettles` | src/codegen/sccp_pass.cc:86-125 | For functions that pass a check made before the run (reachable branches depend on memory or a parameter, reachable blocks are branched to from blocks before them, phis list no later block), the tables at the end are settled, and closed exactly when no computed 0 was lost |
| `SccpMissed.SourceIsMade` | src/codegen/cogen.cc:194-317 | The blocks that are emitted for `if (1) a: ; b: ;` |
| `SccpMissed.MissedRun` | src/codegen/sccp_pass.cc:576-583 | The exact tables with which the pass ends on them, after five blocks |
| `SccpMissed.BlockIsMissed` | src/codegen/sccp_pass.cc:576-583 | On that function no 0 is lost and no branch is stale, but a reachable block was never visited, because an unconditional branch does not queue its target: the function returns 0 and the folded graph is stuck |
| `SccpStale.StaleRun` | src/codegen/sccp_pass.cc:575-621 | A while loop, as it is compiled, on which the pass ends after 16 blocks, with its exact final tables |
| `SccpStale.StaleBranchIsFolded` | src/codegen/sccp_pass.cc:724-785 | That loop ends with 1; folded by the final tables it never ends |
| `SccpFold.ComputedIsRightExactlyWhen` | src/codegen/sccp_pass.cc:283-301 | The constant computed for two constants is the value of the instruction exactly when: always for add, sub and mul; for or, both are 0 or 1; for and, one is 0 or they share only the lowest bit; for xor, never, as none is computed |
| `SccpFold.DecidedIsRightExactlyWhen` | src/codegen/sccp_pass.cc:239-254 | The value taken for and/or from one operand alone, the left or the right one, is right exactly when it is an and, or an or of 1 with 0 or 1 |
| `SccpTearDown.InstrsStep` | src/codegen/sccp_pass.cc:724-785 | Rewriting one more entry on top of the entries already rewritten is folding by the table with that entry |
| `SccpTearDown.TornDownIsFolded` | src/codegen/sccp_pass.cc:724-785 | All entries rewritten one by one, and phis pruned of unreachable predecessors, gives exactly the fold that FoldKeepsMeaning is about |
| `FoldedForm.NothingDecidedIsLeft` | src/codegen/sccp_pass.cc:724-785 | After folding, a reachable block holds no computation whose entry is a constant or bottom, no operand and no branch that the tables have decided, and no phi value from an unreachable block; any other block is empty |
| `SccpTearDown.RewrittenFunction.ApplyEntry` | src/codegen/sccp_pass.cc:724-785 | Every block has the uses of one value replaced and its branches folded |
| `SccpTearDown.RewrittenFunction.RewriteBlock` | src/codegen/sccp_pass.cc:724-785 | The same for one block |
| `SccpTearDown.RewrittenFunction.TearDownInsts` | src/codegen/sccp_pass.cc:724-785 | In whatever order the entries are listed, the result is folding by the whole table |
| `DeadBlocks.FunctionBlocks.UniquePredecessor` | src/codegen/sccp_pass.cc:787-824 | Finds the predecessor of a block if there is exactly one |
| `DeadBlocks.FunctionBlocks.MergeBlockIntoPredecessor` | src/codegen/sccp_pass.cc:787-824 | Merges a block into its only predecessor if that has no other successor, and says whether it did |
| `DeadBlocks.FunctionBlocks.DeleteDeadBlock` | src/codegen/sccp_pass.cc:787-824 | Removes the block and its edges |
| `DeadBlocks.FunctionBlocks.DeleteDeadBlocks` | src/codegen/sccp_pass.cc:787-824 | The dirty loop ends; live blocks and their edges are as before; a block is left only if it can be neither deleted nor merged; and nothing is left if and only if the dead blocks can be arranged as chains: a block leads to the next of its chain only, the last one back to the first and to later chains |
| `DeadBlocks.NumberedDissolves` | src/codegen/sccp_pass.cc:787-824 | That is so when the dead blocks have no cycle but self-loops |
| `DeadChains.RemovedDissolves` | src/codegen/sccp_pass.cc:787-824 | Deleting a block without predecessors, or with itself only, changes nothing about whether the dead blocks are chained |
| `DeadChains.MergedDissolves` | src/codegen/sccp_pass.cc:787-824 | Nor does merging a block into its predecessor: so the outcome does not depend on the order of the loop |
| `DeadChains.NothingLeft` | src/codegen/sccp_pass.cc:787-824 | Where neither rule applies to any dead block, they are chained only if there are none |
| `DeadCycle.SourceIsMade` | src/codegen/cogen.cc:194-317 | The blocks that are emitted for `return 0; while (1) if (1) ;` |
| `DeadCycle.OnlyEntryIsLive` | src/codegen/sccp_pass.cc:86-125 | On them the pass finds the entry block reachable and nothing else |
| `DeadCycle.CycleStays` | src/codegen/sccp_pass.cc:787-824 | So its dead blocks are those of the loop behind the return, which are not chained: some are left whatever is deleted and merged first, and the assertion that nothing is left fails |
| `DeadBlocks.BranchesStayLiveExactlyWhen` | src/codegen/sccp_pass.cc:724-824 | After folding by closed tables, the branches of a reachable block go to reachable blocks only, exactly when no unfolded branch of it had an unreachable target |
| `Grammar.ParsesExactlyWhen` | src/parser/parser.cc:449-480 | expression(p) returns a tree and a rest if and only if the input is the tokens of the tree followed by the rest, the tree obeys precedence and associativity everywhere (those of the standard, StandardGrammar.GrammaticalExactlyWhen), its top operator has precedence at least p, and no operator that could continue it follows |
| `Grammar.TreesAreUnique` | src/parser/parser.cc:245-318 | A token sequence has at most one tree that obeys precedence and associativity |
| `Grammar.ExprSound` | src/parser/parser.cc:368-480 | Whatever is parsed flattens to exactly the tokens consumed |
| `Grammar.ExprReads` | src/parser/parser.cc:449-480 | In front of any tree of the grammar the climbing loop rebuilds that tree |
| `StandardGrammar.DerivesExactlyWhen` | src/parser/parser.cc:245-318 | For the productions of C11 6.5.1 to 6.5.17 that the parser reads, each naming its operators and the nonterminals of its operands: a nonterminal derives tokens with a tree if and only if they are the tokens of a tree of the precedence table that binds at least as tightly as the nonterminal |
| `StandardGrammar.GrammaticalExactlyWhen` | src/parser/parser.cc:245-318 | The trees of the precedence table are exactly those that the top nonterminal derives, if the left side of `=` may be a conditional expression; and those of the standard exactly the ones among them in which it is no operation of two or three operands |
| `StandardGrammar.ExpressionExactlyWhen` | src/parser/parser.cc:449-480 | So the parser returns a tree and a rest if and only if the tokens before the rest derive from that nonterminal with this tree and nothing that continues the expression follows |
| `Statements.ParenthesisedExactlyWhen` | src/parser/parser.cc:1069-1091 | A parenthesised condition is read exactly when it is written |
| `Statements.ClosedExactlyWhen` | src/parser/parser.cc:980-996 | An optional expression and its semicolon are read exactly when they are written |
| `Statements.StatementExactlyWhen` | src/parser/parser.cc:953-1154 | statement() returns a statement and a rest if and only if the input is its tokens and the rest, break and continue are inside loops, and no else follows that an if inside it would take: the dangling else belongs to the nearest if |
| `StandardStatements.StatementExactly` | src/parser/parser.cc:953-1154 | The statements of the parser are those of the productions of C11 6.8, break and continue in loops only, matched statements before an else |
| `StandardStatements.ParsedExactlyWhen` | src/parser/parser.cc:953-1154 | statement() returns a statement and a rest if and only if the tokens before the rest derive it by those productions; in front of an else, as a matched statement |
| `Syntax.StrippedIsAbstract` | src/parser/parser.cc:368-437 | Dropping the parentheses of a parsed tree gives an abstract syntax tree |
| `Printer.ExpressionRoundTrip` | src/parser/pprinter.cc:102-184 | Parsing the printed tokens of any expression tree gives the tree back, with nothing left: nested ternaries, calls, subscripts, member accesses and sizeof included |
| `Printer.StatementRoundTripExactlyWhen` | src/parser/pprinter.cc:240-382 | Parsing the printed tokens of any statement gives it back if and only if no if with an else has a consequence that would take the else |
| `Printer.ParsedStatementsComeBack` | src/parser/pprinter.cc:273-319 | Every statement that the parser can return comes back from printing and parsing |
| `PrintedForm.PrintedExactlyWhen` | src/parser/pprinter.cc:102-184 | The tree that the parser reads from a printed expression is the one, and the only one, that is the expression but for parentheses and has exactly one pair around each operation and none around a name, a constant or another pair |
| `PrintedForm.PrintedStmtIs` | src/parser/pprinter.cc:240-382 | A printed statement has one pair around each operation in it besides those of its conditions, and is otherwise the statement |
| `Spelling.LayoutIsRead` | src/lexer/lexer.cc:370-402 | The parser gets exactly the tokens that a text spells out, for every layout with any spaces, block comments and line comments between and around them that keeps apart what would grow together, a line comment that the file ends in included |
| `Spelling.SpacedIsWellLaid` | src/lexer/lexer.cc:48-112 | A blank behind each token is such a layout |
| `Spelling.PunctuatorIsRead` | src/lexer/token.cc:20-59 | Every punctuator of the parser is one of the lexer and is looked up as itself, next to its digraphs |
| `Spelling.KeywordIsRead` | src/lexer/token.cc:67-100 | Every keyword of the parser is one of the lexer and is looked up as itself |
| `Spelling.TextComesBackExactlyWhen` | src/parser/pprinter.cc:240-382 | A statement that is printed, laid out as text, lexed and parsed comes back if and only if no if with an else has a consequence that would take the else |
| `Spelling.ExpressionTextComesBack` | src/parser/pprinter.cc:102-184 | Any expression that is printed, laid out as text, lexed and parsed comes back |
| `Printer.ElseMoves` | src/parser/pprinter.cc:273-319 | A tree that no parse returns and whose printed else is read as belonging to the inner if |
| `Printer.PrettyPrinter.Print` | src/parser/pprinter.cc:102-184 | Writes the tokens of the tree that PrintedForm.PrintedExactlyWhen describes: one pair of parentheses for each operation, none for a name or constant; these are the tokens of the round trip |
| `Printer.PrettyPrinter.PrintBinary` | src/parser/pprinter.cc:102-126 | An infix operator, a subscript or a member access; these are the tokens of the round trip |
| `Printer.PrettyPrinter.PrintTernary` | src/parser/pprinter.cc:175-184 | A ternary, all three parts in parentheses; these are the tokens of the round trip |
| `Printer.PrettyPrinter.PrintSizeof` | src/parser/pprinter.cc:538-548 | sizeof of a type; these are the tokens of the round trip |
| `Printer.PrettyPrinter.PrintCall` | src/parser/pprinter.cc:156-173 | A call with its arguments between commas; these are the tokens of the round trip |
| `Printer.PrettyPrinter.PrintStmt` | src/parser/pprinter.cc:240-382 | Writes the tokens of a statement; these are the tokens of the round trip |
| `Printer.PrettyPrinter.PrintSelection` | src/parser/pprinter.cc:273-319 | An if, with an else if there is one; these are the tokens of the round trip |
| `Printer.PrettyPrinter.PrintDo` | src/parser/pprinter.cc:348-369 | A do loop; these are the tokens of the round trip |
| `Printer.PrettyPrinter.PrintCompound` | src/parser/pprinter.cc:240-256 | A block; these are the tokens of the round trip |
| `Parser.TokenParser.Expression` | src/parser/parser.cc:449-480 | Precedence climbing by loop returns the tree without parentheses of what Grammar.ParsesExactlyWhen and, by the productions of the standard, StandardGrammar.ExpressionExactlyWhen describe, or fails when there is none; it ends on every token sequence |
| `Parser.TokenParser.ComputeAtom` | src/parser/parser.cc:368-437 | Operands: identifiers, constants, parenthesised expressions, prefix operators, sizeof |
| `Parser.TokenParser.SizeOfType` | src/parser/parser.cc:439-447 | sizeof with a type in parentheses |
| `Parser.TokenParser.PostfixExpression` | src/parser/parser.cc:320-366 | The chain of calls, subscripts and member accesses behind an operand |
| `Parser.TokenParser.Arguments` | src/parser/parser.cc:320-366 | The arguments of a call by loop |
| `Parser.TokenParser.Statement` | src/parser/parser.cc:953-975 | Returns the statement that Statements.StatementExactlyWhen describes, or fails when there is none; the loop depth is restored |
| `Parser.TokenParser.OptionalExpression` | src/parser/parser.cc:980-996 | An expression or none, and a semicolon |
| `Parser.TokenParser.ExpressionStatement` | src/parser/parser.cc:980-996 | The same as a statement |
| `Parser.TokenParser.LabeledStatement` | src/parser/parser.cc:1001-1020 | A label and its statement |
| `Parser.TokenParser.Condition` | src/parser/parser.cc:1069-1091 | A condition in parentheses |
| `Parser.TokenParser.SelectionStatement` | src/parser/parser.cc:1069-1091 | An if takes the else that follows its consequence |
| `Parser.TokenParser.IterationStatement` | src/parser/parser.cc:1027-1062 | while and do, with the body one loop deeper |
| `Parser.TokenParser.JumpStatement` | src/parser/parser.cc:1101-1154 | goto, continue, break and return; continue and break only inside a loop |
| `Parser.TokenParser.CompoundStatement` | src/parser/parser.cc:880-917 | Statements up to the closing brace by loop |
| `Parser.TokenParser.Expect` | src/parser/parser.cc:48-52 | Consumes the punctuator or fails |
| `Types.SameReflexive` | src/parser/semadecl.cc:202-247 | Every type is compatible with itself |
| `Types.SameSymmetric` | src/parser/semadecl.cc:202-247 | Compatibility is symmetric |
| `Types.SameTransitive` | src/parser/semadecl.cc:202-247 | Compatibility is transitive, through pointers, functions and structs |
| `Types.SameExactlyWhen` | src/parser/semadecl.cc:202-247 | Two types are compatible if and only if they are equal once arrays are read as pointers |
| `Types.SameWithoutArrays` | src/parser/semadecl.cc:202-247 | Types without arrays are compatible only if they are equal |
| `Types.ArrayIsPointer` | src/parser/semadecl.cc:202-247 | An array type is compatible with exactly what the pointer type to its elements is compatible with |
| `Types.SameByParts` | src/parser/semadecl.cc:202-247 | Pointers are compatible exactly when what they point to is, functions exactly when their results are and they have as many parameters, compatible one by one |
| `Types.CompareTypes` | src/parser/semadecl.cc:202-247 | The comparison, parameters from last to first, decides compatibility |
| `Types.KeptIsStandardExactlyWhen` | src/parser/semadecl.cc:128-144 | The parameters that the constructor keeps are those adjusted as the standard says (6.7.6.3) exactly when there is one parameter or none is a function |
| `Types.FunctionDeclaration.constructor` | src/parser/semadecl.cc:128-144 | A lone void parameter is dropped, a lone function parameter becomes a pointer |
| `Types.FunctionDeclaration.RebindParameters` | src/parser/semadecl.cc:146-159 | Rebinding adjusts every function parameter, and keeps the old list for a lone void |
| `Declarators.ConversionIsInsideOut` | src/parser/semantic.cc:321-404 | The accumulator recursion of helpConvert is the structural inside-out reading of section 6.7.6 of C11, for every base type and declarator, failures included |
| `Declarators.HasTypeExactlyWhen` | src/parser/semantic.cc:321-404 | A declarator has a type if and only if it has at most one parameter list per level and every struct it names is known |
| `Declarators.MeaningByGetters` | src/parser/declaratorNode.h:141-178 | What getPointers, getNextParameter and getNextDeclarator report together determines the inside-out reading |
| `MirrorsUse.MeaningMirrorsUse` | src/parser/semantic.cc:321-404 | Declaration mirrors use (section 6.7.6 of C11): a declarator turns type t into type u if and only if, starting from u, following one pointer for each star and calling with the declared parameter types, in the order in which an expression of that shape would, yields t |
| `MirrorsUse.ConvertsExactlyWhen` | src/parser/semantic.cc:321-404 | The same for helpConvert with and without an accumulator |
| `MirrorsUse.StarIsPointer` | src/parser/semantic.cc:346-366 | One star more makes the declarator say of a type what it said of the pointer to it; no star and nothing else gives the type itself |
| `MirrorsUse.TakesExactlyWhen` | src/parser/semadecl.cc:128-144 | The parameter types of a list are those of its declarations, none for an empty list and for a lone void, and a pointer for a lone function |
| `MirrorsUse.BasicTypes` | src/parser/semantic.cc:321-345 | int, char and void are read as the types of these names |
| `Declarators.Convert` | src/parser/semantic.cc:321-404 | The conversion with its loops over stars and parameters ends and computes the type that MirrorsUse.ConvertsExactlyWhen describes |
| `Declarators.PointTo` | src/parser/semadecl.cc:162-168 | A pointer declaration with a count n: following n pointers from the result leads back to the type |
| `DeclaratorSyntax.DeclaratorReadsExactlyWhen` | src/parser/parser.cc:731-874 | A declarator is read from a token sequence if and only if the sequence is its tokens and a rest that does not go on with it, in each of the three modes (named, abstract, either) |
| `DeclaratorSyntax.DeclaratorReads` | src/parser/parser.cc:731-874 | Written declarators are read back as they are |
| `DeclaratorSyntax.DeclaratorSound` | src/parser/parser.cc:764-874 | A declarator that is read flattens to exactly the tokens consumed |
| `DeclaratorPrinter.RereadWrites` | src/parser/pprinter.cc:392-405 | The printed tokens of a declarator are the tokens of the tree that is read back from them |
| `DeclaratorPrinter.RereadMeans` | src/parser/pprinter.cc:454-536 | That tree, though it may differ, gives the same type |
| `DeclaratorRoundTrip.RereadName` | src/parser/pprinter.cc:454-507 | And it declares the same name, or none |
| `DeclaratorForm.DeclaratorPrints` | src/parser/pprinter.cc:392-536 | Printing writes the tokens of the declarator, in order, and besides them parentheses only, as many pairs as there are stars, lists, names and nested declarators with lists, and further lists behind a nested declarator |
| `DeclaratorRoundTrip.ComesBackExactlyWhen` | src/parser/pprinter.cc:454-536 | Printing a declarator that the parser can return and reading it back leaves the rest of the input and gives the same name and the same type if and only if, in it and in all its parameters, no list without parameters stands behind a nameless pair of parentheses, and none with parameters does so where a name is required (`Printable`) |
| `DeclaratorPrinter.TypeComesBack` | src/parser/pprinter.cc:454-536 | One half of that for any printable declarator, also one that no parse returns: the rest of the input and, by helpConvert, the same type |
| `DeclaratorPrinter.EmptyListIsLost` | src/parser/pprinter.cc:488-507 | An abstract declarator with empty parentheses whose type does not come back |
| `DeclaratorParser.DeclaratorReader.TypeSpecifier` | src/parser/parser.cc:231-243 | Reads the base type |
| `DeclaratorParser.DeclaratorReader.ReadOne` | src/parser/parser.cc:731-757 | Reads the declarator that DeclaratorReadsExactlyWhen describes, or fails when there is none |
| `DeclaratorParser.DeclaratorReader.DirectDeclarator` | src/parser/parser.cc:764-819 | The part behind the stars |
| `DeclaratorParser.DeclaratorReader.DirectDeclaratorHelp` | src/parser/parser.cc:827-874 | The parameter lists behind it |
| `DeclaratorParser.DeclaratorReader.ParameterList` | src/parser/parser.cc:633-643 | Parameters between commas by loop |
| `DeclaratorParser.DeclaratorReader.ParameterDeclaration` | src/parser/parser.cc:682-693 | A base type, with a declarator if there is one |
| `DeclaratorParser.DeclaratorWriter.PrintOne` | src/parser/pprinter.cc:392-405 | Writes the tokens that TypeComesBack reads |
| `DeclaratorParser.DeclaratorWriter.PrintDirectDeclarator` | src/parser/pprinter.cc:454-507 | Dispatches on the kind of direct declarator |
| `DeclaratorParser.DeclaratorWriter.PrintIdentifier` | src/parser/pprinter.cc:454-476 | A name with its parameter lists, in parentheses when it has some |
| `DeclaratorParser.DeclaratorWriter.PrintNested` | src/parser/pprinter.cc:488-507 | A nested declarator |
| `DeclaratorParser.DeclaratorWriter.PrintHelp` | src/parser/pprinter.cc:509-536 | A parameter list |
| `DeclaratorParser.DeclaratorWriter.PrintParameter` | src/parser/pprinter.cc:478-485 | A parameter |
| `SemanticTree.Execute` | src/parser/semantic.cc:132-220 | Over every run of opening and closing scopes, announcing, completing and defining structs, declaring and looking up, the tree with its lazily cleaned stacks answers exactly as a plain chain of scope maps, rejections included; which answers these are, ScopeAnswers and ScopeRuns say by the earlier actions alone |
| `SemanticTree.Perform` | src/parser/semantic.cc:406-532 | One action answers and changes the abstract state as the plain chain does |
| `SemanticTree.Tree.constructor` | src/parser/semantic.cc:117-123 | Starts with one open scope |
| `SemanticTree.Tree.NewNode` | src/parser/semantic.cc:191-193 | A new active node below the current one: the plain chain gets an empty scope |
| `SemanticTree.Tree.AddChild` | src/parser/semantic.cc:132-194 | Opens a scope, or announces or defines a struct, or enters the scope of an announced one again, or rejects a redefinition, exactly as the plain chain does |
| `SemanticTree.Tree.GoUp` | src/parser/semantic.cc:196-200 | Closes the innermost scope of the plain chain; no stack is touched |
| `SemanticTree.Tree.DeleteNotActiveNodes` | src/parser/semantic.cc:214-220 | Cleaning the stack of a name changes no answer and leaves on top what the plain chain finds |
| `SemanticTree.Tree.DeleteNotActiveStructs` | src/parser/semantic.cc:150-160 | The same for structs |
| `SemanticTree.Tree.LookUpType` | src/parser/semantic.cc:517-532 | Finds what the plain chain finds, innermost scope first |
| `SemanticTree.Tree.HasStructDeclaration` | src/parser/semantic.cc:95-114 | True exactly when the plain chain has the struct |
| `SemanticTree.Tree.EnterFunction` | src/parser/semantic.cc:451-475 | One shared entry per function name: rejected exactly for another type or a second definition (over runs, ScopeAnswers.FunctionIsAcceptedExactlyWhen) |
| `SemanticTree.Tree.EnterName` | src/parser/semantic.cc:477-508 | A second declaration in one scope is accepted only for a function or at file scope, with the same type |
| `SemanticTree.Tree.AddDeclaration` | src/parser/semantic.cc:406-515 | Accepts, rejects and records exactly what the plain chain does; when it accepts, ScopeAnswers.FunctionIsAcceptedExactlyWhen, FirstIsAccepted and ScopeRuns.SecondIsAcceptedExactlyWhen say |
| `Scopes.PrunedTopIsFirst` | src/parser/semantic.cc:214-220 | If the nodes of a stack form an ancestor chain and the active nodes lie on the path from the root to the current one, then popping inactive entries leaves on top the innermost declaration on that path |
| `ScopeRuns.DeclaredHasType` | src/parser/semantic.cc:477-508 | What an accepted declaration stands for has a type compatible with the one declared |
| `ScopeRuns.SameScopeSameType` | src/parser/semantic.cc:477-508 | Over whole runs: any two accepted declarations of one name in one scope, whatever is opened, closed and declared between them, have compatible types and stand for one declaration |
| `ScopeRuns.SecondIsAcceptedExactlyWhen` | src/parser/semantic.cc:477-508 | Over whole runs: a second declaration of a variable in one scope is accepted if and only if it has the type of the first and is at file scope, or the scope is that of a completed announced struct |
| `ScopeRuns.FunctionsAgree` | src/parser/semantic.cc:451-475 | Over whole runs: any two accepted declarations of one function, in whatever scopes, have compatible types and stand for one declaration, and at most one of them is a definition |
| `ScopeAnswers.FunctionIsAcceptedExactlyWhen` | src/parser/semantic.cc:451-475 | Over whole runs: a declaration of a function, the first or a later one, in any scope, is accepted if and only if it has the type of every declaration of that function before it, at most one of them and it is a definition, and nothing else of its name was declared in its scope |
| `ScopeAnswers.FirstIsAccepted` | src/parser/semantic.cc:477-508 | Over whole runs: the first declaration of a name in a scope is accepted when it is no function |
| `ScopeAnswers.FirstIsNew` | src/parser/semantic.cc:477-515 | Over whole runs: the first declaration of a function, or of another name in its scope, has the type it declares and is none of the declarations that were made or found before |
| `ScopeAnswers.LookupExactlyWhen` | src/parser/semantic.cc:517-532 | Over whole runs: a lookup finds something if and only if an earlier declaration of the name is visible (its scope still open, not entered again), and then the one of the innermost such scope |
| `ScopeAnswers.OpeningIsAcceptedExactlyWhen` | src/parser/semantic.cc:132-194 | Over whole runs: a struct can be announced or defined if and only if nothing opened it in the same scope before, or something announced it there, or that scope was entered again |
| `ScopeRuns.MembersAreLost` | src/parser/semantic.cc:173-183 | After a struct was announced, its definition may declare one member twice with different types, and neither is found; without the announcement the second is rejected |
| `ScopeRuns.FoundAgainExactlyWhen` | src/parser/semantic.cc:173-183 | Over whole runs: a lookup in the scope of a declaration finds that declaration if and only if the scope was not entered again, or the declaration is one of a function that was visible before |
| `ScopeRuns.ReenteredExactlyWhen` | src/parser/semantic.cc:163-188 | Over whole runs: the scope opened for a struct is one entered again if and only if an earlier action announced the struct in the same scope, itself not entered again |
| `Lexer.Tokenize` | src/lexer/lexer.cc:370-402 | The tokens of a whole file, with their positions, and the end or the error that they stop at, with its position, are those of the specification: skip space and comments, take the longest word, number or punctuator, with line and column of a naive scan in which LF, CR and CRLF are one newline; LexerLaws says of each part where it ends |
| `LexerSpec.PunctuatorsAre` | src/lexer/lexer.cc:21-28 | The predicate on characters describes exactly the set of punctuators |
| `LexerSpec.LongestIsLongest` | src/lexer/lexer.cc:48-112 | The length used by the specification is that of the longest prefix in the set (section 6.4 paragraph 4 of C11) |
| `LexerSpec.NoLonger` | src/lexer/lexer.cc:48-112 | A prefix that is neither a punctuator nor one of the two partial ones has no longer punctuator behind it |
| `Lexer.FallsBack` | src/lexer/lexer.cc:48-112 | When two dots or a percent-colon-percent do not become a longer punctuator, the longest one is exactly one character shorter |
| `LexerLaws.CommentEndExactlyWhen` | src/lexer/lexer.cc:124-135 | A block comment ends behind the first star-slash that does not overlap its opening, and is unclosed exactly when there is none |
| `LexerLaws.LineEndExactlyWhen` | src/lexer/lexer.cc:136-142 | A line comment ends behind the first newline, or with the file |
| `LexerLaws.SkipExactlyWhen` | src/lexer/lexer.cc:370-402 | A token is looked for at a place if and only if one can start there and what lies between is a sequence of spaces, block comments and line comments; an unclosed comment and the end of the file are found in the same way |
| `LexerLaws.WordExactlyWhen` | src/lexer/lexer.cc:305-322 | A word ends exactly where the longest run of letters, digits and underscores does; it is a keyword if it is one of the listed words and does not end the file |
| `LexerLaws.NumberExactlyWhen` | src/lexer/lexer.cc:341-366 | A 0 is a token of its own, whatever digit follows; any other number is the longest run of digits; a letter directly behind either is an error at the place of the letter |
| `LexerLaws.OtherExactlyWhen` | src/lexer/lexer.cc:370-402 | Elsewhere a quote starts a character constant or string, and otherwise the longest listed punctuator is taken, or the character is illegal exactly when none fits |
| `LexerLaws.NormalIs` | src/lexer/lexer.cc:433-465 | LF, CR and CRLF are one newline each, and no other character changes |
| `LexerLaws.PositionIs` | src/lexer/lexer.cc:433-485 | The line is one more than the newlines before a place, the column the number of characters since the last of them |
| `LexerLaws.CharactersAre` | src/lexer/lexer.cc:158-167 | Spaces, digits and letters by their codes |
| `Lexer.FileTracker.constructor` | src/lexer/lexer.cc:427-431 | Starts at line 1, column 0, before the text with its newlines normalised |
| `Lexer.FileTracker.Advance` | src/lexer/lexer.cc:433-465 | Takes one character of the normalised text; line and column stay those of a naive scan |
| `Lexer.FileTracker.Rewind` | src/lexer/lexer.cc:467-485 | After an advance, restores the remaining input and the position |
| `Lexer.TokenLexer.ConsumeWhitespace` | src/lexer/lexer.cc:158-167 | Skips to the next character that is no space |
| `Lexer.TokenLexer.ConsumeComment` | src/lexer/lexer.cc:118-156 | Skips a comment, fails if it is not closed, and gives a lone slash back |
| `Lexer.TokenLexer.BlockComment` | src/lexer/lexer.cc:118-156 | Ends behind the first star-slash, and says when there is none (LexerLaws.CommentEndExactlyWhen) |
| `Lexer.TokenLexer.LineComment` | src/lexer/lexer.cc:118-156 | Ends at the end of the line |
| `Lexer.TokenLexer.ConsumeIdent` | src/lexer/lexer.cc:305-322 | The longest word; a keyword unless it ends the file |
| `Lexer.TokenLexer.ConsumeDecimal` | src/lexer/lexer.cc:324-339 | The longest run of digits |
| `Lexer.TokenLexer.ConsumeIdentOrDecConstant` | src/lexer/lexer.cc:341-366 | A word or a number, or nothing consumed |
| `Lexer.TokenLexer.ConsumePunctuator` | src/lexer/lexer.cc:48-112 | Maximal munch with one character of lookahead and a carried partial token: takes the longest punctuator of the logical remaining input, wherever the previous call stopped |
| `Lexer.TokenLexer.ConsumePartial` | src/lexer/lexer.cc:48-112 | Completes or falls back from a partial token |
| `Lexer.TokenLexer.CarryOver` | src/lexer/lexer.cc:48-112 | Returns the shorter token and keeps what was read too far, with its position |
| `Lexer.TokenLexer.GetNextToken` | src/lexer/lexer.cc:370-402 | The next token of the specification from the logical position, which moves behind it |
| `Lexer.TokenLexer.SkipSpace` | src/lexer/lexer.cc:370-402 | Alternating space and comments until a token starts |
| `Lexer.TokenLexer.ReadToken` | src/lexer/lexer.cc:370-402 | The token at the current character |

## Left out

- Faithful.GraphMeansC: not for a continue in a while loop whose condition is not constantly true, nor for the value of a logical operator; for those the exact condition is proved one step at a time, not over whole bodies.
- Preservation.GraphMeansFunction: not for a break or continue whose points are another loop's; `JumpsReachTheirLoopsExactlyWhen` says which those are.
- BranchRanks.PassEndsOnFunction: for functions without the value of a logical operator, for whose and, or and xor the pass may store unset records (see VisitBinaryOperator); that their branches rise (`BranchesRise`) and that they have no cycle of conditional branches (`NoCycleInFunction`) is proved for all functions.
- SccpExit.SettledIsClosedExactlyWhen: starts from settled tables, which an empty queue does not imply, as `BlockIsMissed` shows; `SettledExactlyWhen` says when it does. Closed tables are enough for folding to be right but not necessary: a lost 0 that nothing uses does no harm.
- SccpOrder.OrderedRunSettles: the check on branches and the order of the blocks is sufficient, not necessary; the exact condition, `SettledExactlyWhen`, is about the run.
- DeclaratorRoundTrip.ComesBackExactlyWhen: for declarators that have a type (`Convertible`), and not for nameless parentheses alone, for which nothing is printed (`Blank`).
- Lexer.TokenLexer.GetNextToken: a quote starts a character constant or string, where the model stops; escapes are not modelled.
- SccpPass.Transition.VisitBinaryOperator: add, sub and mul. For an and or or whose unknown operand is not decided by the other, and for a xor of constants, the pass stores a record it has not set, so there is no function to model; what it does set for and, or and xor is compared with the machine in `SccpFold`.
- Memory is one named slot for each variable (names that hide each other are different slots), a slot never stored to reads as 0, and there is no mem2reg; alloca is not an instruction.
- Signed overflow wraps around in both meanings, where C11 leaves it open; operands are evaluated from left to right.
- LLVM's IRBuilder folds constants while it inserts; the model keeps the instructions.
- Pointers, structs, strings, calls, char widths, casts and global variables in code generation and in the pass.
- Integer constants outside the range of int, which the generator rejects; character and null pointer constants.
- The label map is not cleared between the definition and the body of an announced function; every function of the model starts with an empty one.
- The value field that the pass leaves unset in some top entries is taken as 0; looking up an unknown block throws.
- In tearDownInsts: deleting users of bottom values, debug output and assertions; users of a value are taken in block order.
- Declarations inside statements, function definitions and translation units in parser and printer; struct specifiers with bodies; sizeof of derived or struct types.
- Type checks made while parsing, and the checks of labels and gotos; the typing rules of expressions.
- The spaces, newlines and indentation that the printer writes: round trips are over tokens, and over texts with any layout of them (`Spelling`).
- Identifier lists of old-style function declarators.
- Structs that contain themselves, incomplete and invalid types, names inside structs and the order of members, nameless declarations.
- Characters outside ASCII and the locale in the lexer.
- Error messages, diagnostics, the command line.
