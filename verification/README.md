# A verified model of the Vix compiler's core passes

Vix is a self-hosted compiler: most of it is written in Vix (`src/*.vix`), with helpers in C
(`src/helper.c`, `src/runtime.c`). This project restates the passes that carry the meaning of
a program and proves what they promise. Code that works step by step on shared state (the
block builder, the parser with its arenas, the scope arrays, the module merger, the desugarer,
the lexer, the text scanners, the runtime array) is a class or a method with loops; each
method is tied to a function of the old state, and the theorems are about those functions.

* **Control-flow lowering** (`Source`, `Ir`, `Arithmetic`, `Codegen*`, `Renaming`, `RenamedMeaning`):
  statements become basic blocks. A big-step semantics of the source and a step semantics of the
  blocks agree on every run, in values and in everything that is printed and called, in its order,
  for declarations that shadow others too, as long as each name that is used finds the same
  declaration by scopes and in the flat variable table.
* **Scalar optimisation of the middle form** (`Mir*`): in the text of each line, copies and
  constants are propagated, branches folded, unused assignments dropped. Every run keeps its
  effects.
* **Expressions** (`Syntax`, `Parsing*`, `Precedence`, `PipeTrees`, `ExprParser`, `ExprArena`,
  `Printing`, `Debugging`): the parser accepts exactly a grammar, the grammar has one reading, its
  operators bind as a written list says, and the printers and the parser undo each other exactly
  where a condition on the tree holds.
* **Modules** (`Arena`, `Modules`, `MergedNames`, `ModuleLoader`, `Mangling`): merging relocates
  indices between two arenas and keeps every tree and keeps names apart; mangled names can be read
  back.
* **Scopes** (`Scoping`, `Flat*`, `Semantic*`, `Scope*`, `MatchRules`, `Unused*`, `Diagnostics`): flat
  reused arrays are a stack of scopes, no error is counted exactly when the program is well scoped,
  and the warnings are exactly those for the declarations that nothing uses.
* **Variants** (`Adt*`, `MatchCover`): constructors become records with lanes, matches become chains
  of tests, and running the result gives what the match gives, exactly for the arms that meet a
  condition on nested patterns and bare expressions.
* **Lexer and positions** (`Lexing`, `LexingRules`, `Lexer`, `TokenPlaces`, `Positions`): tokens lie in
  order, only blanks and comments lie between them, any text written as a literal is read back, and
  each token has the line and column of its start, and is found there by diagnostics, exactly under
  a condition on the tabs and line feeds before it.
* **Smaller codecs and runtimes** (`Types`, `Type*`, `RuntimeArray`, `Brackets`, `Brainfuck*`,
  `JsonEscape`).

`dafny verify dfyconfig.toml` checks the whole project.

## Model

| member | source | states |
|---|---|---|
| CodegenMeaning.LoweringPreservesMeaning | src/codegen.vix:948-1242 | For every function in which each name that is used finds the same declaration by scopes and in the flat variable table, shadowing or not, every list of arguments, and whatever calls are answered with, depending on all that happened before: the source function returns a value, having printed and called the same things with the same arguments in the same order, exactly when the emitted blocks halt so; so one runs forever exactly when the other does, and the blocks never reach an open block, an unset slot or a missing target. |
| CodegenNames.SlotStaysExactly | src/helper.c:701-753 | Lowering a statement leaves the slot of a name in the table as it was exactly when no `let` and no range loop that it emits carries the name; declarations behind a jump are not emitted. |
| CodegenRenaming.GoodIsExact | src/helper.c:701-753 | If the names counted as found are exactly those whose table entry is the slot of the declaration in scope, they are so again after any statement, with `let` putting its own declaration into scope. |
| CodegenMeaning.CallRenamed | src/codegen.vix:948-1242 | With every declaration given a name of its own, such a function returns what it returned and prints and calls what it did, for all arguments and answers, or runs on as it did. |
| CodegenMeaning.LoweredAlike | src/builder.vix:919-940 | And it is lowered to the very same blocks, so slots do not depend on how declarations are named. |
| CodegenMeaning.ScopedFunctionIsFound | src/helper.c:701-753 | In a function without shadowing every used name finds its declaration. |
| CodegenFunction.ScopedLoweringPreservesMeaning | src/codegen.vix:948-1242 | The same equivalence for functions without shadowing, by simulation of each statement; the general one is reduced to it. |
| CodegenFunction.FunctionIsComplete | src/codegen.vix:1374-1383 | Emission never writes after a terminator or into a missing block, and at the end of a function every appended block has a terminator. |
| CodegenCorrect.SimStmt | src/codegen.vix:948-1242 | One statement at any place in a function: the emitted blocks reach the same store, have printed and called the same, and stop where the outcome says, whether falling through, at the break or continue target, or with the returned value, and they change no slot of an older variable but as the source does. |
| CodegenShape.StmtExt | src/builder.vix:733-754 | Lowering a statement from an open block only extends: finished blocks stay as they are, and among the new blocks the current one alone may be left open. |
| CodegenTable.StmtTable | src/helper.c:701-753 | Without shadowing, lowering a statement leaves the slot of every name that was in scope as it was. |
| CodegenSim.SimExpr | src/codegen.vix:270-360 | The blocks emitted for an expression, `and`, `or`, `if` and calls included, run to the value that the expression has and make its calls and no others, in order: operands from left to right, the right operand of `and` and `or` only when the left one does not decide, and one branch of an `if`. |
| CodegenSim.SimArgs | src/codegen.vix:640-665 | The arguments of a call are evaluated from the first to the last, and each still has its value when the call is made. |
| CodegenShadowing.ShadowingIsMiscompiled | src/helper.c:701-753 | A function that declares a name again in an inner block and uses the outer one behind it returns 1 by its meaning and 2 as emitted; it does not meet the condition. |
| CodegenShadowing.ShadowingMayBeHarmless | src/helper.c:701-753 | The same function without that use meets the condition. |
| CodegenBuilder.LlvmBuilder.CodegenFunction | src/codegen.vix:1251-1390 | The builder's fields after emitting a function are those of the lowering that the theorems are about. |
| CodegenBuilder.LlvmBuilder.CodegenStmt | src/codegen.vix:948-1242 | Emitting a statement in place, with its mutable current block, counters and variable table, gives the lowering of the statement in the old state. |
| CodegenBuilder.LlvmBuilder.CodegenFor | src/codegen.vix:1095-1138 | A range loop evaluates its end once, tests in its condition block and sends `continue` to its step block. |
| CodegenBuilder.LlvmBuilder.CodegenWhile | src/codegen.vix:1066-1094 | A while loop in place is the lowering with condition, body and end blocks. |
| CodegenBuilder.LlvmBuilder.CodegenIf | src/codegen.vix:1139-1170 | A conditional in place is the lowering in which only branches left open jump to the end. |
| CodegenBuilder.LlvmBuilder.CodegenMatch | src/codegen.vix:1171-1217 | A match in place tests its patterns in order and ends with its wildcard. |
| CodegenBuilder.LlvmBuilder.CodegenLogical | src/codegen.vix:311-360 | Short-circuit operators in place are the lowering with a slot for the result. |
| CodegenBuilder.LlvmBuilder.CodegenArgs | src/codegen.vix:640-660 | The loop that emits and pushes the arguments one after the other is the lowering of the list. |
| CodegenBuilder.LlvmBuilder.DefineVar | src/builder.vix:919-940 | Defining a variable allocates a slot, stores into it and makes it the latest entry for its name. |
| Arithmetic.DivisionIsExact | src/runtime.c:123-131 | Quotient and remainder of the guarded division are the only numbers with dividend = quotient times divisor plus remainder, a remainder smaller than the divisor, and the sign of the dividend; both are 0 for a zero divisor and for the quotient that does not fit. |
| Arithmetic.SumsWrap | src/codegen.vix:380-394 | Sums, differences and products are 32-bit numbers that differ from those of the integers by multiples of 2^32. |
| Arithmetic.ResultsFit | src/runtime.c:123-131 | Every operator gives a 32-bit number for 32-bit numbers, division included. |
| MirWhole.MirOptAndPrint | src/helper.c:422-530 | In place on the texts of a function's lines, and printing those that stay: for every meaning of words and operations, environment, memory and trace of effects, the function read from the texts before halts with the trace exactly when the one read from the printed texts does. |
| MirWhole.TheTextKeepsItsMeaning | src/helper.c:422-530 | The same for any texts that spell the rewritten lines and any greatest closed set of them. |
| MirWhole.WholePassIsExact | src/helper.c:422-481 | For strict single-assignment functions whose indirect calls give values that are used: the function halts with a trace of effects exactly when the printed result of the whole pass halts with that trace. |
| MirWhole.WholePassPreservesMeaning | src/helper.c:422-481 | For the same functions every run, halting or not, is matched by a run of the printed result with the same stores, calls, branches and memory, and the result takes a step for at most every number of lines plus one of the function's. |
| MirWhole.IndirectCallsAreKept | src/helper.c:452-474 | If a branch, store or return of the input uses the value of each indirect call, the pass drops no call. |
| MirOpt.PassPreservesMeaning | src/helper.c:422-481 | The same as for the whole pass under the weaker condition that the lines dropped are no calls. |
| MirTextPass.MirOptFunction | src/helper.c:422-481 | In place on the array of texts: they spell the propagated and folded lines afterwards, and the marks left are the greatest set of lines in which every removable assignment is used by another. |
| MirTextPass.PropagateInPlace | src/helper.c:426-451 | One forward pass in place: each text spells its line rewritten by the aliases collected from the texts before it. |
| MirTextPass.EliminateInPlace | src/helper.c:452-474 | The fixpoint loop ends and leaves the greatest closed subset of the lines it started with. |
| MirTextPass.Sweep | src/helper.c:454-474 | One sweep keeps every closed set, removes at least one line if it reports a change, and has reached a closed set if it does not. |
| MirOpt.PrintedRuns | src/helper.c:483-530 | Printing only the marked lines keeps every run: labels are found at their new places, and dropped lines cost no effect. |
| MirOpt.IndirectCallsAreDropped | src/helper.c:460 | A call through a value whose result nothing uses is dropped, with its effect. |
| MirPreservation.PropagationPreservesRuns | src/helper.c:426-451 | For strict single assignment, in loops as well, the propagated function and the original are in the same state after every number of steps. |
| MirPreservation.PropagationResolves | src/helper.c:426-451 | If the copies are reachable: no stored alias value is an alias name collected before it or its own, so a rewritten line mentions no alias collected so far. |
| MirConstants.NothingReadsConstants | src/helper.c:379-451 | Behind the pass no later line reads a name that a `copy`, or a `const` of one of ten integer types written out, defines, for strict single assignment and reachable copies. |
| MirConstants.BranchesAreFolded | src/helper.c:392-420 | A branch whose condition is `1` or `true` by then is the jump to its first label, with `0` or `false` to its second, and with anything else stays as it is. |
| MirConstants.NoConstantBranchIsLeft | src/helper.c:392-420 | So no branch on one of these four constants is left. |
| MirDce.EliminationIsExact | src/helper.c:452-474 | Dropping lines leaves every prefix of a run the same exactly when the run performs no dropped call. |
| MirDce.GreatestIsUnique | src/helper.c:452-474 | The surviving set does not depend on the order of the sweeps. |
| MirDce.EliminationIsIdempotent | src/helper.c:452-474 | Eliminating again drops nothing. |
| MirConstants.KeptExactly | src/helper.c:452-474 | A line survives exactly when it assigns nothing, calls by `call` or `syscall`, or defines a name that another surviving line reads. |
| MirDominance.RedefinitionEndsCopies | src/helper.c:426-451 | If a reached line dominates another, that other one does not dominate the line that comes next: once a source is assigned again, its old copies are out of reach, in loops as well. |
| MirSpelling.ReplacedReads | src/helper.c:430-443 | Replacing a name in the text behind the first `=` (or in all of it) gives a text that is read as the line with that name replaced, and that is fit for the next replacement. |
| MirSpelling.AliasReads | src/helper.c:379-390 | The two fields that are read behind `copy ` and `const `, with their limits of 31 and 127 characters, give a value exactly when the line is a copy, and its value. |
| MirSpelling.CallReads | src/helper.c:459-460 | The test for `call ` and `syscall ` on the text is the test on the line. |
| MirFolding.FoldReads | src/helper.c:392-420 | Cutting a conditional branch at its commas and writing the jump gives a text that is read as the folded line; every other text stays. |
| MirPieces.PiecesReplaced | src/helper.c:323-360 | Replacing a name in any text replaces the pieces that are the name, with numbers and their signs kept together and blanks only separating. |
| MirTextPass.CopyIsRead | src/helper.c:362-390 | For every indentation, destination, type and value: what is printed for a copy is read as that copy and is text the pass is meant for. |
| MirTextPass.MirAliasValue | src/helper.c:379-390 | The reading of a copied value, in the order of its tests. |
| MirTextPass.MirFoldBranch | src/helper.c:392-420 | The folding of a branch in the text, with each of its early returns. |
| MirText.ReplacingWholeTokens | src/helper.c:295-360 | Replacing and searching by characters, on any line and for any name, changes and finds exactly the whole words outside quoted strings; nothing else of the line changes. |
| MirConstants.AWordIsARun | src/helper.c:253-256 | A word is a run of letters, digits, `_`, `.`, `%` and `@`, as long as it can be. |
| MirConstants.AQuoteIsWhole | src/helper.c:323-360 | A quoted string is one piece, up to the next quote. |
| MirText.MirReplaceTokenText | src/helper.c:323-360 | The replacing loop over characters. |
| MirText.MirContainsTokenText | src/helper.c:304-321 | The searching loop over characters. |
| Printing.ParserRecognisesTheGrammar | src/parser.vix:136-515 | At any place of any token stream, with a token behind it that ends an expression: parsing returns a syntax tree exactly when that tree spells those tokens, fits the grammar and holds no name that looks like a generic call. Which operators bind tighter in that grammar is what the rows of `Precedence` say. |
| Precedence.LaterLevelsBindTighter | src/parser.vix:197-343 | With the operators of nine levels written out, from `or` to `*`, and any operands, literals, calls or prefixed ones: of two operators of different levels the one of the later level takes its operands first, on either side. |
| Precedence.OneLevelGroups | src/parser.vix:197-343 | Two operators of one level group to the left, two `??` to the right. |
| Precedence.ComparisonsEnd | src/parser.vix:267-289 | Of two comparisons the expression ends in front of the second. |
| Precedence.OperandEnds | src/parser.vix:345-441 | An operand by itself is read whole. |
| PipeTrees.PipesAreLoosest | src/parser.vix:136-195 | For every operator: `a op b` piped into `f` and then into `g` has the tree of `g(f(a op b))`. |
| PipeTrees.PipesAreCalls | src/parser.vix:136-195 | Piping `l` into `f` has the tree of `f(l)`, and into `f(x, y)` that of `f(l, x, y)`, for any arguments. |
| Printing.TheGrammarIsUnambiguous | src/parser.vix:136-515 | Two syntax trees of the grammar with the same tokens, and without names that look like generic calls, are the same. |
| Printing.LayoutRoundTrips | src/parser.vix:136-515 | Printing any printable tree with as few parentheses as its levels allow, or with all, and parsing the tokens consumes just them and gives the tree back. |
| Debugging.DebugRoundTripsIffUnbased | src/ast.vix:534-559 | For every printable tree: parsing what the debugging printer prints consumes it all and gives the tree back exactly when no `@e` or `&x` stands directly in front of an index, slice or field anywhere in the tree. |
| Printing.ParsingUndoesDebug | src/ast.vix:534-559 | The half of the round trip for trees without such bases. |
| Printing.DebugConfusesDerefs | src/ast.vix:534-559 | For all `e` and `i`, the trees of `(@e)[i]` and `@(e[i])` differ and are printed alike. |
| Debugging.RotatedIsUnbased | src/ast.vix:534-559 | Moving each such `@` outwards gives a tree that is printed alike and is free of such bases, and it is the tree itself exactly when the tree was free of them. |
| Debugging.NoLentRoundTrip | src/ast.vix:534-559 | A tree with `&x` in front of a bracket or dot never comes back: the parser stops before the bracket. |
| Printing.AQuotedParenthesisEndsTheCall | src/parser.vix:789-1101 | In any token stream, a call whose first argument is the string `)` is read as a call without arguments. |
| Printing.AQuotedBracketEndsTheArray | src/parser.vix:1066-1086 | An array literal whose first element is the string `]` is read as an empty one. |
| ExprParser.Parser.ParseExpressionAt | src/parser.vix:136-195 | From any state without a failure: the parser ends where the grammar's parser ends, and the arena, which has only grown, holds the tree at the returned index with every child below its parent; or the first failure is recorded where it happened. |
| ExprParser.Parser.ParseBinaryAt | src/parser.vix:197-343 | The same for the loops of all binary levels, whose operators `Precedence` writes out. |
| ExprParser.Parser.ParsePostfixContinue | src/parser.vix:443-515 | The same for the loop over fields, indices, slices and calls. |
| ExprParser.Parser.ParserFail | src/parser.vix:70-103 | Only the first failure is recorded. |
| ExprArena.TreeKept | src/ast.vix:54-70 | Appending to the arena changes no tree that is in it. |
| Parsing.ParseExpression | src/parser.vix:136-195 | Parsing ends, and on success has moved past at least one token and not past the end. |
| Modules.MergeKeepsFunctions | src/module.vix:626-754 | Whatever modules are merged before and after: every function of a module is in the merged program at its place; it is called by the path of its module below `root`, `::` and its own name, and by its own name below `root::sys` and in the root; and its body at the shifted index decodes to the tree the module had. |
| Modules.MergeKeepsGlobals | src/module.vix:626-754 | The same for the names and values of globals. |
| MergedNames.FunctionNamesExact | src/module.vix:484-509 | Two functions of a merged program have the same name exactly when they have the same own name and come from the same module, or both from the root or below `root::sys`. |
| MergedNames.GlobalNamesExact | src/module.vix:484-509 | The same for two globals. |
| MergedNames.NamesExact | src/module.vix:484-509 | The same for any two names that are given in that way to words and module paths. |
| Modules.MergeKeepsEarlier | src/module.vix:626-754 | Everything merged so far, the root program first, decodes to the same trees in the end. |
| Modules.MergedFunctionHasASource | src/module.vix:626-754 | Every function of the merged program is one of the root's or the relocated form of one of a loaded module's. |
| Modules.MergeKeepsSane | src/module.vix:548-623 | Relocation leaves block ranges well formed. |
| Arena.EmbeddedTree | src/module.vix:511-623 | A tree over two mutually referring arenas is the same when both are embedded in larger arenas and every reference, by the fields its tag uses, is shifted by the offset of its own arena. |
| ModuleLoader.ModuleGraphLoadAll | src/module.vix:626-754 | On the heap, with argument arrays shifted in place: if each nonempty array belongs to one node, as the parser leaves it, the merged program is the value-level merge. |
| ModuleLoader.MergeExprs | src/module.vix:511-546 | Merging expressions in place, where each nonempty array belongs to one node, appends the relocated nodes and leaves the others alone. |
| ModuleLoader.MergeStmts | src/module.vix:548-623 | Merging statements in place, under the same condition, appends the relocated nodes and leaves the others alone. |
| Mangling.ManglingIsInjective | src/module.vix:381-434 | Qualified names of identifier segments have the same symbol exactly when they are the same, unmangled root names that do not begin with `_V` included. |
| Mangling.DemangleMangled | src/module.vix:381-434 | The segments of a mangled name can be read back from its lengths. |
| Mangling.RootNamesStay | src/module.vix:419-434 | Names without a separator are not mangled. |
| Mangling.MangleNameOf | src/module.vix:381-417 | The loops that split the module path and write lengths in decimal. |
| Mangling.MangleFlatName | src/module.vix:419-434 | The search for the last separator. |
| ScopeTraversal.CheckerAcceptsExactlyTheWellScoped | src/semantic.vix:774-805 | With the count of errors at zero before: it is zero after checking a function body exactly when the body is well scoped by a declarative relation, despite dropped duplicates and the limit on diagnostics. |
| ScopeTraversal.TraversalRestoresScopes | src/semantic.vix:648-772 | Checking any statement leaves the same number of scopes, keeps each older binding and its mutability, and never takes an error back. |
| ScopeTraversal.ExprStep | src/semantic.vix:437-592 | Checking an expression counts an error exactly when one of its uses, calls, literals, matches or captures is wrong, and leaves the names in scope. |
| ScopeTraversal.StmtMove | src/semantic.vix:648-746 | Checking a statement counts an error exactly when it is not well scoped, and declares exactly the names that the relation says. |
| MatchRules.BindersAre | src/semantic.vix:622-646 | A pattern declares the name in `Some(name)`, or those arguments of a constructor pattern that are names, and nothing else. |
| MatchRules.ExhaustiveIs | src/semantic.vix:356-388 | A match passes the test exactly when it has a wildcard, or when every variant of the type of the first variant named is the text of some pattern. |
| MatchRules.ATextCountsAsAVariant | src/semantic.vix:356-388 | A string pattern that is spelled like a variant counts as that variant. |
| MatchCover.NamedIsTaken | src/semantic.vix:356-388 | For patterns of one type with nothing but names inside: every value of the type is taken by an arm exactly when every variant is named. |
| MatchCover.ANumberInAVariantIsNotCovered | src/semantic.vix:356-388 | With a number inside, the variant counts as named, and the match does nothing for every other number. |
| SemanticTraversal.SemanticCheckFunctionBody | src/semantic.vix:774-805 | On the flat arrays and the shared report: the traversal of a function body leaves the report, errors and warnings, that the stack of frames leaves. |
| UnusedTraversal.WarningsAreForTheUnused | src/semantic.vix:126-160 | For a well scoped body and warnings on: a warning is recorded for exactly those declarations in it, by `let`, range loop or pattern, to whose name no use in the rest of their scope resolves, by a relation on the text that knows no marks; with the name and place of the declaration, and up to dropped repeats. With warnings off nothing is recorded. |
| UnusedCalls.TheUnusedAreReported | src/semantic.vix:126-160 | So every declaration that is neither used nor called is reported. |
| UnusedTraversal.ACalledVariableIsReported | src/semantic.vix:437-592 | In `{ let f = 1; f() }`, which is well scoped, `f` counts as unused, although it is called. |
| SemanticTraversal.SemanticCheckStmt | src/semantic.vix:648-746 | Checking a statement in place refines checking it on the stack of frames. |
| SemanticTraversal.SemanticCheckExpr | src/semantic.vix:437-592 | Checking an expression in place refines checking it on the stack of frames. |
| SemanticTraversal.SemanticCheckBlockStmtInCurrentScope | src/semantic.vix:748-772 | The same for a body that shares the scope of its owner. |
| SemanticTraversal.SemanticDeclareMatchBinding | src/semantic.vix:622-646 | The bindings of a pattern are declared in place as on the frames. |
| SemanticTraversal.SemanticMatchCheckExhaustive | src/semantic.vix:356-388 | The report of missing variants, found by nested loops, is that of the list of missing names. |
| SemanticScopes.SemanticScope.Truncate | src/semantic.vix:121-124 | Lowering the active length drops the newest frame and no other. |
| SemanticScopes.SemanticScope.Append | src/semantic.vix:200-234 | A binding written over a stale slot or after the end is the newest of the newest frame. |
| SemanticScopes.SemanticScope.Lookup | src/semantic.vix:177-189 | The backward scan finds the innermost binding. |
| SemanticScopes.SemanticScope.FindCurrent | src/semantic.vix:165-175 | The scan for a binding of the current depth finds one exactly when the newest frame has it. |
| SemanticScopes.SemanticScope.MarkUsed | src/semantic.vix:277-284 | Only the innermost binding of the name is marked. |
| FlatScopes.FlatLookup | src/semantic.vix:177-189 | In the flattened stack, the last entry of a name is its innermost binding. |
| Diagnostics.FirstErrorIsRecorded | src/diag.vix:296-320 | The first error always passes the duplicate and limit tests, and from then on the count stays above zero. |
| AdtPreserved.StmLowered | src/desugar.vix:623-770 | For every statement in which each arm of a match meets the conditions of `AdtExact.NestedArmsExact` and `AdtExact.ExpressionArmsExact` and each pattern of other matches that of `AdtPatterns.PatternsStayExactly`, and every run that ends, range loops from their start to their end included: the lowered statement ends with the lowered outcome, variables and output. |
| AdtPreserved.ChainLowered | src/desugar.vix:474-499 | From any arm on, the chain of tests takes the arm that the match takes, binds what the pattern binds and runs to the same outcome. |
| AdtPreserved.TheFirstArmRuns | src/desugar.vix:69-108 | Building a variant and matching on it runs exactly the first arm that takes it, with the payload that was stored bound to the name. |
| AdtPreserved.CtorMakesRecord | src/desugar.vix:115-151 | The generated constructor function returns the record that represents the variant. |
| AdtPreserved.ExpLowered | src/desugar.vix:266-380 | A lowered expression has the lowered value; `if` expressions and fields have their own meaning, and calls, method calls, indices, slices and arrays any meaning at all that is given the lowered operands in their order. |
| AdtExact.NestedArmsExact | src/desugar.vix:441-499 | For an arm with a constructor pattern that has a pattern inside: its lowered form agrees with it, in test, bindings and outcome, for every subject, value, body and state, exactly when the inner pattern is a name, `_`, or a chain of constructors, each the only one of its type, that ends in no argument or `_`. |
| AdtExact.NestedPatternsExact | src/desugar.vix:441-499 | Its test alone agrees on every value exactly when the inner pattern is a name, `_`, or such a chain that may end in a name; and these are exactly the inner patterns that are names or take every payload. |
| AdtExact.ExpressionArmsExact | src/desugar.vix:464-472 | For an arm that is a bare expression and is taken: the lowered arm has the same outcome exactly when its pattern is a constructor name without parentheses. |
| AdtExact.TheNestedTestIsWrong | src/desugar.vix:474-499 | There are types and a nested pattern with a value on which the lowered test disagrees. |
| AdtExact.ANestedPatternIsNotTested | src/desugar.vix:474-499 | `match Wrap(X)` with arms `Wrap(Y)` and `_` takes the second arm, and its lowered form the first. |
| AdtExact.ANestedNameIsNotBound | src/desugar.vix:441-462 | `match Wrap(Only(5))` with the arm `Wrap(Only(y))` that returns `y` returns 5, and its lowered form what `y` was outside, although the test is right. |
| AdtExact.AnExpressionArmReturns | src/desugar.vix:464-472 | A match whose bare wildcard arm is an expression goes on, and its lowered form returns. |
| AdtPatterns.PatternsStayExactly | src/desugar.vix:474-517 | Patterns of a match without constructor patterns are not lowered: one that has a value keeps it, for all variables, exactly when no variant without parentheses stands in it. |
| AdtPatterns.AVariantInAPatternStaysAName | src/desugar.vix:501-517 | `match 1` with the arm `f(A)` goes to that arm where `f` gives 1, and its lowered form has no value for `A`. |
| AdtLanes.CallsBecomeRecords | src/desugar.vix:69-108 | A constructor applied is the record of the first type that has the variant: its place in the declaration, and the argument in the field of its type, for types and fields written out, with the other fields empty. |
| AdtLanes.ConstructorsReturnRecords | src/desugar.vix:115-151 | The constructor function returns that record of its parameter. |
| AdtLanes.ArmsReadTheirField | src/desugar.vix:441-462 | An arm that binds the payload reads the field it was put in, as a variable of the type stored there. |
| AdtLanes.LetsGetTheirType | src/desugar.vix:623-770 | A variable keeps the type it is declared with; without one it gets the type that declares the constructor it is set to, and with anything else none. |
| AdtLanes.BaseEnds | src/desugar.vix:4-7 | The name of a record is the type up to the first `[` or `:`. |
| AdtDesugar.Desugarer.DesugarStmt | src/desugar.vix:623-770 | The desugarer only appends to its arenas, and the node it returns decodes to the lowered statement. |
| AdtDesugar.Desugarer.MatchStmtFrom | src/desugar.vix:474-499 | The recursive construction of the chain, arm by arm, decodes to the lowered chain. |
| AdtDesugar.Desugarer.MatchBodyWithBinding | src/desugar.vix:441-462 | The arm with its binding decodes to the lowered arm: the payload is bound only when the nested pattern is a name that is no constructor. |
| AdtDesugar.Desugarer.AdtLiteral | src/desugar.vix:69-108 | The record literal has one value per lane, the payload in the lane of its type. |
| AdtDesugar.Desugarer.CtorFunction | src/desugar.vix:115-151 | The body of the generated constructor decodes to a return of that record. |
| AdtDesugar.Desugarer.DesugarExpr | src/desugar.vix:266-380 | The node returned for an expression decodes to the lowered expression. |
| AdtArena.StmKept | src/ast.vix:104-130 | Appending to both arenas changes no decoded statement. |
| Lexer.Tokenize | src/lexer.vix:220-525 | For ASCII source without carriage returns: the tokens are those of the scanner's definition, lie in order without overlap, and each has the line and column that count every character of a literal, and of a line comment at the end, as one column. |
| Lexing.NothingIsLost | src/lexer.vix:220-525 | Between the tokens lie only blanks and comments, each token is the text at its place, and the scan ends at the end of the source. |
| TokenPlaces.TokensArePlaced | src/lexer.vix:220-525 | A token has the line and column of its start exactly when no literal before it has a raw line feed, and for each raw tab in a literal of its line that is wider than one column a later tab of the line leads to the same column by either count. |
| TokenPlaces.TokensAreFound | src/diag.vix:127-162 | Diagnostics go back from a token to its start exactly when no literal before it has a raw line feed and its column is past that of the character in front of it. |
| TokenPlaces.EndIsPlaced | src/lexer.vix:220-525 | The end token has the place of the end of the source exactly when what precedes a line comment at the end is counted right and that comment has no tab in a column where a tab is wider than one. |
| TokenPlaces.EndIsFound | src/diag.vix:127-162 | Diagnostics find the end from the end token exactly when no literal has a raw line feed and the token's column is past that of the last character. |
| TokenPlaces.OnlyTheLastTabMayBeWide | src/diag.vix:127-162 | With the rest counted right, that is: exactly when no trailing line comment has a wide tab before its last character. |
| TokenPlaces.AFeedInALiteralMovesTokens | src/lexer.vix:220-525 | A literal with a raw line feed and a `+` behind it: the `+` is put in line 1, column 4, where diagnostics find the line feed. |
| TokenPlaces.TabbedCommentMovesTheEnd | src/lexer.vix:220-525 | The source `//`, tab, `x`: the end token says column 5, where diagnostics find offset 3 and not 4. |
| Lexer.NeedsSemicolon | src/lexer.vix:189-207 | A line feed becomes a semicolon by the last token and the next character that is no blank. |
| LexingRules.SemicolonsExactly | src/lexer.vix:178-207 | In terms of the source text: a line feed becomes a semicolon exactly when the last token is a name, a literal, a closing bracket, `break`, `continue` or `return`, and the first character behind blanks and comments is `}`, a quote, a letter, `_` or a digit. |
| LexingRules.SymbolsAreLongest | src/lexer.vix:455-515 | A symbol is the longest of sixteen operators written out that stands there, or one character. |
| LexingRules.WordsAreWhole | src/lexer.vix:208-215 | A word goes on as long as letters, digits and `_` do, and is a keyword exactly when it is one of thirty-one written out. |
| LexingRules.NumbersAreWhole | src/lexer.vix:425-455 | Digits go on as long as they can; a point with a digit behind it makes them a float with all the digits that follow, and otherwise ends them. |
| LexingRules.LiteralsReadBack | src/lexer.vix:357-395 | Every text, written between quotes with an escape for each character that needs one, is read back as the text of one token that ends behind the closing quote. |
| LexingRules.BlockCommentsEnd | src/lexer.vix:259-290 | A block comment ends behind the first end mark. Without one it ends with the source, but for the last character, if there is one behind the opening. |
| LexingRules.AnOpenCommentLeavesAName | src/lexer.vix:259-290 | The source of a slash, a star and an `x` is read as the name `x`. |
| Positions.PlaceRoundTrips | src/diag.vix:127-162 | For every offset of such a source, the scan for the offset's own line and column stops at the offset. |
| Positions.DiagOffsetAt | src/diag.vix:127-162 | The scanning loop over lines, tabs and both forms of line ends, for any line and column asked for. |
| Positions.TabsStopAtEights | src/lexer.vix:237-240 | A tab goes to the first column behind its own that is one past a multiple of eight. |
| TypeTexts.FunctionTypesDecode | src/builder.vix:302-349 | For every list of parameter types and result type, function types included: closing bracket, parameters and result are found in the printed text. |
| TypeTexts.GenericArgumentsDecode | src/ast.vix:575-659 | The arguments of a generic type are counted, and found up to blanks, exactly when no function type among them has a comma that no bracket encloses. |
| TypeTexts.AFunctionArgumentIsSplit | src/ast.vix:575-659 | A function type with two parameters as the only argument is counted as two. |
| TypeTexts.TypeFunctionParams | src/builder.vix:317-337 | The loop that splits parameters at outer commas. |
| TypeTexts.AstGenericArgAt | src/ast.vix:615-659 | The loop that collects one argument. |
| TypeParsing.SpelledIsParsed | src/parser.vix:1702-1810 | Every type whose tokens stand at a place is read back from there, whole and unchanged. |
| TypeParsing.ParsedIsWellFormed | src/parser.vix:1702-1810 | Every type read from a stream whose names are words is well formed. |
| TypeParser.ParseTypeText | src/parser.vix:1702-1810 | The parser's text for a type is the printed form of the type read, from any state without a failure; or it has recorded the failure. |
| TypeIdentity.SameTexts | src/parser.vix:1702-1810 | Two well formed types have the same text exactly when they are the same up to writing `ref [x]` as `ptr:[x]`, anywhere inside. |
| TypeIdentity.APointerToASliceLooksGeneric | src/parser.vix:1702-1810 | These two have the same text for every `x`, and are different types. |
| TypeSubstitution.SubstitutionIsInstantiation | src/desugar.vix:804-831 | Substituting in the text of a type gives the text of the substituted type exactly when the words that are no whole type names (path segments, lifetimes, keywords) are no parameters that would change them. |
| TypeSubstitution.ALifetimeIsReplaced | src/desugar.vix:804-831 | In `&'a a` with parameter `a`, the lifetime is replaced too. |
| TypeSubstitution.GenericSubstituteType | src/desugar.vix:804-831 | The token-building loop. |
| RuntimeArray.VixArrayPushRaw | src/runtime.c:71-87 | A push appends the element and keeps the others; it fails only for want of memory or beyond the limits of its integers, and then changes nothing. |
| RuntimeArray.VixArrayReserveForPush | src/runtime.c:45-69 | There is room for one more, the contents are kept, and no size computation overflows. |
| RuntimeArray.VixArrayGrownCapacity | src/runtime.c:30-43 | Capacity doubles to at least what is needed within `int`. |
| RuntimeArray.VixArraySliceBytes | src/runtime.c:101-121 | A slice is a fresh array of the clamped range, or null when it is empty. |
| RuntimeArray.PushAll | src/runtime.c:71-87 | Any number of pushes up to 2^30 onto nothing holds exactly the values, and has copied at most two elements for each. |
| RuntimeArray.CopyingIsLinear | src/runtime.c:30-43 | The bound on copies, for every number of pushes up to 2^30. |
| Brackets.BalancedIffAllFound | examples/brainfuck.vix:131-159 | A program is balanced exactly when each bracket finds a partner. |
| Brackets.SearchesAreInverse | examples/brainfuck.vix:85-129 | Forward search takes `[` to a `]` exactly when backward search takes that `]` to the `[`. |
| Brackets.ValidateBrackets | examples/brainfuck.vix:131-159 | The counting loop accepts exactly the balanced programs. |
| Brainfuck.RunsAreSound | examples/brainfuck.vix:161-224 | After any number of steps of a balanced program the data pointer is on the tape, every cell is within 0 to 255, and no jump has failed. |
| BrainfuckCommands.CountingWraps | examples/brainfuck.vix:161-224 | `+` and `-` change the cell of the pointer by one, around 256, and nothing else. |
| BrainfuckCommands.BytesGoInAndOut | examples/brainfuck.vix:161-224 | `.` appends the cell to the output; `,` takes the next byte of the input, or a zero at its end. |
| BrainfuckCommands.MovingGrowsTheTape | examples/brainfuck.vix:161-224 | `>` moves on and appends a zero when the tape is used up, `<` moves back or ends the run at the first cell, and anything that is no command is passed over. |
| BrainfuckCommands.BracketsJump | examples/brainfuck.vix:161-224 | At either bracket of a matching pair a zero leads behind the closing one and anything else behind the opening one. |
| BrainfuckCommands.TheClearingLoopClears | examples/brainfuck.vix:161-224 | `[-]` anywhere in a program sets the cell to zero, in one step and two for each that it held. |
| BrainfuckCommands.PlusesArePrinted | examples/brainfuck.vix:161-224 | Any number of `+` and a `.` print that number modulo 256. |
| BrainfuckCommands.EchoPrintsTheInput | examples/brainfuck.vix:161-224 | `,.` once for each byte prints the input. |
| Brainfuck.Interpreter.RunBrainfuck | examples/brainfuck.vix:161-224 | The interpreter refuses exactly the unbalanced programs, and otherwise does the steps of the machine. |
| JsonEscape.UnescapeEscape | src/json_ast.vix:3-42 | Unescaping by section 7 of RFC 8259 gives back every byte string without a zero byte. |
| JsonEscape.JsonAstEscape | src/json_ast.vix:3-42 | The write index stays within six bytes for each byte of input and the terminator. |

## Findings

Places where the code does not do what it is for, each with the condition under which it does.

| what fails | source | shown by | holds when |
|---|---|---|---|
| A call through a value whose result is unused is dropped with its effect: only `call ` and `syscall ` are kept. | src/helper.c:460 | `MirOpt.IndirectCallsAreDropped` | exactly for the runs that perform no dropped call (`MirDce.EliminationIsExact`); on the input, when the value of each indirect call is used by a branch, store or return (`MirWhole.IndirectCallsAreKept`) |
| The debugging printer prints `(@e)[i]` and `@(e[i])` alike. | src/ast.vix:534-559 | `Printing.DebugConfusesDerefs` | exactly for trees with no `@e` or `&x` directly before an index, slice or field (`Debugging.DebugRoundTripsIffUnbased`) |
| A call whose first argument is the string `)` ends there, and so does an array literal that begins with the string `]`. | src/parser.vix:789-1101 | `Printing.AQuotedParenthesisEndsTheCall`, `Printing.AQuotedBracketEndsTheArray` | exactly for trees in which no first argument begins with the closing token of its list (`Printing.ParserRecognisesTheGrammar`, whose grammar says so) |
| The end token after a trailing comment with a tab is misplaced: comments count a tab as one column. | src/lexer.vix:220-525 | `TokenPlaces.TabbedCommentMovesTheEnd` | exactly when no tab of a trailing comment is wider than one column (`TokenPlaces.EndIsPlaced`, `TokenPlaces.EndIsFound`) |
| A raw line feed in a literal moves every token behind it to an earlier line, and a raw tab those behind it on the line to an earlier column. | src/lexer.vix:220-525 | `TokenPlaces.AFeedInALiteralMovesTokens` | exactly when there is no such line feed before the token, and later tabs make up for such tabs (`TokenPlaces.TokensArePlaced`, `TokenPlaces.TokensAreFound`) |
| A nested constructor pattern is not tested, and its names are not bound. | src/desugar.vix:441-499 | `AdtExact.ANestedPatternIsNotTested`, `AdtExact.ANestedNameIsNotBound` | exactly when the nested pattern is a name, `_`, or a chain of only constructors without names (`AdtExact.NestedArmsExact`) |
| An arm that is a bare expression returns from the function. | src/desugar.vix:464-472 | `AdtExact.AnExpressionArmReturns` | exactly for constructor names without parentheses (`AdtExact.ExpressionArmsExact`) |
| A variant without parentheses inside a pattern of a match without constructor patterns is left as a name. | src/desugar.vix:501-517 | `AdtPatterns.AVariantInAPatternStaysAName` | exactly when no such variant stands in the pattern (`AdtPatterns.PatternsStayExactly`) |
| A constructor pattern with a number in it counts as covering its variant, and so does a string that is spelled like the variant. | src/semantic.vix:356-388 | `MatchCover.ANumberInAVariantIsNotCovered`, `MatchRules.ATextCountsAsAVariant` | what the test accepts is `MatchRules.ExhaustiveIs`; for patterns with nothing but names in them it is exactly that every value is taken (`MatchCover.NamedIsTaken`) |
| A variable that is only called is reported as unused. | src/semantic.vix:437-592 | `UnusedTraversal.ACalledVariableIsReported` | the declarations reported are exactly those that nothing but calls uses (`UnusedTraversal.WarningsAreForTheUnused`); none that nothing uses is missed (`UnusedCalls.TheUnusedAreReported`) |
| The last character of a block comment without an end is read as a token. | src/lexer.vix:259-290 | `LexingRules.AnOpenCommentLeavesAName` | exactly when the comment has an end mark or ends with its opening (`LexingRules.BlockCommentsEnd`) |
| `ref [x]` and the generic type `ptr:[x]` have the same text. | src/parser.vix:1702-1810 | `TypeIdentity.APointerToASliceLooksGeneric` | exactly when types are the same up to this (`TypeIdentity.SameTexts`) |
| The parameters of a function type inside a generic type are taken for arguments of the generic type. | src/ast.vix:575-659 | `TypeTexts.AFunctionArgumentIsSplit` | exactly when no such comma is loose (`TypeTexts.GenericArgumentsDecode`) |
| Substitution for a type parameter replaces a lifetime, a path segment or a keyword of the same name. | src/desugar.vix:804-831 | `TypeSubstitution.ALifetimeIsReplaced` | exactly when those words are no parameters that would change them (`TypeSubstitution.SubstitutionIsInstantiation`) |
| A name declared again in an inner block takes over the outer variable. | src/helper.c:701-753 | `CodegenShadowing.ShadowingIsMiscompiled` | the slot of a name is kept exactly when no emitted declaration carries the name (`CodegenNames.SlotStaysExactly`); the function keeps its meaning when each name that is used finds its declaration in the table (`CodegenMeaning.LoweringPreservesMeaning`), which is tracked exactly (`CodegenRenaming.GoodIsExact`) |

## Left out

- Middle form: `phi` and `switch` lines, and the division of a module's text into functions (src/helper.c:483-530). Texts are those the compiler prints: spaces are the only blanks, destinations are names that begin with `%`, copies and conditional branches are complete, and no minus sign stands before a name. A line with an empty destination, on which the replacing loop would not end, is excluded with them.
- Codegen: values are 32-bit integers and what can be called are named functions: `clone`, closures in variables, computed callees and conversions of arguments and results are not modelled, and a call changes no variable of its caller. A call instruction carries the name that the source has; which symbol that is, `Mangling` says. Further statements that store through fields, indices and options, uses of names that another declaration has taken over in the table, wildcards that are not last, returns inside block expressions, and lambdas. The variable table has no bound in the model, and names have any length: src/helper.c:708 drops a variable beyond `MAX_VARS` without notice and cuts names at `NAME_SIZE`.
- Expressions: floats, lambdas, struct literals, `match`, `if` and block expressions, `::` paths and generic calls are reported as unsupported where they begin. Node locations are token indices, and calls and array literals are not printed.
- Type parser: after a failure inside a function type's parameters the compiler still reads up to the closing bracket; `TypeParser` stops there. The recorded failure is the same.
- Modules: finding and reading files, so the list of loaded modules is given; externs, structs and type declarations are not merged, and a block range that starts below zero is excluded.
- Scopes: the traversal works on decoded trees; spans and error codes are parameters; constructors have names. The compiler pushes no scope for the bodies of `while` and `if`, and the traversal pushes none either.
- Variants: types with parameters, match expressions and the environment of subject types; stores through fields, dereferences and indices keep their operands as they are; what functions, methods, indices, slices and arrays give is left open; a payload must fit its lane.
- Lexer: values of number tokens, 32-bit wrap-around of line and column, hygiene marks, carriage returns.
- Diagnostics: spans, sorting and rendering.
- Bracket interpreter: a program is its text before the terminating zero byte, and runs are cut off after a given number of steps.
- LLVM, linking, files, processes, the command line, type inference, monomorphisation as a whole, floating-point text, and the YAML and JSON dumps.
