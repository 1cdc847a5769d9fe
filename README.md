# nestless, modelled in Dafny

nestless is a source-to-source rewriter for JavaScript. A *bind statement*
`a, b <- f(x);` becomes a call `f(x, function (err, a, b) { if (err) return
cb(err); ... });`. The rest of the enclosing block moves into that callback.
`yield v`, `return v` and `throw e` inside a bound scope are rewritten to
report through the enclosing function's callback parameter `cb`. The tool is
meant to keep line numbers: a successful rewrite has exactly as many line
breaks as the source.

This project models the four parts of `nestless.js` that do the work, one
Dafny module each, plus the shared datatypes:

- `common.dfy` (`Diagnostics`): the two error kinds, `Nope` for a user
  error and `Bug` for an internal one, and the `Outcome`/`Result` wrappers.
- `syntax.dfy` (`Syntax`): the closed set of syntax-tree node kinds the
  rewriter handles, with source offsets and a node identity `id`. It also
  has size functions used for termination.
- `helpers.dfy` (`Helpers`): `splitArrow` (recognising `params <- call`),
  `filterUnderscores` (dropping and numbering `_` binders) and the
  callback-name test `CALLBACK_RE`.
- `patches.dfy` (`Patches`): the patch recorder `replace`/`insert`, a class
  holding the two sparse maps keyed by source offset.
- `emit.dfy` (`Emit`): the emitter. It is a method proved against a
  specification function `Run`. `Run` is in turn related to a
  position-by-position reference definition `Splice`. With disjoint
  patches, emitting succeeds exactly when no replacement removes a line
  break, and the output then equals `Splice`. Over any patches the recorder
  accepts, a successful emit keeps the number of line breaks.
- `analysis.dfy` (`Analysis`): the control-flow analyzer `analysis()`. It
  builds basic blocks with mirrored `exits`/`entrances` lists and the flags
  `over`, `dead`, `returns`, `breaks`, `funcEntry`, `funcExit`, `hasStmts`
  and `braceless`. It tags every statement with its block (`astBlock`) and
  finds the functions that use `this`. Exits are deferred to a nesting
  level until a later block takes them.
- `mutation.dfy` (`Mutation`): the bind rewriter `mutation()`, a class
  holding the scope stack and the patch recorder. Also the `rewrite` driver,
  which chains the analyzer, the rewriter and the emitter.

The scope rules are stated as functions:

- `BlockScope`: a block inherits its scope's callback, `canYield`,
  `canThrow`, `canEscape` and `usesThis`, but never `cannotBind`.
- `FuncScope`: a function starts from nothing.
- `BindScope`: a bind needs a scope, outside a switch case, with a callback.
  It then allows yield and throw and forbids break and continue.
- `EscapeCheck`: a break or continue is legal only where the innermost scope
  may escape.

The rewriter's methods are proved to keep these rules, to keep the scope
stack balanced and to only ever add patches. `Rewriter.Stmts` is proved to
reject any break or continue that follows a bind in the same statement
list. It is also proved to run each statement of a list under the innermost
scope's flags until the first statement that binds, and under a bound scope
after it. A switch case may not bind, and a try block may not throw
through the callback before a bind in it.

The analyzer's methods state the control-flow edges they add: which
blocks each new block is entered from, how switch cases fall through into
the next case, and which blocks become a function's entry and exits.

## Model

| member | source | states |
|---|---|---|
| Patches.Patches.constructor | nestless.js:298-300 | the recorder starts with no replacements and no insertions |
| Patches.Patches.Replace | nestless.js:302-312 | passes exactly when start is non-zero, the span does not run backwards, no replacement exists at start and the text has no line break; otherwise a Bug with nothing changed; on success exactly one entry `start -> (end, text)` is added and insertions are untouched |
| Patches.Patches.Insert | nestless.js:314-324 | passes exactly when the position is non-zero and the text has no line break; otherwise a Bug with nothing changed; on success the text is appended after those already queued at that position, and replacements are untouched |
| Emit.SortedPoints | nestless.js:613-620 | the patch points as a strictly ascending list holding exactly the keys of both maps |
| Emit.Emit | nestless.js:611-656 | the output is `Run` over the ascending point list from cursor 0 |
| Emit.Walk | nestless.js:628-655 | the emitter loop's result equals `Run` for the given point list |
| Emit.Step | nestless.js:629-654 | one loop pass: either it ends the walk (an overwritten point, a squashed line break, or the end of the source) with the result `Run` gives, or it writes the source up to the point, then the insertions, then the replacement text, and goes on after the replaced span |
| Emit.RunSplices | nestless.js:628-655 | when no point lies inside a replaced span, the walk from any cursor fails exactly when a replacement would remove a line break, and otherwise yields the reference splice |
| Emit.EmitSplices | nestless.js:611-656 | for disjoint patches at non-negative offsets, emit succeeds iff no replacement removes a line break, and the output is the reference splice: at each offset, its insertions, its replacement text, then the source character unless a replacement covers it |
| Emit.EmitUnpatched | nestless.js:611-656 | with no patches the output is the source itself |
| Emit.EmitDetectsOverlap | nestless.js:631-638 | a patch point strictly inside a replacement that ends within the source makes emit fail |
| Emit.RunDetects | nestless.js:631-638 | the same from any cursor before the overlapping replacement |
| Emit.EmitDropsPastEnd | nestless.js:640-643 | a replacement reaching the end of the source ends the walk; a point recorded inside it is dropped without error (`"abc"` with `1 -> (3, "X")` and `"Y"` at 2 gives `"aX"`) |
| Emit.RunKeepsLineBreaks | nestless.js:628-655 | from any cursor, a successful walk over patches the recorder accepted writes exactly the line breaks of the source it walks over |
| Emit.EmitKeepsLineBreaks | nestless.js:611-656 | with patches the recorder accepted, a successful emit has as many line breaks as the source |
| Helpers.TrimDiscards | nestless.js:705-707 | the result is a prefix of the input that does not end in `_`, and everything after it is `_` |
| Helpers.FilterUnderscoresTrims | nestless.js:704-718 | filtering drops only a trailing run of `_` binders |
| Helpers.FilterUnderscoresAt | nestless.js:708-716 | names other than `_` keep their place; each kept `_` becomes `_k`, k counting discards up to it, when more than one is kept, and stays `_` otherwise |
| Helpers.FilterUnderscoresDistinct | nestless.js:713-716 | no two kept `_` binders end up with the same name |
| Helpers.FilterUnderscoresMeetsNamed | nestless.js:713-716 | renamed discards are kept apart only from each other: `_, _1, _, x` becomes `_1, _1, _2, x` |
| Helpers.NatToStringInjective | nestless.js:716 | distinct ordinals print differently |
| Helpers.IsCallbackName | nestless.js:10 | a name is a callback name iff `cb` or `callb` occurs in it, ignoring ASCII case |
| Helpers.LeadingNames | nestless.js:672-681 | the names collected are those of the leading identifiers of the tuple, in order, stopping at the first non-identifier |
| Helpers.SplitArrow | nestless.js:668-702 | a recognised bind has a call as right-hand side, its LIST as argument list, and at least one binder |
| Helpers.SplitArrowNone | nestless.js:684-685 | an expression is an ordinary statement (no bind, no error) iff its last comma part is not a `<` comparison |
| Helpers.SplitArrowRoundTrip | nestless.js:668-702 | splitting `p1, ..., pk, x < -call` gives back the call, its argument list and the names `p1..pk, x` |
| Helpers.SplitArrowSingle | nestless.js:668-702 | the single-binder bind `x < -call(args)`, with no comma, splits into the call, its argument list and the one name `x` |
| Helpers.SplitArrowStopsAtNonIdentifier | nestless.js:672-680 | a non-identifier in the tuple stops the binder list there, without error |
| Helpers.LeadingNamesStop | nestless.js:674-680 | names after the first non-identifier are never collected |
| Analysis.NewBlock | nestless.js:86-91 | a new block gets the next index and empty lists; with an entry block the edge is recorded in the entry's exits and the new block's entrances; nothing else changes |
| Analysis.MirrorGrow | nestless.js:86-91 | appending a block with empty lists keeps exits and entrances mirror images |
| Analysis.AddExit | nestless.js:256-259 | the edge is appended to `from`'s exits and `to`'s entrances and nothing else changes |
| Analysis.MirrorAddEdge | nestless.js:256-259 | adding an edge keeps every `b`-in-exits-of-`a` count equal to the `a`-in-entrances-of-`b` count |
| Analysis.Defer | nestless.js:250-254 | the block is appended to those deferred to the level; other levels are unchanged |
| Analysis.DeferExit | nestless.js:250-254 | the analyzer state changes only in its deferred exits, as `Defer` says |
| Analysis.ConnectAll | nestless.js:146-149 | each listed block gets an exit to the target, in order, and the target gets them all as entrances; earlier edges stay and every listed block leads into the target |
| Analysis.ConnectDefers | nestless.js:261-266 | the blocks deferred to the level become, in order, entrances of the target, each leading into it, and are no longer deferred; earlier edges stay |
| Analysis.AddExitsKeeps | nestless.js:256-259 | adding exits never removes an edge: every exit of a block is still one afterwards |
| Analysis.AddExitsLead | nestless.js:146-149 | after `addExit(b, target)` for each listed `b`, every one of them has an exit to the target |
| Analysis.Enter | nestless.js:86-91 | `newBlock(from)` seen from the walk: the new block is the next index, entered from `from`; earlier edges stay and nothing but the arena changes |
| Analysis.Join | nestless.js:146-149 | each listed block leads into the target, earlier edges stay, and nothing but the arena changes |
| Analysis.FallsIntoStep | nestless.js:144-155 | one more case of a SWITCH: it is entered from the switch block and from the previous case's fall-throughs, and the wiring of the earlier cases is kept |
| Analysis.DeferAll | nestless.js:239-241 | the listed blocks are appended, in order, to those deferred to the level |
| Analysis.PassDefers | nestless.js:243-245 | the blocks deferred to one level move, in order, behind those deferred to the outer level; the inner level is left empty |
| Analysis.BlocksNeedingExit | nestless.js:268-285 | for an `over` block the result is empty; an open block that holds statements finds exactly itself; otherwise every block found holds statements and is reached backwards through entrances along blocks that hold no statements and do not start a function |
| Analysis.EnterFunc | nestless.js:30-43 | a function's walk starts in a fresh block with no entry edge, flagged `funcEntry` and recorded as the function's `entryBlock`, inside the function, with nothing deferred at the current level |
| Analysis.RecordExits | nestless.js:46-53 | the blocks deferred at the function's level, when there are any, become its `exitBlocks`, each flagged `funcExit`; no other function's exit list and nothing else changes |
| Analysis.AnalyzeFunc | nestless.js:28-61 | the walk is restored and what was deferred at the current level is deferred there again; only the function's own nodes get annotations and only they can be added to `usesThis`; its `entryBlock` is the fresh block it started in, flagged `funcEntry`; its exit blocks are blocks of the arena, each flagged `funcExit` and, when there are any, recorded as its `exitBlocks`; with distinct ids, the block the body's last statement ran in is one of them unless its flow is `over` |
| Analysis.AnalyzeExpr | nestless.js:63-84 | the walk is restored and only nodes inside the expression get annotations; the enclosing function is marked as using `this` exactly when `this` occurs in the expression outside any nested function, and no other function outside the expression is marked |
| Analysis.AnalyzeProps | nestless.js:65-69 | the property values of an object literal: the same, with `this` looked for in every property's children |
| Analysis.AnalyzePropAt | nestless.js:65-69 | one property of an object literal: the loop's facts hold one property further, and the function is marked when `this` occurs in that property's children |
| Analysis.AnalyzeExprs | nestless.js:63-84 | the same for a list of expressions: the enclosing function is marked exactly when some expression of the list mentions `this` |
| Analysis.ChildrenMentionThisIs | nestless.js:80-82 | looking for `this` among an expression's children is looking through the list `children` |
| Analysis.AnalyzeBlock | nestless.js:93-102 | the walk is restored and only the body's own nodes get annotations; a body that is not a BLOCK marks its block `braceless` |
| Analysis.AnalyzeEntered | nestless.js:114 | a body analyzed in a fresh block entered from the given one: the block is the next index and is entered from it; only the body's nodes get annotations |
| Analysis.AnalyzeStmt | nestless.js:108-205 | the walk is restored and only nodes inside the statement get annotations; a `return` makes the current block `over` and `returns`; `break`/`continue` make it `over` and `breaks`; an unknown statement is a Bug |
| Analysis.AnalyzeSimple | nestless.js:176-204 | the statements without nested statements, as `AnalyzeStmt` states them |
| Analysis.AnalyzeNested | nestless.js:112-115 | a nested block ends the current block (`over`) and runs in a fresh block entered from it; the walk is restored |
| Analysis.AnalyzeIf | nestless.js:116-123 | the current block becomes `over`; the then part runs in the next block, entered from it; an else part runs in a later block also entered from it; with no else part the current block is the last one deferred at the current level |
| Analysis.AnalyzeBranches | nestless.js:118-122 | the two branches of an IF, as `AnalyzeIf` states them, from the block they are entered from |
| Analysis.AnalyzeElse | nestless.js:119-122 | an else part runs in the next block, entered from the IF's block; without one, that block is the last deferred at the current level |
| Analysis.AnalyzeLoop | nestless.js:124-137 | the current block becomes `over`; the body runs in a block no earlier than the next index, entered from it; the walk is restored and only the loop's nodes get annotations |
| Analysis.AnalyzeSwitch | nestless.js:138-158 | the current block becomes `over`; every case runs in a block entered from it, each also entered from the previous case's fall-throughs; level and escape targets are restored |
| Analysis.AnalyzeCases | nestless.js:144-155 | the loop over the cases: one entry block per case, each entered from the switch block and from the previous case's fall-throughs; nothing stays deferred at the case level |
| Analysis.AnalyzeCase | nestless.js:145-154 | one case: its block is the next index, entered from the switch block and from every fall-through of the previous case; nothing stays deferred at the case level |
| Analysis.AnalyzeTry | nestless.js:159-175 | the current block becomes `over`; the try block runs in the next block, entered from it; every catch block runs in a block entered from the try block; a finally block runs in a block entered from the try block, and the blocks joined to it lead into it |
| Analysis.AnalyzeGuarded | nestless.js:163-174 | the try block and then its handlers, wired as `AnalyzeTry` states |
| Analysis.AnalyzeHandlers | nestless.js:165-174 | the catch blocks and then the finally block, each entered from the try block |
| Analysis.AnalyzeCatches | nestless.js:165-167 | one block per catch clause, each entered from the try block |
| Analysis.AnalyzeFinally | nestless.js:168-174 | the finally block is the next index, entered from the try block; exactly the blocks deferred at the current level lead into it |
| Analysis.Escape | nestless.js:179-184 | `break`/`continue` make the block `over` and `breaks` and defer it to the innermost escape level (the missing level when there is none) |
| Analysis.AnalyzeReturn | nestless.js:185-189 | a return makes the block `over` and `returns` and analyzes its value |
| Analysis.AnalyzeSemicolon | nestless.js:190-193 | a malformed arrow is reported as `splitArrow` reports it; otherwise the walk is restored |
| Analysis.AnalyzeVar | nestless.js:196-201 | the initializers are analyzed and the walk is restored |
| Analysis.AnalyzeStmts | nestless.js:207-248 | the level and block stack are restored and nothing stays deferred at the inner level; only the list's nodes get annotations; every statement is tagged with a `hasStmts` block; all are dead when the enclosing block kills what follows; the block the last statement ran in, unless `over`, is deferred to the enclosing level; with distinct ids, each statement's `astBlock` is its tag, and a statement right after a `return` has a dead `astBlock` |
| Analysis.AnalyzeEach | nestless.js:218-237 | the statement loop: every statement is tagged as above, and with distinct ids `astBlock` holds each tag; the walk ends in the block the last statement was tagged with; level, escape targets and function stay as they were |
| Analysis.AnalyzeEachAt | nestless.js:218-237 | one step of the statement loop: the loop's facts (`EachSoFar`) hold one statement further |
| Analysis.AnalyzeNextStmt | nestless.js:219-236 | one statement: its `astBlock` is the block it runs in (when its id is its own), a `hasStmts` block, dead when the previous block was dead or returned; a `return` leaves that block `over` and `returns` |
| Analysis.EnterStmt | nestless.js:220-235 | a fresh block follows an `over` one (dead when that was dead or returned); the exits deferred to this level enter it; the statement is tagged with it |
| Analysis.FollowOver | nestless.js:220-225 | the block stays when not `over`; otherwise a new block replaces it on the stack, dead when the old one was dead or returned |
| Analysis.LeaveScope | nestless.js:238-246 | the blocks deferred to the outer level become those it had, then the open blocks found from the scope's last block, then the inner level's dangling exits; the last block, when open and holding statements, is the one found; nothing stays deferred at the inner level or deeper |
| Analysis.Analyze | nestless.js:287-289 | from a fresh block at level 0, every top-level statement is tagged with a statement-holding block, and with distinct ids a top-level statement right after a `return` has a dead `astBlock`; the analyzer ends at level 0 with an empty stack |
| Mutation.Override | nestless.js:340-342 | the flags named in `extra` are set as `extra` says; the rest are kept |
| Mutation.BlockScope | nestless.js:335-342 | a block's scope is one level deeper, keeps the callback, inherits exactly `canYield`, `canThrow`, `canEscape` and `usesThis` unless overridden, never `cannotBind` |
| Mutation.CallbackParam | nestless.js:372-376 | the callback is the last parameter exactly when it is a callback name |
| Mutation.FuncScope | nestless.js:366-376 | a function's scope is one level deeper, inherits nothing, and has `usesThis` exactly when the analyzer found `this` in it |
| Mutation.BindScope | nestless.js:486-495 | binding fails with Nope iff there is no scope, it is a switch case, or it has no callback; otherwise it sets `canYield` and `canThrow`, clears `canEscape`, and changes nothing else |
| Mutation.EscapeCheck | nestless.js:461-465 | `break`/`continue` pass iff the innermost scope may escape; otherwise Nope (Bug with no scope) |
| Mutation.BindForbidsEscape | nestless.js:461-495 | after a bind, a `break` or `continue` in that scope is a Nope |
| Mutation.Rewriter.constructor | nestless.js:298-300 | an empty scope stack and an empty patch recorder |
| Mutation.Rewriter.Close | nestless.js:326-328 | the text is queued ahead of the innermost scope's other closers |
| Mutation.Rewriter.Block | nestless.js:332-363 | a non-BLOCK node is a Bug with nothing changed; otherwise the stack is restored and patches only grow; its statements ran in a scope of the pushed scope's frame, with the pushed scope's bind-related flags until one of them binds and bound afterwards, and a statement that binds found the pushed scope willing to bind |
| Mutation.Rewriter.MutateFunc | nestless.js:365-386 | the stack is restored and patches only grow; the body ran under `FuncScope`: one level deeper, with the last parameter as callback when it passes the callback test, no `canYield`, `canThrow` or `canEscape` before a bind and a bound scope after it; a body that binds passes only when the function has such a callback parameter |
| Mutation.Rewriter.MutateExpr | nestless.js:388-416 | a `yield` anywhere in the expression outside nested functions fails unless the innermost scope has a callback and may yield; a `yield` node with no scope or outside a bound scope is that Nope; otherwise it records `cb(null, ` over `yield ` and `)` after the value, exactly |
| Mutation.Rewriter.MutateProps | nestless.js:390-394 | the property values of an object literal: the stack is restored, patches only grow, and a misplaced `yield` in any of them fails |
| Mutation.Rewriter.MutateExprs | nestless.js:412-414 | the stack is restored and patches only grow; a `yield` in any expression of the list fails unless the innermost scope has a callback and may yield |
| Mutation.ChildrenHaveYieldIs | nestless.js:410-414 | looking for a `yield` among an expression's children is looking through the list `children` |
| Mutation.Rewriter.Stmt | nestless.js:419-526 | the stack keeps its shape and never regains an escape; a bind failing the scope checks gives that Nope; a statement that binds in the current scope (a bind, or an IF branch or unbraced loop body that does) needs a bindable scope and leaves it bound; any other statement leaves its `canYield`, `canThrow` and `canEscape` as they were; `break`/`continue` give exactly `EscapeCheck`; an unknown statement is a Bug |
| Mutation.Rewriter.StmtSimple | nestless.js:457-525 | the statements with no nested statements, as `Stmt` states them |
| Mutation.Rewriter.StmtIf | nestless.js:429-433 | both branches run in the enclosing scope: a bind in either leaves that scope bound, and otherwise its bind-related flags are unchanged |
| Mutation.Rewriter.StmtLoop | nestless.js:434-442 | a braced body runs in a scope that may escape until a bind in it; any other body runs in the enclosing scope, with the same effect on it as a statement there |
| Mutation.Rewriter.StmtSwitch | nestless.js:443-447 | every case runs in its own scope, which may not bind: on success every case is a BLOCK and none of its statements binds; the stack is restored |
| Mutation.Rewriter.StmtTry | nestless.js:448-456 | on success the try part is a BLOCK and the stack is restored; each of its statements ran in a scope that may not throw through the callback until one of them binds |
| Mutation.Rewriter.StmtReturn | nestless.js:467-478 | no scope gives Nope; in a bound scope a returned value gets `return cb(null, ` over `return ` and a closing `)`, and the scope is marked to end in `return; `; otherwise the stack is unchanged; a returned value holding a `yield` outside nested functions fails unless the innermost scope has a callback and may yield |
| Mutation.Rewriter.StmtSemicolon | nestless.js:480-486 | a malformed arrow is that error; a bind follows `BindScope` and leaves the scope bound; anything else is an expression rewrite that leaves the stack as it was, and fails when the expression holds a `yield` (outside nested functions) the innermost scope may not yield |
| Mutation.Rewriter.StmtBind | nestless.js:480-507 | a failed scope check is its Nope with nothing changed; otherwise the binder list is deleted, the call's tail becomes the callback opening, the closer is queued on the updated scope, and no insertion changes |
| Mutation.Rewriter.StmtThrow | nestless.js:508-516 | with no bound scope nothing changes; otherwise `throw ` becomes `return cb(`, `)` follows the exception, and the scope is marked to end in `return; ` |
| Mutation.Rewriter.StmtVar | nestless.js:517-522 | the stack is restored; a `yield` in any present initializer fails unless the innermost scope has a callback and may yield |
| Mutation.Rewriter.Visit | nestless.js:530-534 | a statement in a dead block gets a `/* DEAD */ ` mark at its start; bind and escape effects as for `Stmt` |
| Mutation.Rewriter.VisitAt | nestless.js:529-535 | one step of the statement loop keeps the loop's facts: the stack's shape, the bound state, no escape after a bind, the dead marks and the scopes the statements ran under |
| Mutation.Rewriter.Stmts | nestless.js:528-536 | no `break` or `continue` follows a statement that binds in the same list; every statement in a dead block is marked; the stack keeps its shape; each statement ran under the innermost scope's frame, with its bind-related flags until the first statement that binds and bound from then on |
| Mutation.Rewrite | nestless.js:740-772 | the output is what the emitter makes of the patches the rewriter recorded, which the recorder accepted; it has as many line breaks as the source; with no patch recorded it is the source itself |

## Left out

- The parser: the syntax tree is an input, with node kinds outside the closed set collapsed to `Operator` (expressions) or `Unsupported` (statements).
- The CLI, `usage`, stdin buffering, uncaught-exception handling and the error printing in `rewrite` (nestless.js:756-768), because they are I/O. The emitter returns its output as a string instead of writing to a stream, so the partial output written before an emit error is not modelled.
- Debug output: `dumpBlock`, `dumpPoints`, the `OPTS` switches and the debug-only `/* dup ret */` closer (nestless.js:358-359).
- `nodeType` names in error messages: an unknown statement is reported as "Unexpected statement".
- The "Unexpected function form" check (nestless.js:38-39): a `Func` always carries a script body, so the check cannot fail.
- The "Block required" check (nestless.js:208-209): every caller passes a block, so it cannot fail.
- The "Imbalanced block?!" checks (nestless.js:346-347, 382-383): `Block` and `MutateFunc` are proved to pop the scope they pushed, so these are not modelled as error paths.
- The analyzer's closure variables and block objects, which the source updates in place, are one `State` value threaded through the methods. Blocks are indices, so the model does not capture aliasing of block objects.
- Source offsets: the parser's `start` and `end` count UTF-16 code units of the JavaScript string, while a Dafny `string` is a sequence of Unicode scalar values. The two agree only for text inside the Basic Multilingual Plane, so only such source text is modelled.
- Emit errors are plain JavaScript `Error`s in the source; they are modelled as `Bug`.
- A `break` or `continue` with no scope at all is a JavaScript TypeError in the source (nestless.js:463). It is modelled as `Bug`, and so is splitting an empty comma expression.
- Helpers.SplitArrow: the check "Identifiers(s) expected in tuple before arrow" (nestless.js:686-687) never fires as written, because line 677 sets `valid` rather than `validTuple`. The model follows the code: a non-identifier only stops the binder list.
- Analysis.AnalyzeStmts: "a statement after a `return` is dead" is stated for the statements of one list, when node ids are distinct; it is not stated across nested lists of the whole tree.
- Analysis.AnalyzeLoop: does not state that the header expressions were analyzed, nor that the loop's level is pushed as the target of `break` and `continue` (nestless.js:132).
- Analysis.AnalyzeSwitch: does not state that the switch's level is the target of `break` inside it (nestless.js:141).
- Analysis.AnalyzeCase: the blocks handed on as fall-throughs to the next case are not characterised as those deferred at the case level.
- Analysis.AnalyzeTry: the blocks joined into the finally block are not characterised at this level; `AnalyzeFinally` states that they are those deferred at the current level.
- Mutation.Rewriter.StmtTry: states the scope the try block's statements ran in, not the patches; that a `throw` there is left alone follows from `StmtThrow`'s contract and is not restated on `StmtTry`. The scopes of the catch and finally blocks are not stated.
- Analysis.BlocksNeedingExit: states that every block found is reachable and holds statements, and that an open block holding statements finds itself; it does not state that every such block further back is found, or in which order.
- Mutation.Rewriter.Block: states that the stack is restored and patches only grow, not the exact closing text inserted before the block's last character.
- Mutation.Rewriter.MutateFunc: the same; the closing text inserted before the function's last character is not stated.
- Analysis.AnalyzeFunc: does not state that the exit blocks are blocks of the function's own walk (numbered from its entry block on); that needs an invariant over every analyzer step that nothing outside a function is deferred inside it. Of the exits it names only the block the last statement ran in; the blocks other statements left deferred (an IF without else, a `break` out of the body) are not enumerated. With no exits, an `exitBlocks` entry the function's id already had is not stated to be absent.
- Mutation.Rewriter.MutateExpr: for a `yield` nested in an expression only the failure is stated; the patches a nested `yield` gets in a bound scope are stated only for the `yield` node itself. The statements that contain a VAR, RETURN or expression statement (`Stmt`, `Stmts`, blocks) do not restate the `yield` rule for it; it is stated on `StmtVar`, `StmtReturn` and `StmtSemicolon` themselves.
- Mutation.Rewriter.Stmt: like the source, it never rewrites the expression of an IF condition, a loop header, a SWITCH discriminant or a THROW exception, so a `yield` there is left as it is and raises no error (nestless.js:429-446, 508-516); `StmtIf`, `StmtLoop`, `StmtSwitch` and `StmtThrow` likewise never call `MutateExpr`, but no contract states that such a `yield` passes.
- Mutation.Rewriter.Block: as the code does (nestless.js:349-360), `return; ` is added at a block's end only when a `return` or `throw` in that scope was rewritten, and never at the end of a function body (nestless.js:365-386).
