# cplanes core in Dafny

cplanes replays a small program of plane movements on a circular track,
one step at a time. The program text is compiled into one FIFO command
queue per plane: `goto`, `give`, `wait` and `view`. `init` lines set the
track size (`time`), the tank size (`fuel`) and the animation length
(`anim`). Before the run, every plane is put at base (position 0) with a
full tank, and a `goto 0` is added to its queue. Each step then runs four
phases in a fixed order: goto, then give, then wait, then view. In each
phase every plane, in registration order, runs the commands of that kind
at the front of its queue. A plane at base with a non-empty queue is
refuelled before each command of its turn is looked at; a plane with an
empty queue is not refuelled.

A step ends in one of three ways:
- at least one plane acted;
- nothing could act, so the run stalls;
- a rule was broken: out of fuel, not enough fuel to give, a recipient
  not beside the giver, or a missing plane.

This project models `compile`, the non-display part of `restart`,
`runSubstep` and the stepping logic of `runStep` from `script.js`.

## Layout

- `Wrappers` (`wrappers.dfy`): `Option` and `Result`.
- `Text` (`text.dfy`): the JavaScript string operations the compiler
  uses, with their properties.
- `Commands` (`commands.dfy`): the command datatype.
- `Compiler` (`compiler.dfy`): `compile` as functions on values, and the
  conditions under which a line is refused.
- `CompilerProperties` (`compiler_properties.dfy`): what a compiled
  program holds.
- `Simulation` (`simulation.dfy`): the state, each command, the phases,
  the step and the set-up, as functions on values.
- `SimProperties` (`sim_properties.dfy`): the guarantees of a step.
- `Runner` (`engine.dfy`): the class `Engine`. Its
  fields are `queues`, `ids` (the queue names in first-registration
  order, which is the order `for...in` visits them), `planes` and `sim`. Its methods update them in
  place, with the loops of the source, and each method is proved equal
  to the matching function of `Compiler` or `Simulation`.

## Behaviour the model keeps

The model follows what `script.js` does, including these points, which
a reader might expect to work otherwise:

- A `view` does not chain: after one `view` the plane's turn ends
  (script.js:334-337 has no `stop = false`).
- A `give` checks positions after this step's goto phase has already
  moved the planes, not the positions from the previous step.
- `wait n` tests the counter before lowering it. So at base it holds the
  plane for `n + 1` passes, and the pass that removes it costs no fuel.
- A `give` with a negative amount is accepted, so fuel can go negative.
  Non-negative fuel is proved only for programs without such a `give`.
- The settings in `sim` are never cleared between compiles. A setting
  that a later program does not give keeps its earlier value. A program
  that is refused still keeps the settings its lines before the refused
  one gave, and the next compile starts from them.
- The setting value of an `init` line is its first token
  (`24 init time`).
- Received fuel is not capped at the tank size.
- The refuel at base runs on every pass of a plane's inner loop, before
  each command the turn runs, not once per turn. A plane at base with a
  12-unit tank and `give 10 to b` twice in a row gives 20 in one turn and
  keeps 2.
- A `goto`, `give`, `wait` or `view` line registers its subject before
  its argument is checked, so a refused line still leaves that queue.

The command functions of `Simulation` carry no contract of their own;
their behaviour is stated by lemmas: `ExecGoto` by `GotoMoves`,
`GotoArrived` and `GotoStranded`; `ExecGive` by `GiveTransfers`,
`GiveConserves`, `GiveShort` and `GiveStopped`; `ExecWait` by
`WaitRepeat`, `WaitHolds`, `WaitOffBase` and `WaitSpent`; `ExecView` by `ServeView`;
`Exec` by `ExecKeeps` and `ExecSound`; `Refuel` by `ServeRefuels`;
`Reset` by `ResetQueues` and `ResetPlanes`. `Text.ToNumber` is stated by
`ToNumberOfIntToString` and `ToNumberPadded`.

## Model

| member | source | states |
|---|---|---|
| Text.Split | script.js:71 | pieces hold no separator, there is at least one, and joining them gives the input back |
| Text.SplitJoin | script.js:116 | splitting joined separator-free pieces gives the pieces back |
| Text.Trim | script.js:67 | the result is the slice of the input between a run of spaces at its start and one at its end (`IsMiddle`), has no space at either end, and is empty exactly when the input is all spaces |
| Text.TrimUnpadded | script.js:67 | a string with no space at either end is its own trim |
| Text.TrimIdempotent | script.js:67 | trimming twice is the same as trimming once |
| Text.NonBlankLinesTrimmed | script.js:67 | every line handed to the compiler is not blank and has no space at either end |
| Text.Tokens | script.js:71 | there is at least one token, no token holds a space, and the tokens joined by single spaces give the lower-cased line |
| Text.Lines | script.js:67 | every line kept is not blank and has no space at either end |
| Text.NonBlankLinesAppend | script.js:67 | trimming and dropping blank pieces of two piece lists one after the other gives the two results one after the other |
| Text.SplitAround | script.js:67 | splitting two texts joined by a separator gives the pieces of the first followed by those of the second |
| Text.LinesAppend | script.js:67 | the lines of two texts joined by a line break are the lines of the first followed by the lines of the second |
| Text.LinesOfOne | script.js:67 | a text without a line break gives no line when it is all spaces and otherwise the one line it trims to |
| Text.LinesOfJoin | script.js:67 | lines that are not blank, have no space at either end and hold no line break, joined by line breaks, are read back as the same lines |
| Text.ToNumberPadded | script.js:101 | unary `+` ignores spaces around the decimal text of an integer and gives the integer |
| Text.IntToString | script.js:101 | the decimal text of an integer, with no space at either end; unary `+` reads it back (`ToNumberOfIntToString`) |
| Text.ToNumberOfIntToString | script.js:101 | unary `+` on the decimal text of an integer gives that integer back |
| Compiler.ParseTokens | script.js:71-143 | a line parses to `Comment` exactly when its first token starts with `@`; an accepted line is valid and names its subject; it enqueues exactly for goto, give, wait and view |
| Compiler.ParseInit | script.js:77-98 | an accepted `init` declares the subject exactly when the target is `plane`, or stores a positive setting whose value is the number of the first token and whose name is the target word |
| Compiler.ParseGoto | script.js:99-106 | an accepted `goto` queues, for its subject, a `goto` to the number of the third token |
| Compiler.ParseGive | script.js:107-123 | an accepted `give` queues, for its subject, a `give` of the third token's number to at least one recipient; the recipients hold no comma, and joined by commas they are the tokens after `to` joined by spaces |
| Compiler.ParseWait | script.js:125-132 | an accepted `wait` queues, for its subject, a wait whose positive counter is the number of the third token |
| Compiler.ParseView | script.js:133-140 | an accepted `view` queues, for its subject, a `view` whose non-blank tag is the third token |
| Compiler.ParseRejects | script.js:71-143 | a line throws exactly under the refusal conditions, stated operator by operator in `Rejected` |
| Compiler.InitRejects | script.js:78-97 | an `init` line throws exactly for an unknown target or a setting that is not a positive integer |
| Compiler.GiveRejects | script.js:107-123 | a `give` line throws exactly without `to`, with a non-numeric amount, or with blank recipients |
| Compiler.Register | script.js:80 | registration adds the name with an empty queue when it is new, keeps every other queue, appends a new name to the end of `ids`, and keeps `ids` consistent with the keys |
| Compiler.RegisterAll | script.js:120 | after registering the recipients, all of them have queues, old queues are kept, new ones are empty, and `ids` gains the new names in order of first occurrence |
| Compiler.ReadLine | script.js:71-143 | a read line registers its subject (the first token) exactly when it enqueues a command or throws one of the `goto`/`give`/`wait`/`view` argument errors |
| Compiler.Read | script.js:67-71 | one read line per program line, each coherent |
| Compiler.ReadAt | script.js:70-71 | line `i` of the read program is line `i` read alone |
| Compiler.CompileLine | script.js:70-143 | one line keeps the queue table consistent, keeps every `give` naming known planes, and loses no queue |
| Compiler.CompileLines | script.js:70-144 | the same invariants over the whole loop |
| Compiler.CompileRead | script.js:66-149 | after a successful compile every setting is positive |
| Compiler.WithDefaults | script.js:146-148 | a setting left at 0 (never given) takes its default 24, 12 or 500; any other keeps its value |
| Compiler.Compile | script.js:66-149 | the compiled table has `ids` listing each queue name once, every `give` names planes with queues, and after success every setting is positive |
| CompilerProperties.EnqueueQueue | script.js:102-120 | a pushed command lands at the end of its subject's queue; the recipients' queues are unchanged or new and empty |
| CompilerProperties.CompileLineQueue | script.js:99-140 | each queue after a line is the queue before it plus the command that line gives that plane |
| CompilerProperties.CompileLineKeys | script.js:77-140 | an accepted line adds exactly the planes it names and stores its setting |
| CompilerProperties.CompileLineAccepted | script.js:70-143 | one accepted line: no error, exactly its named planes added, each queue extended by its command, its setting stored |
| CompilerProperties.CompiledKeys | script.js:70-144 | accepted lines give queues to exactly the planes they name |
| CompilerProperties.CompiledQueues | script.js:70-144 | after accepted lines each queue is its earlier contents followed by that plane's commands in source order |
| CompilerProperties.FirstErrorReported | script.js:70-144 | compiling stops at the first refused line and reports that line's error; the settings are those the lines before it left |
| CompilerProperties.CompileSucceedsIffAccepted | script.js:70-144 | compiling succeeds exactly when every line is accepted |
| CompilerProperties.CommentsAddNothing | script.js:74 | inserting a comment line anywhere changes nothing |
| CompilerProperties.CompiledSettings | script.js:82-93 | each setting holds the value of the last line that set it, or its earlier value |
| CompilerProperties.CompileProgram | script.js:66-149 | an accepted program gives queues to exactly its named planes, each with its commands in source order; each setting is the last value given, else the earlier one, else the default 24, 12 or 500 |
| CompilerProperties.CompileFails | script.js:66-149 | a program whose line `i` is the first refused one fails with that line's error; each setting is the last value given before line `i`, else the value the previous compile left, with no default applied |
| CompilerProperties.NewNamesOrder | script.js:80 | the newly registered names are distinct, are exactly the names not already known, and keep the order of their first occurrence |
| CompilerProperties.CompiledOrder | script.js:70-140 | after accepted lines, `ids` is the earlier list followed by the newly named planes in order of first mention |
| CompilerProperties.CompileOrder | script.js:66-149 | an accepted program registers its planes once each, in the order it first names them |
| CompilerProperties.ParseGotoLine | script.js:99-106 | `x goto n` queues `Goto(n)` for `x` |
| CompilerProperties.ParseWaitLine | script.js:125-132 | `x wait n` with positive `n` queues `Wait(n)` for `x` |
| CompilerProperties.ParseWaitRefused | script.js:127 | `x wait n` with `n <= 0` is refused with that argument |
| CompilerProperties.ParseViewLine | script.js:133-140 | `x view tag` queues `View(tag)` for `x` |
| CompilerProperties.ParseGiveLine | script.js:107-123 | `x give a to r1,...,rk` queues `Give(a, [r1, ..., rk])` for `x`, recipients in the order written |
| CompilerProperties.ParseSetLine | script.js:82-93 | `n init time`, `fuel` or `anim` with positive `n` stores `n` in that setting |
| CompilerProperties.ParseDeclareLine | script.js:78-80 | `x init plane` declares `x` |
| Simulation.JsRem | script.js:274 | JavaScript `%` differs from the dividend by a multiple of `n`, lies strictly between `-n` and `n`, and takes the dividend's sign |
| Simulation.JsRemUnique | script.js:274 | those three properties determine the remainder: any value with them is `JsRem` |
| Simulation.JsRemFixed | script.js:274-275 | adding `n` to a negative remainder gives the Euclidean remainder |
| Simulation.Wrap | script.js:293-294 | a wrapped position lies in `[0, n)` |
| Simulation.WrapIsMod | script.js:274-275 | wrapping equals the mathematical remainder modulo the track size |
| Simulation.Credit | script.js:306-309 | crediting keeps the set of planes |
| Simulation.DequeueKeeps | script.js:281 | removing the front command shortens only that plane's queue and lets the loop go on |
| Simulation.GotoKeeps | script.js:273-300 | a `goto` keeps the state's shape and the other queues, and adds no `give` |
| Simulation.GiveKeeps | script.js:301-314 | a `give` keeps the state's shape and the other queues, and adds no `give` |
| Simulation.WaitKeeps | script.js:315-332 | a `wait` keeps the state's shape and the other queues, adds no `give`, and shortens the queue when the loop goes on |
| Simulation.ExecKeeps | script.js:272-338 | every command keeps the shape, never lengthens its queue, and shortens it when the loop goes on |
| Simulation.Serve | script.js:257-339 | one plane's turn changes no other plane's queue and adds no `give` |
| Simulation.Act | script.js:271-338 | the same for a turn whose front command runs |
| Simulation.ServeAll | script.js:252-340 | serving the planes in order keeps the shape and adds no `give` |
| Simulation.Phase | script.js:249-343 | a phase keeps the state runnable and its shape, and adds no `give` |
| Simulation.Step | script.js:197-246 | a step keeps the state runnable and its shape, and adds no `give` |
| Simulation.SetUp | script.js:170-185 | the set-up keeps the set of queue names |
| Simulation.SetUpPlanes | script.js:179-185 | exactly the visited planes get records, at base with full tanks |
| Simulation.SetUpQueues | script.js:173-176 | exactly the visited queues get one `goto 0` at the end |
| Simulation.ResetQueues | script.js:170-176 | `restart` appends exactly one `goto 0` to every queue |
| Simulation.ResetPlanes | script.js:179-185 | `restart` creates one plane per queue, at base with a full tank and no colour |
| SimProperties.WrapNear | script.js:293-294 | a position one off either end of the track wraps to the other end |
| SimProperties.GotoMoves | script.js:274-298 | a `goto` that moves keeps the plane on the track and one position closer the shorter way, exactly one position from where it was; it goes straight toward the destination when the distance is at most half the track; it costs one fuel and dequeues exactly on arrival |
| SimProperties.GotoArrived | script.js:279-283 | a `goto` to the current position dequeues for free and lets the loop go on |
| SimProperties.GotoStranded | script.js:285 | a plane that must move without fuel throws out-of-fuel and changes nothing |
| SimProperties.CreditReports | script.js:306-309 | the credit loop reports nothing, or a missing or distant plane at the first recipient that is missing or away |
| SimProperties.CreditFuel | script.js:306-309 | each plane gains the amount once for each time it is named before that recipient |
| SimProperties.CreditKeepsRest | script.js:306-309 | credits change no position and no colour |
| SimProperties.CreditAmounts | script.js:306-309 | the whole plane record after the credits: only fuel changes, by the credited amount |
| SimProperties.FirstAwaySamePositions | script.js:302-307 | where the credit loop stops depends only on the names and positions of the planes |
| SimProperties.GiveTransfers | script.js:302-313 | a completed `give` dequeues, lets the loop go on, and sets each plane's fuel to its old fuel, minus the total for the giver, plus the amount times how often it is named |
| SimProperties.GiveConserves | script.js:302-313 | in a well-formed state a completed `give` leaves the total fuel of all planes unchanged |
| SimProperties.GiveShort | script.js:303 | a giver with less fuel than the total throws and changes nothing |
| SimProperties.GiveStopped | script.js:305-309 | a `give` that throws at a recipient keeps the deduction and the credits made before it, and keeps the queue |
| SimProperties.CreditKeepsPlaces | script.js:306-309 | credits change fuel only |
| SimProperties.DequeueSound | script.js:281 | dequeuing keeps every plane on track and home-bound |
| SimProperties.LastGoto | script.js:173-176 | the only `goto` left in a home-bound queue leads to base |
| SimProperties.GotoSound | script.js:273-300 | a `goto` keeps the planes on track and home-bound |
| SimProperties.GiveSound | script.js:301-314 | a `give` keeps the planes on track and home-bound |
| SimProperties.WaitSound | script.js:315-332 | a `wait` keeps the planes on track and home-bound |
| SimProperties.ViewSound | script.js:334-337 | a `view` keeps the planes on track and home-bound |
| SimProperties.CreditFinds | script.js:307 | when all recipients exist, the credit loop never reports a missing plane |
| SimProperties.CreditNoLoss | script.js:306-309 | credits of a non-negative amount lower no plane's fuel |
| SimProperties.ExecFuelled | script.js:285-323 | when no queued `give` has a negative amount, if no fuel is negative before a command, none is after it |
| SimProperties.GiveFuelled | script.js:302-309 | a non-negative `give` leaves no fuel negative |
| SimProperties.ExecFinds | script.js:254-307 | a command in a well-formed state reads no missing plane |
| SimProperties.ExecSound | script.js:272-338 | every command keeps the planes on track and home-bound |
| SimProperties.ExecPreserved | script.js:272-338 | every command keeps the invariants the state had |
| SimProperties.RefuelPreserved | script.js:266 | the refuel at base keeps the invariants |
| SimProperties.ServePreserved | script.js:256-339 | one plane's turn keeps the invariants |
| SimProperties.ActPreserved | script.js:271-338 | a turn whose front command runs keeps the invariants |
| SimProperties.ServeAllPreserved | script.js:252-340 | serving the planes in order keeps the invariants |
| SimProperties.PhasePreserved | script.js:249-343 | a phase keeps the invariants |
| SimProperties.StepPreserved | script.js:197-205 | a step keeps the invariants whichever phase throws, and a well-formed state throws no missing-plane error |
| SimProperties.WellFormedRunnable | script.js:249-254 | a well-formed state can be stepped |
| SimProperties.StepKeepsWellFormed | script.js:197-205 | a step keeps a well-formed state well-formed and reads no missing plane from it |
| SimProperties.ServeAllIdle | script.js:261-263 | with every queue empty, no plane does anything |
| SimProperties.StepIdle | script.js:202-205 | with every queue empty, the step stalls and changes nothing |
| SimProperties.ServeAllActs | script.js:268-271 | a plane whose front command is of the phase's kind acts, unless an earlier plane throws |
| SimProperties.ServeAllPasses | script.js:269 | the phase for another kind leaves that plane's queue unchanged |
| SimProperties.PhaseSees | script.js:249-343 | a plane acts in its front command's phase and is passed over in the others |
| SimProperties.StepStalls | script.js:197-205 | a step stalls exactly when every queue is empty |
| SimProperties.FinishedAtBase | script.js:244 | a step that leaves every queue empty leaves every plane at base |
| SimProperties.WaitRepeat | script.js:318-319 | `n` passes at base lower the wait counter by `n` and change nothing else |
| SimProperties.WaitHolds | script.js:318-330 | at base `wait t` holds its plane for `t + 1` passes, each ending the turn; the next pass removes it and lets the loop go on |
| SimProperties.WaitOffBase | script.js:318-325 | off base a holding `wait` lowers its counter and costs one fuel, or throws when there is none |
| SimProperties.WaitSpent | script.js:328-330 | a `wait` whose counter is below zero is removed, wherever the plane is, and the loop goes on; nothing else changes |
| SimProperties.ServeView | script.js:334-337 | in the view phase a plane runs one `view` only: it sets the colour, dequeues and ends the turn |
| SimProperties.ServeRefuels | script.js:260-270 | an empty queue means no refuel; a plane at base with commands has its fuel set to `sim.fuel`, and one elsewhere keeps its fuel, before its front command is looked at: it runs when its kind is the phase's and otherwise ends the turn; so a plane at base gets the same turn whatever fuel it had |
| SimProperties.ResetEstablishes | script.js:170-185 | the set-up state is well-formed, every plane is on track and home-bound, and fuel is sound when no `give` is negative |
| SimProperties.RestartEstablishes | script.js:159-189 | after a successful compile, `restart` leaves a well-formed state with every plane on track and home-bound |
| Runner.Engine.constructor | script.js:62-64 | the state starts with no queues, no planes and no settings |
| Runner.Engine.Register | script.js:80 | the queue table becomes `Compiler.Register` of the old one; planes and settings are unchanged |
| Runner.Engine.RegisterRecipients | script.js:120 | the queue table becomes `RegisterAll` of the old one over the recipients |
| Runner.Engine.CompileOne | script.js:71-143 | the queues, settings and error after one line are `CompileLine` of the old ones |
| Runner.Engine.ReadLineAt | script.js:71 | it returns line `i` of the read program |
| Runner.Engine.CompileLinesOf | script.js:68-144 | the loop over the lines, on fresh queues, yields `CompileLines` of the read program |
| Runner.Engine.Compile | script.js:66-149 | the queues, settings and error are `Compiler.Compile` of the text and the earlier settings |
| Runner.Engine.Reset | script.js:170-185 | the set-up loop yields `Simulation.Reset` of the compiled table |
| Runner.Engine.Restart | script.js:151-192 | the compile error is returned; on failure there are no planes, on success the state is the set-up state |
| Runner.Engine.RunGoto | script.js:273-300 | the state and outcome are `ExecGoto` of the old state |
| Runner.Engine.CreditAll | script.js:306-309 | the planes and the report are `Credit` of the old planes; nothing else changes |
| Runner.Engine.RunGive | script.js:301-314 | the state and outcome are `ExecGive` of the old state |
| Runner.Engine.RunWait | script.js:315-332 | the state and outcome are `ExecWait` of the old state |
| Runner.Engine.RunView | script.js:334-337 | the state and outcome are `ExecView` of the old state |
| Runner.Engine.RunFront | script.js:272-338 | the state and outcome are `Exec` of the old state |
| Runner.Engine.ServeOnce | script.js:257-269 | one pass of the turn loop advances `Serve` and shortens the queue whenever the loop goes on |
| Runner.Engine.ActFront | script.js:271-338 | running the front command advances `Act` |
| Runner.Engine.ServePlane | script.js:256-339 | the turn loop yields `Serve` of the old state |
| Runner.Engine.RunSubstep | script.js:249-343 | `runSubstep(type)` yields `Phase` of the old state: the new state, whether a plane acted, and the violation |
| Runner.Engine.RunStep | script.js:197-246 | the four phases, cut short by a throw, yield `Step` of the old state |

## Left out

- Display and animation: `buildPlane`, `movePlaneTo`, `interpolate`,
  colours on screen, the error text in the page, the `dead` marking, and
  the `lastPos`/`lastFuel` fields only the animation reads.
- `smartInterval.js`, the play, pause and step controls, and `doEnd`.
  Timing and the event loop are outside the model.
- Loading and saving the program text (`fetch`, `localStorage`). The
  text is a parameter.
- The `didAct` flag of `runStep` after a throw. It only decides whether
  the display animates. A throwing step is reported as `Failed`.
- Unary `+` and `isNaN`: only decimal integers with an optional sign and
  surrounding spaces are modelled. Fractions, exponents, hexadecimal and
  `Infinity` count as not a number, although JavaScript accepts some of
  them.
- `toLowerCase` and `trim` are modelled for ASCII letters and the listed
  whitespace only. Other Unicode case mappings and space separators are
  not modelled.
- Property names of `Object.prototype` (a plane named `constructor`) and
  the integer-first key order of `for...in` are not modelled. Queues are
  visited in first-registration order.
- The exact texts of the two TypeErrors are not modelled. They are the
  `view` line without a tag and a step touching a plane that has no
  record. The model reports them as `MissingViewArg` and `NoSuchPlane`.
- Recompiling on every edit of the program text (script.js:424-435) is
  not modelled. In the source it replaces `queues`, and can change
  `sim.time`, while a run is going; that is the only way a step can meet
  a plane with no record (`NoSuchPlane`) or a position outside the track.
- JavaScript numbers are doubles, exact as integers only up to 2^53; the
  model uses unbounded integers for positions, fuel, amounts and counters.
- SimProperties.ResetEstablishes: fuel soundness is proved only when no
  `give` has a negative amount, because the code accepts such a `give`
  and it can drive fuel below zero.
- SimProperties.StepStalls: it assumes every queue name is in the visit
  order. `restart` always leaves the state that way, and otherwise the
  code does not promise it.
