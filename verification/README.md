# Spectrum language engine, modelled in Dafny

Spectrum is a small stack language whose interpreter (`spectrum.js`) reads a
program string, scans it into tokens and runs them against one interpreter
instance: a main stack, a register stack, a variable map and a per-instance
copy of the operator table. This project models the language engine of that
interpreter:

- the scanner `Spectrum.tokenize` (module `Tokenizer`, properties in
  `TokenizerProps`, vocabulary in `Tokens`);
- argument gathering `popArgs` with `Spectrum.lambda` (module `Args`);
- the default operator table and what each entry does to an instance
  (modules `Values`, `Builtins`, properties in `BuiltinsProps`);
- `exec`, `step`, `run` and the constructor with its fixed preamble (module
  `Engine`, properties in `EngineProps`);
- whole programs run from the constructor (module `Programs`).

The source threads a callback through every token; the model replaces those
pending callbacks by an explicit stack of token frames. Invoking a function
literal pushes its freshly scanned body as a new frame, and an exhausted frame
is popped where the source calls the enclosing callback. `run` is bounded by a
fuel count, because programs can loop forever. Reading a line (`getLine`) is
the only effect: it consumes the next entry of a queue of input lines held in
the store, and a run that needs a line when none is left stops with
`AwaitingInput`, since the source then simply never calls back.

Every operation is paired with an independent reference notion and a lemma
connecting them: the scanner with a printer (`Render`, `Escape`, `Show`,
`Balanced`), gathering with a closed form (`Gathered`), invocation with a
splicing semantics that pastes a body's tokens in place of its call
(`SpliceRun`), and input with resumption (`Resumed`).

The members that model the source functions themselves are:
- `Tokenizer.Tokenize` for `tokenize`;
- `Args.PopArgs` for `popArgs`;
- `Builtins.Apply`, `Builtins.Finish` and `Builtins.Compute` for `lambda`
  and the entries of the operator table, which is `Builtins.DefaultOps`;
- `Engine.Exec`, `Engine.Step` and `Engine.Run` for `exec`, `step` and `run`;
- `Engine.Init` for the constructor.

Their contracts are stated mostly by the lemmas in the table below. The
engine is related to the splicing semantics cycle by cycle for every
outcome (`EngineProps.StepIsSplice`). For whole runs, the two lemmas
`RunDoneIsSpliceDone` and `SpliceDoneIsRunDone` connect only runs that end
with `Done`. Crashes and waits for input are related through the per-cycle
lemma alone.

Three consequences of the code deserve stating on their own:

- The program `[3+]#+ 5 1+` does not add 3. The `+` inside the bound body is
  looked up again when the body runs, so the body calls itself. In
  spectrum.js that recursion through `exec` and `step` is synchronous, so
  the run ends with an uncaught `RangeError` when the JavaScript call stack
  overflows. The model has no call stack (see the call-stack line under
  "Left out"). There, `Programs.SpinNeverEnds` proves that the run never
  finishes, whatever the fuel.
- A `:c` directive on an empty stack raises no error. It binds JavaScript's
  `undefined` (`Values.Pop` yields `Undefined`), as `EngineProps.SetVarBinds`
  states.
- The preamble `['out.png's]#S   ['out.png'd@so]#O` binds both `S` and `O`
  with `#`, so both are operators and neither is a variable. This is shown
  by `Programs.PreambleRuns`.

## Model

| member | source | states |
|---|---|---|
| `Tokenizer.Tokenize` | spectrum.js:402-448 | The scanner emits at most one token per input character, so it terminates; every token is one a branch can build: operators are never special characters and function bodies never close their own bracket |
| `Tokenizer.ScanFunc` | spectrum.js:419-429 | A function body never closes the bracket it started in; either the input is the body, its depth-matching `]` and the rest, or the bracket is unmatched and the body is everything that is left |
| `Tokenizer.ScanDigits` | spectrum.js:434-439 | A digit scan splits the input into a run of digits and a rest that does not start with a digit: the run is maximal and nothing is skipped |
| `TokenizerProps.ScanStringEscaped` | spectrum.js:406-418 | A doubled quote yields one quote and the literal ends at the first quote not followed by another: scanning the escaped text plus a closing quote gives back exactly the original text and the rest after the quote |
| `TokenizerProps.ScanStringShape` | spectrum.js:406-418 | Whatever the input, a literal's contents are some text whose escaped form the input starts with, followed by either an undoubled closing quote or the end of the input |
| `TokenizerProps.ScanStringUnterminated` | spectrum.js:406-418 | An unterminated literal silently takes the rest of the input |
| `TokenizerProps.ScanFuncMatched` | spectrum.js:419-429 | The stored body is exactly the text strictly between `[` and its depth-matching `]`, nested brackets and quotes kept verbatim, and scanning resumes after that `]` |
| `TokenizerProps.ScanFuncUnmatched` | spectrum.js:419-429 | An unmatched `[` captures everything to the end of the input |
| `TokenizerProps.ScanDigitsRun` | spectrum.js:434-439 | Given any maximal digit run, the digit scan splits off exactly that run |
| `TokenizerProps.ShowValue` | spectrum.js:439 | Reading back the decimal rendering of a number gives that number |
| `TokenizerProps.NumberToken` | spectrum.js:434-446 | A maximal digit run is one number token holding its decimal value, and the character after the run is not skipped |
| `TokenizerProps.SingleCharacterTokens` | spectrum.js:430-446 | Whitespace emits nothing, any other non-special character is one operator token, and `:` and `#` consume exactly one following character; at the very end of the input they bind the name `u` |
| `TokenizerProps.SpaceSkipped` | spectrum.js:440-441 | A space emits nothing |
| `TokenizerProps.FuncToken` | spectrum.js:419-429 | A function literal with a balanced body is one token, whatever follows it |
| `TokenizerProps.PrintedToken` | spectrum.js:402-448 | Scanning a printed token followed by a space gives back the token and leaves the input after the space |
| `TokenizerProps.TokenizeRender` | spectrum.js:402-448 | Round trip: printing a sequence of printable tokens and scanning the text gives back the same tokens in the same order |
| `TokenizerProps.EscapedQuoteExample` | spectrum.js:406-418 | The literal `'a''b'` scans as the one string `a'b` |
| `TokenizerProps.NestedFuncExample` | spectrum.js:419-429 | The literal `[x[y]z]` scans as one function whose body keeps its inner brackets |
| `Args.Gather` | spectrum.js:450-471 | The slot-by-slot gathering loop computes the closed form: min(n, |stack|) values leave the top, max(0, n - |stack|) lines are read, and the arguments are the lines in read order followed by the popped values in stack order |
| `Args.PopArgsSpec` | spectrum.js:450-471 | `popArgs(n)` succeeds exactly when stack and input together hold n values; then it yields exactly n arguments, the lines read followed by the popped values in bottom-to-top order, and leaves the rest of the stack and of the input unchanged |
| `Args.UnderflowAsIfPresent` | spectrum.js:450-471 | Reading lines for missing operands is the same as if those lines had been on the stack below its values all along |
| `Args.PopArgsFromStack` | spectrum.js:450-471 | With enough values on the stack, gathering takes the top n of them in order and reads no input |
| `Args.PopArgsMoreInput` | spectrum.js:450-471 | Gathering never reads past the lines it needs: with more input appended it gathers the same arguments and leaves the extra lines unread |
| `Values.Pop` | spectrum.js:368 | Popping a non-empty stack returns its top and the stack below it; popping an empty stack yields `Undefined` and changes nothing; either way the registers, variables, operators and input are untouched |
| `BuiltinsProps.DefaultOpsHasAll` | spectrum.js:487-548 | Every default entry is registered under its own symbol |
| `BuiltinsProps.DefaultOpsHasOnly` | spectrum.js:487-548 | The default table holds nothing but the built-ins, each under its own symbol |
| `BuiltinsProps.ApplyFromStack` | spectrum.js:473-483 | An entry that gathers its arguments, run on a stack holding enough of them, finishes with the top values and the stack below them |
| `BuiltinsProps.ApplyUnderflow` | spectrum.js:450-471 | With too few values on the stack, an entry reads the missing operands as lines and behaves as if they had been on the stack below its values |
| `BuiltinsProps.SameGathering` | spectrum.js:473-483 | A gathering entry depends on the stack and the input only through what it gathers |
| `BuiltinsProps.DupShape` | spectrum.js:495-500 | `d` turns `[..x]` into `[..x,x]` |
| `BuiltinsProps.SwapShape` | spectrum.js:501-507 | `~` turns `[..a,b]` into `[..b,a]` |
| `BuiltinsProps.RotShape` | spectrum.js:508-514 | `@` turns `[..a,b,c]` into `[..c,a,b]` |
| `BuiltinsProps.StackOpsFrame` | spectrum.js:495-514 | `d ~ @` change only the main stack: its length grows by 1, 0 and 0, and the values below their operands are untouched |
| `BuiltinsProps.StashMoves` | spectrum.js:539-541 | `` ` `` moves the top of the main stack onto the register stack and pushes nothing |
| `BuiltinsProps.UnstashMoves` | spectrum.js:542-547 | `.` consumes no operands; with a non-empty main stack it pops the register stack and pushes the value unless it is `Undefined`; with either stack empty it changes nothing |
| `BuiltinsProps.StashThenUnstash` | spectrum.js:539-547 | Stashing a value and unstashing it again, over a stack that stays non-empty, restores the store |
| `BuiltinsProps.ReadLinePushes` | spectrum.js:529-534 | `l` needs input exactly when none is left; otherwise it consumes one line and pushes it as a string |
| `BuiltinsProps.CallPops` | spectrum.js:536-538 | `!` pops its callee with a plain pop: a function literal is invoked on the rest of the stack, anything else, including the `Undefined` of an empty stack, throws |
| `BuiltinsProps.ComputeArithmetic` | spectrum.js:488-491 | Integers add, subtract and multiply, strings concatenate under `+`, and the result is never `Undefined` |
| `BuiltinsProps.ArithmeticPushes` | spectrum.js:488-491 | `+ - *` replace their two operands by exactly one result |
| `BuiltinsProps.PairShape` | spectrum.js:535 | `,` replaces its two operands by their pair, in stack order |
| `BuiltinsProps.SaveConsumes` | spectrum.js:515 | `s` consumes its image and file name and pushes nothing, as the output routine returns no value |
| `BuiltinsProps.PrintConsumes` | spectrum.js:492 | `p` returns nothing, so it only consumes its operand |
| `BuiltinsProps.FinishFeed` | spectrum.js:473-483 | Finishing an entry never reads the input |
| `BuiltinsProps.ApplyFeed` | spectrum.js:450-471 | An entry that did not block on input behaves the same with more input appended, leaving the extra lines unread |
| `EngineProps.DispatchOrder` | spectrum.js:338-348 | An operator symbol is resolved in the operator table first, then among the variables (whose value is pushed), and otherwise does nothing |
| `EngineProps.BoundOpShadowsVar` | spectrum.js:338-341 | A symbol bound by `#c` shadows a variable of the same name |
| `EngineProps.SetVarBinds` | spectrum.js:367-370 | `:c` pops exactly one value (`Undefined` from an empty stack) and binds it under `c` in the variables, leaving everything else unchanged |
| `EngineProps.SetOpBinds` | spectrum.js:372-375 | `#c` pops exactly one value and binds it under `c` in the operator table, leaving everything else unchanged |
| `EngineProps.SetVarThenUse` | spectrum.js:338-370 | A variable bound by `:c` is pushed back by `c` when no operator of that name exists |
| `EngineProps.CallSplices` | spectrum.js:350-365 | `!` on a function literal pops it and pastes the tokens of its body in place of the `!`; the body is scanned on its own, so this is not text substitution |
| `EngineProps.StepIsSplice` | spectrum.js:331-396 | One engine cycle either only leaves an exhausted frame, or does exactly what the splicing semantics does with all pending tokens |
| `EngineProps.RunDoneIsSpliceDone` | spectrum.js:384-396 | Every result the engine computes, the splicing semantics computes too, within the same number of cycles |
| `EngineProps.SpliceDoneIsRunDone` | spectrum.js:384-396 | Every result of the splicing semantics is the engine's result, given cycles for leaving exhausted frames |
| `EngineProps.ExecFeed` | spectrum.js:331-376 | A token that does not block on input behaves the same with more input appended |
| `EngineProps.StepFeed` | spectrum.js:378-396 | A cycle that carries on, halts or fails does the same with more input appended, and the extra lines stay unread |
| `EngineProps.RunFeed` | spectrum.js:384-396 | A run that stops for want of a line stops before the token that needed it; supplying more lines and running on with the fuel that was left is the same as having had them from the start; every other outcome is unchanged |
| `EngineProps.RunMoreFuel` | spectrum.js:384-396 | Fuel only bounds the run: a run that ended within some fuel ends the same way with more |
| `EngineProps.StepContinues` | spectrum.js:378-382 | A token that carries on replaces the store and advances the innermost frame by one token |
| `EngineProps.StepInvokes` | spectrum.js:350-365 | Invoking a body scans it afresh and runs it as a new innermost frame, ahead of the rest of the calling frame |
| `EngineProps.StepLeaves` | spectrum.js:354-359 | An exhausted frame is left without touching the store |
| `Programs.PreambleTokens` | spectrum.js:326 | The preamble scans as two function literals, each bound by `#` |
| `Programs.PreambleRuns` | spectrum.js:321-329 | The preamble takes exactly five cycles before the first program token, after which the run goes on from a store with both stacks empty, the input unread and `S` and `O` bound as operators |
| `Programs.PreambleKeeps` | spectrum.js:325-326 | The preamble leaves every built-in other than `S` and `O` in place |
| `Programs.SumTokens` | spectrum.js:402-448 | The program `a b+` scans as two numbers and `+` |
| `Programs.SumRuns` | spectrum.js:488 | The program `a b+` leaves exactly the sum of `a` and `b` on the stack and reads no input |
| `Programs.SpinTokens` | spectrum.js:402-448 | `[3+]#+ 5 1+` scans as a literal, its binding to `+`, two numbers and `+` |
| `Programs.SpinStep` | spectrum.js:338-341 | With `+` bound to a body that ends in `+`, every cycle leads to another such machine, the trailing `+` invoking the body again |
| `Programs.SpinNeverEnds` | spectrum.js:338-341 | `[3+]#+ 5 1+` never finishes, whatever the fuel |

## Left out

- The image subsystem (`r i v h I w W`): its operations are applied
  symbolically. The result is a `Foreign` value recording the operation and
  its operands, so images, pngjs buffers and file reads are not modelled.
- `f` and `F`: the image code they wrap reads an undeclared variable, so they
  are modelled as throwing once their operand has been gathered.
- `/`, mixed-type `+ - *`, and JavaScript's number coercions: these give
  `Foreign` values.
- Numbers are unbounded integers, not IEEE doubles, so no rounding beyond
  2^53 is modelled. This affects long digit runs and the results of `+`,
  `-` and `*`; for example, `9007199254740992 + 1` gives 9007199254740992 in
  JavaScript. `Programs.SumRuns` and `BuiltinsProps.ComputeArithmetic` state
  exact integer results, which match the source only while operands and
  results stay within 2^53 in magnitude.
- `s` gathers its two operands and pushes nothing, as
  `BuiltinsProps.SaveConsumes` states. The PNG encoding and the file write
  are not modelled.
- `o` gathers its operand and then does nothing. Opening a viewer is I/O.
- `p`: it consumes its operand; the console output is not modelled.
- Console diagnostics for unknown operators and for `.` on an empty stack,
  timing and debug logging, the command-line entry point, and the readline
  plumbing: input is a queue of lines in the store.
- Asynchrony: `getLine` is the only suspension point. A run that needs a line
  when the queue is empty stops with `AwaitingInput`. The recorded machine is
  the one from before the blocked token, whereas the source has already popped
  part of the operands by then. `EngineProps.RunFeed` shows that resuming from
  that machine with more lines is the same as having had them from the start.
- The JavaScript call stack. In spectrum.js every executed token calls back
  into `run` synchronously (lines 331-396, and `exhaustChars` at 354-356).
  Only a `getLine` callback unwinds that chain. The source therefore throws
  `RangeError` whenever a run executes more tokens between two line reads
  than the JavaScript stack can hold. A terminating program of some tens of
  thousands of number tokens is one such run, and so is a self-calling body.
  The model has no call stack. For such a run it gives `Done` when the run
  ends, and `OutOfFuel` for every fuel when it never ends.
- Characters are Dafny `char`s, not UTF-16 code units.
- `Tokenizer.ScanString`: its own contract only bounds what it consumes. The
  shape of a literal is stated separately by `TokenizerProps.ScanStringShape`,
  `ScanStringEscaped` and `ScanStringUnterminated`.
