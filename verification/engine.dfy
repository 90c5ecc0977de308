/**
  The execution engine (`exec`, `step`, `run` and the constructor). The
  source threads a resume-callback through every step; here the pending
  callbacks are an explicit stack of token frames. `frames[0]` is the
  innermost: the tokens of the function body currently running, or of the
  preamble or program when no body is running. Invoking a body pushes its
  freshly scanned tokens as a new frame; when a frame is used up it is popped,
  which is the point where the source calls the enclosing callback.
 */
module Engine {
  import opened Tokens
  import opened Tokenizer
  import opened Values
  import opened Builtins

  /** One interpreter instance: its store and its pending token frames. */
  datatype Machine = Machine(store: Store, frames: seq<seq<Token>>)

  /** What one engine cycle led to. */
  datatype StepResult =
    | Next(machine: Machine)
    | Halted(stack: seq<Value>)   // no frames left: the program's result
    | Blocked                     // needs a line and none is left
    | Failed(fault: Fault)

  /** How a fuel-bounded run ended. `AwaitingInput` holds the machine as it was
      before the token that needs a line, and the fuel left at that point. */
  datatype Outcome =
    | Done(stack: seq<Value>)
    | AwaitingInput(machine: Machine, fuelLeft: nat)
    | Crashed(fault: Fault, machine: Machine)
    | OutOfFuel(machine: Machine)

  /** Invoking an operator-table entry: a built-in, or a value bound by `#c`,
      which is called like `!` calls its operand. */
  function InvokeOp(op: Op, st: Store): Effect {
    match op
    case Builtin(p) => Apply(p, st)
    case Bound(v) => CallValue(v, st)
  }

  /** `exec`: what one token does to the store. An operator symbol is looked
      up in the operator table first, then in the variables; an unknown symbol
      changes nothing. A directive pops one value (`Undefined` from an empty
      stack) and binds it. */
  function Exec(tok: Token, st: Store): Effect {
    match tok
    case StringTok(t) => Continue(Push(st, Str(t)))
    case NumberTok(n) => Continue(Push(st, Num(n)))
    case FuncTok(b) => Continue(Push(st, Func(b)))
    case OpTok(c) =>
      if c in st.ops then InvokeOp(st.ops[c], st)
      else if c in st.vars then Continue(Push(st, st.vars[c]))
      else Continue(st)
    case SetVarTok(c) =>
      var (v, st') := Pop(st);
      Continue(st'.(vars := st'.vars[c := v]))
    case SetOpTok(c) =>
      var (v, st') := Pop(st);
      Continue(st'.(ops := st'.ops[c := Bound(v)]))
  }

  /** The frames that remain once the innermost frame's first token is taken;
      an invoked body is scanned afresh and pushed in front of them. */
  function Resume(e: Effect, rest: seq<seq<Token>>): StepResult {
    match e
    case Continue(st) => Next(Machine(st, rest))
    case Invoke(st, b) => Next(Machine(st, [Tokenize(b)] + rest))
    case NeedInput => Blocked
    case Crash(f) => Failed(f)
  }

  /** One engine cycle: finish the run, leave an exhausted frame, or execute
      the next token of the innermost frame. */
  function Step(m: Machine): StepResult {
    if |m.frames| == 0 then Halted(m.store.stack)
    else if |m.frames[0]| == 0 then Next(m.(frames := m.frames[1..]))
    else
      var frame := m.frames[0];
      Resume(Exec(frame[0], m.store), [frame[1..]] + m.frames[1..])
  }

  /** `run`, bounded by `fuel` engine cycles. */
  function Run(m: Machine, fuel: nat): Outcome
    decreases fuel
  {
    if fuel == 0 then OutOfFuel(m)
    else
      match Step(m)
      case Halted(stack) => Done(stack)
      case Blocked => AwaitingInput(m, fuel)
      case Failed(f) => Crashed(f, m)
      case Next(m') => Run(m', fuel - 1)
  }

  /** The bodies of the two operators the bootstrap program defines: `S`
      saves the top of the stack as out.png, `O` additionally opens it. */
  const SaveBody: string := "'out.png's"
  const OpenBody: string := "'out.png'd@so"

  /** The fixed bootstrap program run before every user program; spelled
      out, it is ['out.png's]#S   ['out.png'd@so]#O. */
  const PreambleSource: string := "[" + SaveBody + "]#S   [" + OpenBody + "]#O"

  /** The constructor: empty stacks and variables, a copy of the default
      operator table, the preamble's tokens ahead of the program's. */
  function Init(prog: string, input: seq<string>): Machine {
    Machine(Store([], [], map[], DefaultOps, input),
            [Tokenize(PreambleSource), Tokenize(prog)])
  }
}
