/**
  The default operator table (`Spectrum.ops`) and what each entry does to an
  instance's store. Most entries are `Spectrum.lambda` wrappers: gather the
  arity's worth of arguments, compute, and push the result unless it is
  `Undefined`. `d ~ @ o` gather and push by hand, `l` reads a line
  unconditionally, and `!` pops its callee with a plain `pop`.
 */
module Builtins {
  import opened Values
  import opened Args

  /** What executing one operator asks of the engine. */
  datatype Effect =
    | Continue(store: Store)              // carry on with the next token
    | Invoke(store: Store, body: string)  // run `body` to completion first
    | NeedInput                           // blocked on a line of input
    | Crash(fault: Fault)                 // a JavaScript exception

  /** The symbol each default entry is registered under. */
  function Symbol(p: Prim): char {
    match p
    case Add => '+'
    case Sub => '-'
    case Div => '/'
    case Mul => '*'
    case Print => 'p'
    case Load => 'r'
    case Invert => 'i'
    case Dup => 'd'
    case Swap => '~'
    case Rot => '@'
    case Save => 's'
    case Open => 'o'
    case StitchV => 'v'
    case StitchH => 'h'
    case FlipH => 'f'
    case FlipV => 'F'
    case Isolate => 'I'
    case Warhol => 'w'
    case WarholOrder => 'W'
    case ReadLine => 'l'
    case MakePair => ','
    case Call => '!'
    case Stash => '`'
    case Unstash => '.'
  }

  /** `Spectrum.ops`, the table every instance starts from. */
  const DefaultOps: map<char, Op> := map[
    '+' := Builtin(Add), '-' := Builtin(Sub), '/' := Builtin(Div), '*' := Builtin(Mul),
    'p' := Builtin(Print), 'r' := Builtin(Load), 'i' := Builtin(Invert),
    'd' := Builtin(Dup), '~' := Builtin(Swap), '@' := Builtin(Rot),
    's' := Builtin(Save), 'o' := Builtin(Open),
    'v' := Builtin(StitchV), 'h' := Builtin(StitchH),
    'f' := Builtin(FlipH), 'F' := Builtin(FlipV),
    'I' := Builtin(Isolate), 'w' := Builtin(Warhol), 'W' := Builtin(WarholOrder),
    'l' := Builtin(ReadLine), ',' := Builtin(MakePair), '!' := Builtin(Call),
    '`' := Builtin(Stash), '.' := Builtin(Unstash)]

  /** How many arguments an entry gathers: the explicit arity, or the wrapped
      JavaScript function's declared parameter count. `l` and `!` gather none. */
  function Arity(p: Prim): nat {
    match p
    case Add | Sub | Div | Mul | MakePair => 2
    case Save | StitchV | StitchH | Isolate | WarholOrder | Swap => 2
    case Print | Load | Invert | FlipH | FlipV | Warhol | Dup | Open | Stash => 1
    case Rot => 3
    case Unstash | ReadLine | Call => 0
  }

  /** The entries that are `Spectrum.lambda` wrappers around a pure function
      of their arguments (the image operations stand in as uninterpreted). */
  predicate IsPureLambda(p: Prim) {
    p in {Add, Sub, Div, Mul, MakePair, Print, Save,
          Load, Invert, StitchV, StitchH, Isolate, Warhol, WarholOrder}
  }

  /** The value a pure lambda entry returns. Integer `+ - *` and string `+`
      are modelled; every other combination, `/` (a float quotient) and the
      image operations give a `Foreign` value; `p` and `s` return nothing. */
  function Compute(p: Prim, args: seq<Value>): (v: Value)
    requires IsPureLambda(p) && |args| == Arity(p)
  {
    match p
    case Add =>
      if args[0].Num? && args[1].Num? then Num(args[0].n + args[1].n)
      else if args[0].Str? && args[1].Str? then Str(args[0].s + args[1].s)
      else Foreign(p, args)
    case Sub =>
      if args[0].Num? && args[1].Num? then Num(args[0].n - args[1].n) else Foreign(p, args)
    case Mul =>
      if args[0].Num? && args[1].Num? then Num(args[0].n * args[1].n) else Foreign(p, args)
    case MakePair => Pair(args[0], args[1])
    case Print | Save => Undefined
    case Div | Load | Invert | StitchV | StitchH | Isolate | Warhol | WarholOrder =>
      Foreign(p, args)
  }

  /** `Spectrum.lambda` pushes a result only when it is not `undefined`. */
  function PushDefined(st: Store, v: Value): Store {
    if v == Undefined then st else Push(st, v)
  }

  /** Invoking a value as a function: only a function literal can be called;
      anything else has no `.bind` and throws. */
  function CallValue(v: Value, st: Store): (e: Effect)
    ensures v.Func? <==> e.Invoke?
    ensures e.Invoke? ==> e == Invoke(st, v.body)
    ensures !v.Func? ==> e == Crash(NotCallable(v))
  {
    match v
    case Func(b) => Invoke(st, b)
    case _ => Crash(NotCallable(v))
  }

  /** What an entry does with its gathered arguments; `st` is the store after
      gathering. */
  function Finish(p: Prim, args: seq<Value>, st: Store): Effect
    requires p != ReadLine && p != Call
    requires |args| == Arity(p)
  {
    match p
    case Dup => Continue(st.(stack := st.stack + [args[0], args[0]]))
    case Swap => Continue(st.(stack := st.stack + [args[1], args[0]]))
    case Rot => Continue(st.(stack := st.stack + [args[2], args[0], args[1]]))
    case Open => Continue(st)
    case FlipH | FlipV => Crash(UndeclaredB(p))
    case Stash => Continue(st.(regs := st.regs + [args[0]]))
    case Unstash =>
      if |st.stack| == 0 || |st.regs| == 0 then Continue(st)
      else
        var top := st.regs[|st.regs| - 1];
        Continue(PushDefined(st.(regs := st.regs[..|st.regs| - 1]), top))
    case Add | Sub | Div | Mul | MakePair | Print | Save
       | Load | Invert | StitchV | StitchH | Isolate | Warhol | WarholOrder =>
      Continue(PushDefined(st, Compute(p, args)))
  }

  /** An entry that goes through `popArgs`: gather, then finish. */
  function ApplyGathered(p: Prim, st: Store): Effect
    requires p != ReadLine && p != Call
  {
    match PopArgs(st.stack, st.input, Arity(p))
    case NeedsInput => NeedInput
    case Ready(args, stack, input) => Finish(p, args, st.(stack := stack, input := input))
  }

  /** Runs a default entry against the store. */
  function Apply(p: Prim, st: Store): Effect {
    match p
    case ReadLine =>
      if |st.input| == 0 then NeedInput
      else Continue(Push(st.(input := st.input[1..]), Str(st.input[0])))
    case Call =>
      var (callee, st') := Pop(st);
      CallValue(callee, st')
    case _ => ApplyGathered(p, st)
  }
}
