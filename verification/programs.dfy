/**
  Whole programs run from the constructor: what the preamble leaves behind,
  a program that adds two numbers, and a program that rebinds `+` to a body
  that itself uses `+`.
 */
module Programs {
  import opened Tokens
  import opened Tokenizer
  import opened TokenizerProps
  import opened Values
  import opened Builtins
  import opened BuiltinsProps
  import opened Engine
  import opened EngineProps

  /** The operator table once the preamble has run: the defaults, with `S`
      and `O` bound to the two bodies. */
  const PreambleOps: map<char, Op> :=
    DefaultOps['S' := Bound(Func(SaveBody))]['O' := Bound(Func(OpenBody))]

  /** A function literal followed by `#c` is the literal and the binding. */
  lemma BindTokens(b: string, c: char, rest: string)
    requires Balanced(b)
    ensures Tokenize("[" + b + "]" + ['#', c] + rest) == [FuncTok(b), SetOpTok(c)] + Tokenize(rest)
  {
    assert "[" + b + "]" + ['#', c] + rest == "[" + b + "]" + (['#', c] + rest);
    FuncToken(b, ['#', c] + rest);
    SingleCharacterTokens(c, rest);
  }

  lemma ThreeSpaces(rest: string)
    ensures Tokenize("   " + rest) == Tokenize(rest)
  {
    assert "   " + rest == " " + (" " + (" " + rest));
    SpaceSkipped(" " + (" " + rest));
    SpaceSkipped(" " + rest);
    SpaceSkipped(rest);
  }

  /** The shape of the preamble, for any balanced bodies. */
  lemma PreambleShape(b1: string, b2: string)
    requires Balanced(b1) && Balanced(b2)
    ensures Tokenize("[" + b1 + "]#S   [" + b2 + "]#O")
         == [FuncTok(b1), SetOpTok('S'), FuncTok(b2), SetOpTok('O')]
  {
    var second := "[" + b2 + "]" + ['#', 'O'] + "";
    assert "[" + b2 + "]#O" == second;
    var s := "[" + b1 + "]#S   [" + b2 + "]#O";
    assert s == "[" + b1 + "]" + ['#', 'S'] + ("   " + second);
    BindTokens(b1, 'S', "   " + second);
    ThreeSpaces(second);
    BindTokens(b2, 'O', "");
  }

  /** The preamble scans as two function literals, each bound by `#`. */
  lemma PreambleTokens()
    ensures Tokenize(PreambleSource)
         == [FuncTok(SaveBody), SetOpTok('S'), FuncTok(OpenBody), SetOpTok('O')]
  {
    NoBrackets(SaveBody, 1);
    NoBrackets(OpenBody, 1);
    PreambleShape(SaveBody, OpenBody);
  }

  /** The machine the preamble leaves: empty stacks, no variables, the
      preamble's bindings, and the program's tokens still to run. */
  function AfterPreamble(prog: string, input: seq<string>): Machine {
    Machine(Store([], [], map[], PreambleOps, input), [Tokenize(prog)])
  }

  /** The preamble takes five cycles (four tokens and leaving its frame),
      reads no input, and leaves only the two bindings behind. */
  lemma PreambleRuns(prog: string, input: seq<string>, fuel: nat)
    requires fuel >= 5
    ensures Ran(Init(prog, input), fuel) == Ran(AfterPreamble(prog, input), fuel - 5)
  {
    PreambleTokens();
    var t := [Tokenize(prog)];
    var p := Tokenize(PreambleSource);
    var st := Store([], [], map[], DefaultOps, input);
    var ops1 := DefaultOps['S' := Bound(Func(SaveBody))];
    var m1 := Machine(st.(stack := [Func(SaveBody)]), [p[1..]] + t);
    var m2 := Machine(st.(ops := ops1), [p[2..]] + t);
    var m3 := Machine(st.(stack := [Func(OpenBody)], ops := ops1), [p[3..]] + t);
    var m4 := Machine(st.(ops := PreambleOps), [p[4..]] + t);
    assert Init(prog, input) == Machine(st, [p] + t);
    PreambleStep1(st, p, t, m1);
    RanNext(Init(prog, input), m1, fuel);
    PreambleStep2(st, p, t, m1, m2);
    RanNext(m1, m2, fuel - 1);
    PreambleStep3(st, p, t, m2, m3);
    RanNext(m2, m3, fuel - 2);
    PreambleStep4(st, p, t, m3, m4);
    RanNext(m3, m4, fuel - 3);
    assert p[4..] == [];
    StepLeaves(st.(ops := PreambleOps), t);
    RanNext(m4, AfterPreamble(prog, input), fuel - 4);
  }

  lemma PreambleStep1(st: Store, p: seq<Token>, t: seq<seq<Token>>, m1: Machine)
    requires p == [FuncTok(SaveBody), SetOpTok('S'), FuncTok(OpenBody), SetOpTok('O')]
    requires st.stack == [] && m1 == Machine(st.(stack := [Func(SaveBody)]), [p[1..]] + t)
    ensures Step(Machine(st, [p] + t)) == Next(m1)
  {
    StepContinues(st, p, t, st.(stack := [Func(SaveBody)]));
  }

  lemma PreambleStep2(st: Store, p: seq<Token>, t: seq<seq<Token>>, m1: Machine, m2: Machine)
    requires p == [FuncTok(SaveBody), SetOpTok('S'), FuncTok(OpenBody), SetOpTok('O')]
    requires m1 == Machine(st.(stack := [Func(SaveBody)]), [p[1..]] + t)
    requires m2 == Machine(st.(stack := [], ops := st.ops['S' := Bound(Func(SaveBody))]), [p[2..]] + t)
    ensures Step(m1) == Next(m2)
  {
    SetOpBinds('S', m1.store);
    assert p[1..][1..] == p[2..];
    StepContinues(m1.store, p[1..], t, m2.store);
  }

  lemma PreambleStep3(st: Store, p: seq<Token>, t: seq<seq<Token>>, m2: Machine, m3: Machine)
    requires p == [FuncTok(SaveBody), SetOpTok('S'), FuncTok(OpenBody), SetOpTok('O')]
    requires m2.frames == [p[2..]] + t && m2.store.stack == []
    requires m3 == Machine(m2.store.(stack := [Func(OpenBody)]), [p[3..]] + t)
    ensures Step(m2) == Next(m3)
  {
    assert p[2..][1..] == p[3..];
    StepContinues(m2.store, p[2..], t, m3.store);
  }

  lemma PreambleStep4(st: Store, p: seq<Token>, t: seq<seq<Token>>, m3: Machine, m4: Machine)
    requires p == [FuncTok(SaveBody), SetOpTok('S'), FuncTok(OpenBody), SetOpTok('O')]
    requires m3.frames == [p[3..]] + t && m3.store.stack == [Func(OpenBody)]
    requires m4 == Machine(m3.store.(stack := [], ops := m3.store.ops['O' := Bound(Func(OpenBody))]), [p[4..]] + t)
    ensures Step(m3) == Next(m4)
  {
    SetOpBinds('O', m3.store);
    assert p[3..][1..] == p[4..];
    StepContinues(m3.store, p[3..], t, m4.store);
  }

  // ------------------------------------------------------------ adding two numbers

  /** The program `a b+`, with both numbers written in decimal. */
  function SumSource(a: nat, b: nat): string {
    Show(a) + " " + Show(b) + "+"
  }

  lemma SumTokens(a: nat, b: nat)
    ensures Tokenize(SumSource(a, b)) == [NumberTok(a), NumberTok(b), OpTok('+')]
  {
    assert SumSource(a, b) == Show(a) + " " + (Show(b) + "+");
    PrintedNumber(a, Show(b) + "+");
    NumberToken(Show(b), "+");
    ShowValue(b);
    assert "+" == ['+'] + "";
    SingleCharacterTokens('+', "");
  }

  /** `a b+` leaves exactly their sum on the stack, reading no input. */
  lemma SumRuns(a: nat, b: nat, input: seq<string>, fuel: nat)
    requires fuel >= 10
    ensures Run(Init(SumSource(a, b), input), fuel) == Done([Num(a + b)])
  {
    PreambleRuns(SumSource(a, b), input, fuel);
    SumAfterPreamble(a, b, input, fuel - 5);
  }

  lemma SumAfterPreamble(a: nat, b: nat, input: seq<string>, fuel: nat)
    requires fuel >= 5
    ensures Ran(AfterPreamble(SumSource(a, b), input), fuel) == Done([Num(a + b)])
  {
    SumTokens(a, b);
    var f := [NumberTok(a), NumberTok(b), OpTok('+')];
    var st := Store([], [], map[], PreambleOps, input);
    var m1 := Machine(st.(stack := [Num(a)]), [f[1..]]);
    var m2 := Machine(st.(stack := [Num(a), Num(b)]), [f[2..]]);
    var m3 := Machine(st.(stack := [Num(a + b)]), [f[3..]]);
    var m4 := Machine(st.(stack := [Num(a + b)]), []);
    StepContinues(st, f, [], m1.store);
    RanNext(AfterPreamble(SumSource(a, b), input), m1, fuel);
    assert f[1..][1..] == f[2..];
    StepContinues(m1.store, f[1..], [], m2.store);
    RanNext(m1, m2, fuel - 1);
    SumAdds(m2.store, a, b);
    assert f[2..][1..] == f[3..];
    StepContinues(m2.store, f[2..], [], m3.store);
    RanNext(m2, m3, fuel - 2);
    assert f[3..] == [];
    StepLeaves(m3.store, []);
    RanNext(m3, m4, fuel - 3);
    RunEnds(m4, fuel - 4);
  }

  /** `+` is still the built-in after the preamble. */
  lemma SumAdds(st: Store, a: nat, b: nat)
    requires st.ops == PreambleOps && st.stack == [Num(a), Num(b)]
    ensures Exec(OpTok('+'), st) == Continue(st.(stack := [Num(a + b)]))
  {
    PreambleKeeps(Add);
    assert Exec(OpTok('+'), st) == Apply(Add, st);
    ArithmeticPushes(st, [], Num(a), Num(b), Add);
    ComputeArithmetic(Add, Num(a), Num(b));
    assert [] + [Num(a + b)] == [Num(a + b)];
  }

  /** The preamble leaves every built-in but the two it rebinds in place. */
  lemma PreambleKeeps(p: Prim)
    requires Symbol(p) != 'S' && Symbol(p) != 'O'
    ensures Symbol(p) in PreambleOps && PreambleOps[Symbol(p)] == Builtin(p)
  {
    DefaultOpsHasAll(p);
  }

  // -------------------------------------------------- rebinding `+` to itself

  /** A body that pushes 3 and then calls `+`, whatever `+` means by then. */
  const SpinBody: string := "3+"

  /** `[3+]#+ 5 1+`: bind that body to `+`, then use `+`. */
  const SpinSource: string := "[" + SpinBody + "]#+ 5 1+"

  lemma SpinBodyTokens()
    ensures Tokenize(SpinBody) == [NumberTok(3), OpTok('+')]
  {
    assert SpinBody == "3" + "+";
    assert DigitsValue("3") == 3;
    NumberToken("3", "+");
    assert "+" == ['+'] + "";
    SingleCharacterTokens('+', "");
  }

  lemma SpinTokens()
    ensures Tokenize(SpinSource)
         == [FuncTok(SpinBody), SetOpTok('+'), NumberTok(5), NumberTok(1), OpTok('+')]
  {
    NoBrackets(SpinBody, 1);
    assert SpinSource == "[" + SpinBody + "]" + ['#', '+'] + (" " + (Show(5) + " " + (Show(1) + "+")));
    BindTokens(SpinBody, '+', " " + (Show(5) + " " + (Show(1) + "+")));
    SpaceSkipped(Show(5) + " " + (Show(1) + "+"));
    PrintedNumber(5, Show(1) + "+");
    NumberToken(Show(1), "+");
    ShowValue(1);
    assert "+" == ['+'] + "";
    SingleCharacterTokens('+', "");
  }

  /** A machine caught in the loop: `+` is bound to the body, and the
      innermost frame is either the whole body or its trailing `+`. */
  predicate Spinning(m: Machine) {
    && '+' in m.store.ops && m.store.ops['+'] == Bound(Func(SpinBody))
    && |m.frames| > 0
    && (m.frames[0] == [NumberTok(3), OpTok('+')] || m.frames[0] == [OpTok('+')])
  }

  /** Every cycle of a spinning machine leads to another spinning machine:
      the trailing `+` invokes the body again, one frame deeper. */
  lemma SpinStep(m: Machine) returns (m': Machine)
    requires Spinning(m)
    ensures Step(m) == Next(m') && Spinning(m')
  {
    var f := m.frames[0];
    var rest := m.frames[1..];
    assert m.frames == [f] + rest;
    if f == [NumberTok(3), OpTok('+')] {
      m' := Machine(Push(m.store, Num(3)), [f[1..]] + rest);
      StepContinues(m.store, f, rest, m'.store);
    } else {
      SpinBodyTokens();
      m' := Machine(m.store, [Tokenize(SpinBody), f[1..]] + rest);
      StepInvokes(m.store, f, rest, m.store, SpinBody);
    }
  }

  /** However much fuel it is given, a spinning machine never finishes. */
  lemma {:induction false} SpinForever(m: Machine, fuel: nat)
    requires Spinning(m)
    ensures Ran(m, fuel).OutOfFuel?
    decreases fuel
  {
    if fuel > 0 {
      var m' := SpinStep(m);
      RanNext(m, m', fuel);
      SpinForever(m', fuel - 1);
    }
  }

  /** `[3+]#+ 5 1+` never finishes: the rebound `+` is looked up again when
      its own body runs, so the body calls itself without end. */
  lemma SpinNeverEnds(input: seq<string>, fuel: nat)
    ensures Run(Init(SpinSource, input), fuel).OutOfFuel?
  {
    SpinWithFuel(input, fuel + 9);
    if !Run(Init(SpinSource, input), fuel).OutOfFuel? {
      RunMoreFuel(Init(SpinSource, input), fuel, 9);
    }
  }

  lemma SpinWithFuel(input: seq<string>, fuel: nat)
    requires fuel >= 9
    ensures Ran(Init(SpinSource, input), fuel).OutOfFuel?
  {
    PreambleRuns(SpinSource, input, fuel);
    SpinPrefix(input, fuel - 5);
    SpinStartSpins(input);
    SpinForever(SpinStart(input), fuel - 9);
  }

  lemma SpinStartSpins(input: seq<string>)
    ensures Spinning(SpinStart(input))
  {
    assert PreambleOps['+' := Bound(Func(SpinBody))]['+'] == Bound(Func(SpinBody));
  }

  /** The machine at the first `+`: 5 and 1 on the stack and `+` rebound. */
  function SpinStart(input: seq<string>): Machine {
    Machine(Store([Num(5), Num(1)], [], map[], PreambleOps['+' := Bound(Func(SpinBody))], input),
            [[OpTok('+')]])
  }

  /** After the preamble, four cycles bind `+` and push 5 and 1. */
  lemma SpinPrefix(input: seq<string>, fuel: nat)
    requires fuel >= 4
    ensures Ran(AfterPreamble(SpinSource, input), fuel) == Ran(SpinStart(input), fuel - 4)
  {
    SpinTokens();
    var f := [FuncTok(SpinBody), SetOpTok('+'), NumberTok(5), NumberTok(1), OpTok('+')];
    var st := Store([], [], map[], PreambleOps, input);
    var ops := PreambleOps['+' := Bound(Func(SpinBody))];
    var m1 := Machine(st.(stack := [Func(SpinBody)]), [f[1..]]);
    var m2 := Machine(st.(ops := ops), [f[2..]]);
    StepContinues(st, f, [], m1.store);
    RanNext(AfterPreamble(SpinSource, input), m1, fuel);
    SpinBinds(f, m1, m2);
    RanNext(m1, m2, fuel - 1);
    assert f[2..] == [NumberTok(5), NumberTok(1), OpTok('+')];
    SpinPushes(ops, input, fuel - 2);
  }

  /** Two number tokens push their values in order. */
  lemma SpinPushes(ops: map<char, Op>, input: seq<string>, fuel: nat)
    requires fuel >= 2
    ensures Ran(Machine(Store([], [], map[], ops, input), [[NumberTok(5), NumberTok(1), OpTok('+')]]), fuel)
         == Ran(Machine(Store([Num(5), Num(1)], [], map[], ops, input), [[OpTok('+')]]), fuel - 2)
  {
    var f := [NumberTok(5), NumberTok(1), OpTok('+')];
    var st := Store([], [], map[], ops, input);
    var m2 := Machine(st, [f]);
    var m3 := Machine(st.(stack := [Num(5)]), [f[1..]]);
    var m4 := Machine(st.(stack := [Num(5), Num(1)]), [f[2..]]);
    StepContinues(st, f, [], m3.store);
    RanNext(m2, m3, fuel);
    assert f[1..][1..] == f[2..] == [OpTok('+')];
    StepContinues(m3.store, f[1..], [], m4.store);
    RanNext(m3, m4, fuel - 1);
  }

  lemma SpinBinds(f: seq<Token>, m1: Machine, m2: Machine)
    requires f == [FuncTok(SpinBody), SetOpTok('+'), NumberTok(5), NumberTok(1), OpTok('+')]
    requires m1.store.stack == [Func(SpinBody)] && m1.frames == [f[1..]]
    requires m2 == Machine(m1.store.(stack := [], ops := m1.store.ops['+' := Bound(Func(SpinBody))]), [f[2..]])
    ensures Step(m1) == Next(m2)
  {
    SetOpBinds('+', m1.store);
    assert f[1..][1..] == f[2..];
    StepContinues(m1.store, f[1..], [], m2.store);
  }
}
