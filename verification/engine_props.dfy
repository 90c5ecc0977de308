/**
  What the engine promises: how an operator symbol is resolved, what the
  binding directives do, that invoking a body is the same as splicing its
  tokens in place, that a run blocked on input resumes where it stopped, and
  what the preamble leaves behind.
 */
module EngineProps {
  import opened Tokens
  import opened Tokenizer
  import opened Values
  import opened Builtins
  import opened BuiltinsProps
  import opened Engine

  // --------------------------------------------------------------- dispatch

  /** An operator symbol is resolved in the operator table first, then among
      the variables (whose value is pushed), and otherwise does nothing. */
  lemma DispatchOrder(c: char, st: Store)
    ensures c in st.ops ==> Exec(OpTok(c), st) == InvokeOp(st.ops[c], st)
    ensures c !in st.ops && c in st.vars ==>
      Exec(OpTok(c), st) == Continue(st.(stack := st.stack + [st.vars[c]]))
    ensures c !in st.ops && c !in st.vars ==> Exec(OpTok(c), st) == Continue(st)
  {
  }

  /** A symbol bound by `#c` shadows a variable of the same name: invoking it
      runs the bound body on the unchanged store. */
  lemma BoundOpShadowsVar(c: char, b: string, st: Store)
    requires c in st.ops && st.ops[c] == Bound(Func(b))
    ensures Exec(OpTok(c), st) == Invoke(st, b)
  {
  }

  /** `:c` pops one value (`Undefined` from an empty stack) into variable `c`
      and leaves everything else as it was. */
  lemma SetVarBinds(c: char, st: Store)
    ensures Exec(SetVarTok(c), st).Continue?
    ensures var r := Exec(SetVarTok(c), st).store;
      && r.regs == st.regs && r.ops == st.ops && r.input == st.input
      && (|st.stack| == 0 ==> r.stack == [] && r.vars == st.vars[c := Undefined])
      && (|st.stack| > 0 ==>
            (r.stack == st.stack[..|st.stack| - 1]
             && r.vars == st.vars[c := st.stack[|st.stack| - 1]]))
  {
  }

  /** `#c` pops one value into the operator table under `c`, replacing any
      built-in there, and leaves everything else as it was. */
  lemma SetOpBinds(c: char, st: Store)
    ensures Exec(SetOpTok(c), st).Continue?
    ensures var r := Exec(SetOpTok(c), st).store;
      && r.regs == st.regs && r.vars == st.vars && r.input == st.input
      && (|st.stack| == 0 ==> r.stack == [] && r.ops == st.ops[c := Bound(Undefined)])
      && (|st.stack| > 0 ==>
            (r.stack == st.stack[..|st.stack| - 1]
             && r.ops == st.ops[c := Bound(st.stack[|st.stack| - 1])]))
  {
  }

  /** Binding `c` and then using it: `:c` followed by `c` pushes the bound
      value back when no operator is named `c`. */
  lemma SetVarThenUse(c: char, st: Store, below: seq<Value>, v: Value)
    requires st.stack == below + [v] && c !in st.ops
    ensures var s1 := Exec(SetVarTok(c), st).store;
      Exec(OpTok(c), s1) == Continue(s1.(stack := st.stack))
  {
    assert st.stack[..|st.stack| - 1] == below;
  }

  // ------------------------------------------------- invocation as splicing

  /** All pending tokens, innermost frame first: the program as it would
      read if every invoked body had been pasted in place of its call. */
  function Flatten(frames: seq<seq<Token>>): seq<Token> {
    if |frames| == 0 then [] else frames[0] + Flatten(frames[1..])
  }

  /** The reference semantics without frames: one token list, where invoking
      a body replaces the call by the body's tokens. */
  function SpliceStep(st: Store, ts: seq<Token>): StepResult {
    if |ts| == 0 then Halted(st.stack)
    else
      match Exec(ts[0], st)
      case Continue(st') => Next(Machine(st', [ts[1..]]))
      case Invoke(st', b) => Next(Machine(st', [Tokenize(b) + ts[1..]]))
      case NeedInput => Blocked
      case Crash(f) => Failed(f)
  }

  /** `SpliceStep` run for at most `fuel` cycles. */
  function SpliceRun(st: Store, ts: seq<Token>, fuel: nat): Outcome
    decreases fuel
  {
    if fuel == 0 then OutOfFuel(Machine(st, [ts]))
    else
      match SpliceStep(st, ts)
      case Halted(stack) => Done(stack)
      case Blocked => AwaitingInput(Machine(st, [ts]), fuel)
      case Failed(f) => Crashed(f, Machine(st, [ts]))
      case Next(m') => SpliceRun(m'.store, Flatten(m'.frames), fuel - 1)
  }

  lemma FlattenCons(f: seq<Token>, rest: seq<seq<Token>>)
    ensures Flatten([f] + rest) == f + Flatten(rest)
  {
    assert ([f] + rest)[1..] == rest;
  }

  /** `!` on a function literal pops the literal and pastes its body's tokens
      in place of the `!`. The body is scanned on its own, so this is not
      text substitution: `[1]!2` runs `1` and then `2`. */
  lemma CallSplices(st: Store, below: seq<Value>, b: string, rest: seq<Token>)
    requires '!' in st.ops && st.ops['!'] == Builtin(Call)
    requires st.stack == below + [Func(b)]
    ensures SpliceStep(st, [OpTok('!')] + rest)
         == Next(Machine(st.(stack := below), [Tokenize(b) + rest]))
  {
    assert ([OpTok('!')] + rest)[1..] == rest;
    assert st.stack[..|st.stack| - 1] == below;
  }

  /** One engine cycle either only leaves an exhausted frame (the store and
      the pending tokens stay the same and there is one frame fewer) or does
      exactly what the splicing semantics does with the pending tokens. */
  lemma {:induction false} StepIsSplice(m: Machine)
    ensures Step(m).Next? ==>
      var m' := Step(m).machine;
      || (m'.store == m.store && Flatten(m'.frames) == Flatten(m.frames)
          && |m'.frames| < |m.frames|)
      || (SpliceStep(m.store, Flatten(m.frames)) == Next(Machine(m'.store, [Flatten(m'.frames)]))
          && |m'.frames| <= |m.frames| + 1)
    ensures !Step(m).Next? ==> Step(m) == SpliceStep(m.store, Flatten(m.frames))
  {
    if |m.frames| == 0 {
    } else if |m.frames[0]| == 0 {
      FlattenCons(m.frames[0], m.frames[1..]);
      assert m.frames == [m.frames[0]] + m.frames[1..];
    } else {
      var frame := m.frames[0];
      var tail := m.frames[1..];
      assert m.frames == [frame] + tail;
      FlattenCons(frame, tail);
      FlattenCons(frame[1..], tail);
      var ts := Flatten(m.frames);
      assert ts[0] == frame[0];
      assert ts[1..] == frame[1..] + Flatten(tail);
      match Exec(frame[0], m.store)
      case Continue(st') =>
      case Invoke(st', b) =>
        FlattenCons(Tokenize(b), [frame[1..]] + tail);
        assert [Tokenize(b)] + ([frame[1..]] + tail) == [Tokenize(b)] + [frame[1..]] + tail;
      case NeedInput =>
      case Crash(f) =>
    }
  }

  lemma FlattenOne(ts: seq<Token>)
    ensures Flatten([ts]) == ts
  {
    FlattenCons(ts, []);
  }

  lemma RunNext(m: Machine, fuel: nat)
    requires fuel > 0 && Step(m).Next?
    ensures Run(m, fuel) == Run(Step(m).machine, fuel - 1)
  {
  }

  /** The outcome of running `m` with `fuel` cycles; the same as `Run`. The
      inductions below state their claims in these terms. */
  function Ran(m: Machine, fuel: nat): Outcome {
    Run(m, fuel)
  }

  /** The outcome of the splicing semantics on `ts` from `st` with `fuel`
      cycles; the same as `SpliceRun`. */
  function SpliceRan(st: Store, ts: seq<Token>, fuel: nat): Outcome {
    SpliceRun(st, ts, fuel)
  }

  /** How a splicing run ends when its first cycle does not carry on. */
  lemma SpliceEnds(st: Store, ts: seq<Token>, k: nat)
    requires k > 0 && !SpliceStep(st, ts).Next?
    ensures SpliceStep(st, ts).Halted? <==> SpliceRan(st, ts, k).Done?
    ensures SpliceStep(st, ts).Halted? ==> SpliceRan(st, ts, k) == Done(SpliceStep(st, ts).stack)
  {
  }

  lemma SpliceRanNext(st: Store, ts: seq<Token>, k: nat)
    requires k > 0 && SpliceStep(st, ts).Next?
    ensures var m' := SpliceStep(st, ts).machine;
      SpliceRan(st, ts, k) == SpliceRan(m'.store, Flatten(m'.frames), k - 1)
  {
  }

  /** A finished splicing run stays finished with more fuel. */
  lemma {:induction false} SpliceDoneMonotone(st: Store, ts: seq<Token>, fuel: nat, more: nat)
    requires SpliceRan(st, ts, fuel).Done? && fuel <= more
    ensures SpliceRan(st, ts, more) == SpliceRan(st, ts, fuel)
    decreases fuel
  {
    var r := SpliceStep(st, ts);
    if r.Next? {
      SpliceRanNext(st, ts, fuel);
      SpliceRanNext(st, ts, more);
      SpliceDoneMonotone(r.machine.store, Flatten(r.machine.frames), fuel - 1, more - 1);
    } else {
      SpliceEnds(st, ts, fuel);
      SpliceEnds(st, ts, more);
    }
  }

  /** One engine cycle next to the splicing semantics: a stutter that only
      leaves a frame, a cycle both take, or an end both reach. */
  lemma SpliceCycle(m: Machine, fuel: nat, k: nat) returns (next: bool, stutter: bool, m': Machine)
    requires fuel > 0 && k > 0
    ensures next ==> Ran(m, fuel) == Ran(m', fuel - 1)
    ensures next && stutter ==>
      && m'.store == m.store && Flatten(m'.frames) == Flatten(m.frames)
      && |m'.frames| < |m.frames|
    ensures next && !stutter ==>
      && SpliceRan(m.store, Flatten(m.frames), k) == SpliceRan(m'.store, Flatten(m'.frames), k - 1)
      && |m'.frames| <= |m.frames| + 1
    ensures !next ==> (Ran(m, fuel).Done? <==> SpliceRan(m.store, Flatten(m.frames), k).Done?)
    ensures !next && Ran(m, fuel).Done? ==> Ran(m, fuel) == SpliceRan(m.store, Flatten(m.frames), k)
  {
    StepIsSplice(m);
    var r := Step(m);
    next := r.Next?;
    if next {
      m' := r.machine;
      RanNext(m, m', fuel);
      stutter := m'.store == m.store && Flatten(m'.frames) == Flatten(m.frames)
              && |m'.frames| < |m.frames|;
      if !stutter {
        FlattenOne(Flatten(m'.frames));
        SpliceRanNext(m.store, Flatten(m.frames), k);
      }
    } else {
      m' := m;
      stutter := false;
      RunEnds(m, fuel);
      SpliceEnds(m.store, Flatten(m.frames), k);
    }
  }

  /** Every result the engine computes, the splicing semantics computes too,
      within the same number of cycles. */
  lemma RunDoneIsSpliceDone(m: Machine, fuel: nat)
    requires Run(m, fuel).Done?
    ensures SpliceRun(m.store, Flatten(m.frames), fuel) == Run(m, fuel)
  {
    RanDoneIsSpliceDone(m, fuel);
  }

  lemma {:induction false} RanDoneIsSpliceDone(m: Machine, fuel: nat)
    ensures Ran(m, fuel).Done? ==> SpliceRan(m.store, Flatten(m.frames), fuel) == Ran(m, fuel)
    decreases fuel
  {
    if fuel > 0 {
      var next, stutter, m' := SpliceCycle(m, fuel, fuel);
      if next {
        RanDoneIsSpliceDone(m', fuel - 1);
        if stutter && Ran(m, fuel).Done? {
          SpliceDoneMonotone(m.store, Flatten(m.frames), fuel - 1, fuel);
        }
      }
    }
  }

  /** Conversely, every result of the splicing semantics within `k` cycles
      is the engine's result once it may also spend cycles leaving exhausted
      frames: at most one per frame it starts with and one per cycle. */
  lemma SpliceDoneIsRunDone(m: Machine, k: nat, fuel: nat)
    requires SpliceRun(m.store, Flatten(m.frames), k).Done?
    requires fuel >= 2 * k + |m.frames|
    ensures Run(m, fuel) == SpliceRun(m.store, Flatten(m.frames), k)
  {
    SpliceRanIsRan(m, k, fuel);
  }

  lemma {:induction false} SpliceRanIsRan(m: Machine, k: nat, fuel: nat)
    requires fuel >= 2 * k + |m.frames|
    ensures SpliceRan(m.store, Flatten(m.frames), k).Done? ==>
      Ran(m, fuel) == SpliceRan(m.store, Flatten(m.frames), k)
    decreases fuel
  {
    if k == 0 {
      SpliceNoFuel(m.store, Flatten(m.frames));
    } else {
      var next, stutter, m' := SpliceCycle(m, fuel, k);
      if next && stutter {
        assert fuel - 1 >= 2 * k + |m'.frames|;
        SpliceRanIsRan(m', k, fuel - 1);
      } else if next {
        assert fuel - 1 >= 2 * (k - 1) + |m'.frames|;
        SpliceRanIsRan(m', k - 1, fuel - 1);
      }
    }
  }

  lemma SpliceNoFuel(st: Store, ts: seq<Token>)
    ensures !SpliceRan(st, ts, 0).Done?
  {
  }

  // ------------------------------------------------- resuming after input

  /** The machine with `extra` lines appended to its unread input. */
  function FeedMachine(m: Machine, extra: seq<string>): Machine {
    m.(store := Feed(m.store, extra))
  }

  /** A token that did not block has the same effect with more input, and
      leaves the extra lines unread. */
  lemma ExecFeed(tok: Token, st: Store, extra: seq<string>)
    requires Exec(tok, st) != NeedInput
    ensures Exec(tok, Feed(st, extra)) == FeedEffect(Exec(tok, st), extra)
  {
    if tok.OpTok? && tok.symbol in st.ops {
      var op := st.ops[tok.symbol];
      assert Exec(tok, st) == InvokeOp(op, st);
      assert Exec(tok, Feed(st, extra)) == InvokeOp(op, Feed(st, extra));
      if op.Builtin? {
        ApplyFeed(op.prim, st, extra);
      }
    }
  }

  /** A cycle that did not block does the same with more input. */
  lemma StepFeed(m: Machine, extra: seq<string>)
    ensures Step(m).Next? ==> Step(FeedMachine(m, extra)) == Next(FeedMachine(Step(m).machine, extra))
    ensures Step(m).Halted? || Step(m).Failed? ==> Step(FeedMachine(m, extra)) == Step(m)
  {
    if |m.frames| > 0 && |m.frames[0]| > 0 {
      var e := Exec(m.frames[0][0], m.store);
      if e != NeedInput {
        ExecFeed(m.frames[0][0], m.store, extra);
      }
    }
  }

  /** What becomes of the outcome of a run once `extra` lines are appended
      to the input: a run waiting for input resumes from where it stopped
      with the fuel it had left; every other outcome stays as it was, with the
      extra lines still unread. */
  function Resumed(o: Outcome, extra: seq<string>): Outcome {
    match o
    case AwaitingInput(m, k) => Run(FeedMachine(m, extra), k)
    case Done(stack) => Done(stack)
    case Crashed(f, m) => Crashed(f, FeedMachine(m, extra))
    case OutOfFuel(m) => OutOfFuel(FeedMachine(m, extra))
  }

  /** A run that stops for want of a line stops before the token that needed
      it; supplying more lines then and running on with the fuel that was
      left is the same as having had those lines from the start. Runs that
      finish, crash or run out of fuel do so identically with more input. */
  lemma RunFeed(m: Machine, fuel: nat, extra: seq<string>)
    ensures Run(FeedMachine(m, extra), fuel) == Resumed(Run(m, fuel), extra)
  {
    FeedInduction(m, fuel, extra);
  }

  lemma {:induction false} FeedInduction(m: Machine, fuel: nat, extra: seq<string>)
    ensures Ran(FeedMachine(m, extra), fuel) == Resumed(Ran(m, fuel), extra)
    decreases fuel
  {
    if fuel == 0 {
      FeedNoFuel(m, extra);
    } else {
      var next, m' := FeedCycle(m, fuel, extra);
      if next {
        FeedInduction(m', fuel - 1, extra);
      }
    }
  }

  lemma FeedNoFuel(m: Machine, extra: seq<string>)
    ensures Ran(FeedMachine(m, extra), 0) == Resumed(Ran(m, 0), extra)
  {
  }

  /** One cycle of a run with and without the extra lines: either the claim
      for the successor gives the claim for `m`, or the run ends at once in
      corresponding outcomes. */
  lemma FeedCycle(m: Machine, fuel: nat, extra: seq<string>) returns (next: bool, m': Machine)
    requires fuel > 0
    ensures next ==>
      (Ran(FeedMachine(m', extra), fuel - 1) == Resumed(Ran(m', fuel - 1), extra) ==>
       Ran(FeedMachine(m, extra), fuel) == Resumed(Ran(m, fuel), extra))
    ensures !next ==> Ran(FeedMachine(m, extra), fuel) == Resumed(Ran(m, fuel), extra)
  {
    var r := Step(m);
    next := r.Next?;
    if next {
      m' := r.machine;
      FeedNext(m, m', fuel, extra);
    } else {
      m' := m;
      FeedEnd(m, fuel, extra);
    }
  }

  lemma FeedNext(m: Machine, m': Machine, fuel: nat, extra: seq<string>)
    requires fuel > 0 && Step(m) == Next(m')
    ensures Run(m, fuel) == Run(m', fuel - 1)
    ensures Run(FeedMachine(m, extra), fuel) == Run(FeedMachine(m', extra), fuel - 1)
  {
    StepFeed(m, extra);
    RunNext(m, fuel);
    RunNext(FeedMachine(m, extra), fuel);
  }

  lemma FeedEnd(m: Machine, fuel: nat, extra: seq<string>)
    requires fuel > 0 && !Step(m).Next?
    ensures Run(FeedMachine(m, extra), fuel) == Resumed(Run(m, fuel), extra)
  {
    StepFeed(m, extra);
    RunEnds(m, fuel);
    if !Step(m).Blocked? {
      RunEnds(FeedMachine(m, extra), fuel);
    }
  }

  lemma RunEnds(m: Machine, fuel: nat)
    requires fuel > 0 && !Step(m).Next?
    ensures Step(m).Halted? ==> Run(m, fuel) == Done(Step(m).stack)
    ensures Step(m).Blocked? ==> Run(m, fuel) == AwaitingInput(m, fuel)
    ensures Step(m).Failed? ==> Run(m, fuel) == Crashed(Step(m).fault, m)
  {
  }

  // ------------------------------------------------------- multi-step runs

  /** One cycle that does not end the run, in terms of `Ran`. */
  lemma RanNext(m: Machine, m': Machine, fuel: nat)
    requires fuel > 0 && Step(m) == Next(m')
    ensures Ran(m, fuel) == Ran(m', fuel - 1)
  {
    RunNext(m, fuel);
  }

  /** A token that carries on: the store becomes the one it produced and the
      innermost frame loses its first token. */
  lemma StepContinues(st: Store, f: seq<Token>, frames: seq<seq<Token>>, st': Store)
    requires |f| > 0 && Exec(f[0], st) == Continue(st')
    ensures Step(Machine(st, [f] + frames)) == Next(Machine(st', [f[1..]] + frames))
  {
    assert ([f] + frames)[0] == f && ([f] + frames)[1..] == frames;
  }

  /** A token that invokes a body: its tokens become the innermost frame. */
  lemma StepInvokes(st: Store, f: seq<Token>, frames: seq<seq<Token>>, st': Store, b: string)
    requires |f| > 0 && Exec(f[0], st) == Invoke(st', b)
    ensures Step(Machine(st, [f] + frames)) == Next(Machine(st', [Tokenize(b), f[1..]] + frames))
  {
    assert ([f] + frames)[0] == f && ([f] + frames)[1..] == frames;
    assert [Tokenize(b)] + ([f[1..]] + frames) == [Tokenize(b), f[1..]] + frames;
  }

  /** An exhausted frame is left without touching the store. */
  lemma StepLeaves(st: Store, frames: seq<seq<Token>>)
    ensures Step(Machine(st, [[]] + frames)) == Next(Machine(st, frames))
  {
    assert ([[]] + frames)[0] == [] && ([[]] + frames)[1..] == frames;
  }

  // ------------------------------------------------------------- more fuel

  /** An outcome as it reads when `more` cycles of fuel were added: a run
      waiting for input has that much more left; nothing else changes. */
  function WithMoreFuel(o: Outcome, more: nat): Outcome {
    match o
    case AwaitingInput(m, k) => AwaitingInput(m, k + more)
    case _ => o
  }

  /** Fuel only bounds the run: a run that ended within `fuel` cycles ends
      the same way, at the same point, with more. */
  lemma RunMoreFuel(m: Machine, fuel: nat, more: nat)
    requires !Run(m, fuel).OutOfFuel?
    ensures Run(m, fuel + more) == WithMoreFuel(Run(m, fuel), more)
  {
    MoreFuelInduction(m, fuel, more);
  }

  lemma {:induction false} MoreFuelInduction(m: Machine, fuel: nat, more: nat)
    ensures !Ran(m, fuel).OutOfFuel? ==> Ran(m, fuel + more) == WithMoreFuel(Ran(m, fuel), more)
    decreases fuel
  {
    if fuel > 0 {
      var next, m' := FuelCycle(m, fuel, more);
      if next {
        MoreFuelInduction(m', fuel - 1, more);
      }
    }
  }

  /** One cycle with and without the extra fuel. */
  lemma FuelCycle(m: Machine, fuel: nat, more: nat) returns (next: bool, m': Machine)
    requires fuel > 0
    ensures next ==> Ran(m, fuel) == Ran(m', fuel - 1)
    ensures next ==> Ran(m, fuel + more) == Ran(m', fuel - 1 + more)
    ensures !next ==> !Ran(m, fuel).OutOfFuel?
    ensures !next ==> Ran(m, fuel + more) == WithMoreFuel(Ran(m, fuel), more)
  {
    var r := Step(m);
    next := r.Next?;
    if next {
      m' := r.machine;
      RanNext(m, m', fuel);
      RanNext(m, m', fuel + more);
    } else {
      m' := m;
      RunEnds(m, fuel);
      RunEnds(m, fuel + more);
    }
  }
}
