/**
  What the stack-level built-ins do to the store, stated as the before/after
  shape of the stacks.
 */
module BuiltinsProps {
  import opened Values
  import opened Args
  import opened Builtins

  /** Every default entry is registered under its own symbol. */
  lemma DefaultOpsHasAll(p: Prim)
    ensures Symbol(p) in DefaultOps && DefaultOps[Symbol(p)] == Builtin(p)
  {
  }

  /** The default table holds nothing but the built-ins, each under its own symbol. */
  lemma DefaultOpsHasOnly(c: char)
    requires c in DefaultOps
    ensures DefaultOps[c].Builtin? && Symbol(DefaultOps[c].prim) == c
  {
  }

  /** An entry that gathers its arguments, run on a stack that holds enough of
      them, finishes with the top values and what lies below. */
  lemma ApplyFromStack(p: Prim, st: Store)
    requires p != ReadLine && p != Call && Arity(p) <= |st.stack|
    ensures Apply(p, st)
         == Finish(p, st.stack[|st.stack| - Arity(p)..], st.(stack := st.stack[..|st.stack| - Arity(p)]))
  {
    var n := Arity(p);
    var below := st.stack[..|st.stack| - n];
    PopArgsFromStack(st.stack, st.input, n);
    GatheredReady(p, st, st.stack[|st.stack| - n..], below, st.input);
    assert st.(stack := below, input := st.input) == st.(stack := below);
    ApplyIsGathered(p, st);
  }

  /** Every entry but `l` and `!` gathers its arguments first. */
  lemma ApplyIsGathered(p: Prim, st: Store)
    requires p != ReadLine && p != Call
    ensures Apply(p, st) == ApplyGathered(p, st)
  {
  }

  lemma GatheredReady(p: Prim, st: Store, args: seq<Value>, stack: seq<Value>, input: seq<string>)
    requires p != ReadLine && p != Call
    requires PopArgs(st.stack, st.input, Arity(p)) == Ready(args, stack, input)
    ensures |args| == Arity(p)
    ensures ApplyGathered(p, st) == Finish(p, args, st.(stack := stack, input := input))
  {
    PopArgsSpec(st.stack, st.input, Arity(p));
  }

  /** `d` turns `[..x]` into `[..x,x]`. */
  lemma DupShape(st: Store, below: seq<Value>, x: Value)
    requires st.stack == below + [x]
    ensures Apply(Dup, st) == Continue(st.(stack := below + [x, x]))
  {
    ApplyFromStack(Dup, st);
    assert st.stack[|st.stack| - 1..] == [x] && st.stack[..|st.stack| - 1] == below;
    var e := Finish(Dup, [x], st.(stack := below));
    assert e.store.stack == below + [x, x];
  }

  /** `~` turns `[..a,b]` into `[..b,a]`. */
  lemma SwapShape(st: Store, below: seq<Value>, a: Value, b: Value)
    requires st.stack == below + [a, b]
    ensures Apply(Swap, st) == Continue(st.(stack := below + [b, a]))
  {
    ApplyFromStack(Swap, st);
    assert st.stack[|st.stack| - 2..] == [a, b] && st.stack[..|st.stack| - 2] == below;
    var e := Finish(Swap, [a, b], st.(stack := below));
    assert e.store.stack == below + [b, a];
  }

  /** `@` turns `[..a,b,c]` into `[..c,a,b]`: the third value from the top
      moves to the top. */
  lemma RotShape(st: Store, below: seq<Value>, a: Value, b: Value, c: Value)
    requires st.stack == below + [a, b, c]
    ensures Apply(Rot, st) == Continue(st.(stack := below + [c, a, b]))
  {
    ApplyFromStack(Rot, st);
    assert st.stack[|st.stack| - 3..] == [a, b, c] && st.stack[..|st.stack| - 3] == below;
    var e := Finish(Rot, [a, b, c], st.(stack := below));
    assert e.store.stack == below + [c, a, b];
  }

  /** With too few values on the stack, an entry that gathers its arguments
      reads the missing operands as lines and behaves as if those lines had
      been on the stack below its values. */
  lemma ApplyUnderflow(p: Prim, st: Store)
    requires p != ReadLine && p != Call
    requires |st.stack| < Arity(p) <= |st.stack| + |st.input|
    ensures Apply(p, st) == Apply(p, Filled(st, Arity(p)))
  {
    var filled := Filled(st, Arity(p));
    FilledGathers(st, Arity(p));
    SameGathered(p, st, filled);
    ApplyIsGathered(p, st);
    ApplyIsGathered(p, filled);
  }

  /** The store with the `n - |stack|` missing operands moved from the input
      to the bottom of the stack. */
  function Filled(st: Store, n: nat): Store
    requires |st.stack| < n <= |st.stack| + |st.input|
  {
    var m := n - |st.stack|;
    st.(stack := Lines(st.input[..m]) + st.stack, input := st.input[m..])
  }

  /** Moving the missing operands from the input to the stack does not
      change what is gathered. */
  lemma FilledGathers(st: Store, n: nat)
    requires |st.stack| < n <= |st.stack| + |st.input|
    ensures PopArgs(st.stack, st.input, n) == PopArgs(Filled(st, n).stack, Filled(st, n).input, n)
    ensures Filled(st, n).regs == st.regs && Filled(st, n).vars == st.vars && Filled(st, n).ops == st.ops
  {
    var m := n - |st.stack|;
    var f := Filled(st, n);
    assert f.stack == Lines(st.input[..m]) + st.stack && f.input == st.input[m..];
    UnderflowAsIfPresent(st.stack, st.input, n);
  }

  /** A gathering entry depends on the stack and the input only through what
      it gathers. */
  lemma SameGathering(p: Prim, st: Store, st': Store)
    requires p != ReadLine && p != Call
    requires st.regs == st'.regs && st.vars == st'.vars && st.ops == st'.ops
    requires PopArgs(st.stack, st.input, Arity(p)) == PopArgs(st'.stack, st'.input, Arity(p))
    ensures Apply(p, st) == Apply(p, st')
  {
    SameGathered(p, st, st');
    ApplyIsGathered(p, st);
    ApplyIsGathered(p, st');
  }

  lemma SameGathered(p: Prim, st: Store, st': Store)
    requires p != ReadLine && p != Call
    requires st.regs == st'.regs && st.vars == st'.vars && st.ops == st'.ops
    requires PopArgs(st.stack, st.input, Arity(p)) == PopArgs(st'.stack, st'.input, Arity(p))
    ensures ApplyGathered(p, st) == ApplyGathered(p, st')
  {
    var g := PopArgs(st.stack, st.input, Arity(p));
    if g.Ready? {
      assert st.(stack := g.stack, input := g.input) == st'.(stack := g.stack, input := g.input);
    }
  }

  /** The stack operations change nothing but the main stack. */
  lemma StackOpsFrame(st: Store, p: Prim)
    requires p == Dup || p == Swap || p == Rot
    requires |st.stack| >= Arity(p)
    ensures Apply(p, st).Continue?
    ensures var r := Apply(p, st).store;
      && r.regs == st.regs && r.vars == st.vars && r.ops == st.ops && r.input == st.input
      && |r.stack| == |st.stack| + (if p == Dup then 1 else 0)
      && r.stack[..|st.stack| - Arity(p)] == st.stack[..|st.stack| - Arity(p)]
  {
    var n := Arity(p);
    var below := st.stack[..|st.stack| - n];
    var top := st.stack[|st.stack| - n..];
    assert st.stack == below + top;
    if p == Dup {
      DupShape(st, below, top[0]);
      Reshaped(st, p, below, [top[0], top[0]]);
    } else if p == Swap {
      SwapShape(st, below, top[0], top[1]);
      Reshaped(st, p, below, [top[1], top[0]]);
    } else {
      RotShape(st, below, top[0], top[1], top[2]);
      Reshaped(st, p, below, [top[2], top[0], top[1]]);
    }
  }

  lemma Reshaped(st: Store, p: Prim, below: seq<Value>, tail: seq<Value>)
    requires Apply(p, st) == Continue(st.(stack := below + tail))
    requires |below| + Arity(p) == |st.stack| && below == st.stack[..|below|]
    requires |tail| == Arity(p) + (if p == Dup then 1 else 0)
    ensures Apply(p, st).Continue?
    ensures var r := Apply(p, st).store;
      && r.regs == st.regs && r.vars == st.vars && r.ops == st.ops && r.input == st.input
      && |r.stack| == |st.stack| + (if p == Dup then 1 else 0)
      && r.stack[..|st.stack| - Arity(p)] == st.stack[..|st.stack| - Arity(p)]
  {
    assert (below + tail)[..|below|] == below;
  }

  /** `` ` `` moves the top of the main stack onto the register stack and
      pushes nothing. */
  lemma StashMoves(st: Store, below: seq<Value>, v: Value)
    requires st.stack == below + [v]
    ensures Apply(Stash, st) == Continue(st.(stack := below, regs := st.regs + [v]))
  {
    ApplyFromStack(Stash, st);
    assert st.stack[|st.stack| - 1..] == [v] && st.stack[..|st.stack| - 1] == below;
    var e := Finish(Stash, [v], st.(stack := below));
    assert e.store.regs == st.regs + [v];
  }

  /** `.` consumes no operands. With a non-empty main stack it pops the
      register stack and pushes the value unless it is `Undefined`; with an
      empty register stack, or an empty main stack, it changes nothing. */
  lemma UnstashMoves(st: Store)
    ensures |st.stack| > 0 && |st.regs| > 0 ==>
      var v := st.regs[|st.regs| - 1];
      Apply(Unstash, st) == Continue(st.(
        regs := st.regs[..|st.regs| - 1],
        stack := st.stack + (if v == Undefined then [] else [v])))
    ensures |st.stack| == 0 || |st.regs| == 0 ==> Apply(Unstash, st) == Continue(st)
  {
    UnstashGathersNothing(st);
  }

  lemma UnstashGathersNothing(st: Store)
    ensures Apply(Unstash, st) == Finish(Unstash, [], st)
  {
    ApplyFromStack(Unstash, st);
    assert st.stack[|st.stack|..] == [] && st.stack[..|st.stack|] == st.stack;
    assert st.(stack := st.stack) == st;
  }

  /** Stashing a value and unstashing it again, over a stack that stays
      non-empty, returns it to the top of the main stack. */
  lemma StashThenUnstash(st: Store, below: seq<Value>, v: Value)
    requires st.stack == below + [v] && |below| > 0 && v != Undefined
    ensures Apply(Stash, st).Continue?
    ensures Apply(Unstash, Apply(Stash, st).store) == Continue(st)
  {
    StashMoves(st, below, v);
    var s1 := Apply(Stash, st).store;
    UnstashMoves(s1);
    assert (st.regs + [v])[..|st.regs|] == st.regs;
  }

  /** `l` reads one line unconditionally and pushes it. */
  lemma ReadLinePushes(st: Store)
    ensures |st.input| == 0 <==> Apply(ReadLine, st) == NeedInput
    ensures |st.input| > 0 ==>
      Apply(ReadLine, st) == Continue(st.(stack := st.stack + [Str(st.input[0])], input := st.input[1..]))
  {
  }

  /** `!` pops its callee with a plain pop: a function literal is invoked on
      the rest of the stack; anything else, including the `Undefined` of an
      empty stack, throws. */
  lemma CallPops(st: Store)
    ensures |st.stack| == 0 ==> Apply(Call, st) == Crash(NotCallable(Undefined))
    ensures |st.stack| > 0 ==>
      var top := st.stack[|st.stack| - 1];
      var rest := st.(stack := st.stack[..|st.stack| - 1]);
      && (top.Func? ==> Apply(Call, st) == Invoke(rest, top.body))
      && (!top.Func? ==> Apply(Call, st) == Crash(NotCallable(top)))
  {
  }

  /** The modelled arithmetic: integers add, subtract and multiply, strings
      concatenate under `+`; the result is never `Undefined`. */
  lemma ComputeArithmetic(p: Prim, a: Value, b: Value)
    requires p == Add || p == Sub || p == Mul
    ensures Compute(p, [a, b]) != Undefined
    ensures a.Num? && b.Num? ==> Compute(p, [a, b]) == Num(
      if p == Add then a.n + b.n else if p == Sub then a.n - b.n else a.n * b.n)
    ensures p == Add && a.Str? && b.Str? ==> Compute(p, [a, b]) == Str(a.s + b.s)
  {
  }

  /** `+ - *` replace their two operands by exactly one result. */
  lemma ArithmeticPushes(st: Store, below: seq<Value>, a: Value, b: Value, p: Prim)
    requires p == Add || p == Sub || p == Mul
    requires st.stack == below + [a, b]
    ensures Apply(p, st) == Continue(st.(stack := below + [Compute(p, [a, b])]))
  {
    ApplyFromStack(p, st);
    assert st.stack[|st.stack| - 2..] == [a, b] && st.stack[..|st.stack| - 2] == below;
    ComputeArithmetic(p, a, b);
    assert Finish(p, [a, b], st.(stack := below))
        == Continue(PushDefined(st.(stack := below), Compute(p, [a, b])));
  }

  /** `,` replaces its two operands by the pair of them, in stack order. */
  lemma PairShape(st: Store, below: seq<Value>, a: Value, b: Value)
    requires st.stack == below + [a, b]
    ensures Apply(MakePair, st) == Continue(st.(stack := below + [Pair(a, b)]))
  {
    ApplyFromStack(MakePair, st);
    assert st.stack[|st.stack| - 2..] == [a, b] && st.stack[..|st.stack| - 2] == below;
    assert Compute(MakePair, [a, b]) == Pair(a, b);
  }

  /** `p` returns nothing, so it only consumes its operand. */
  lemma PrintConsumes(st: Store, below: seq<Value>, v: Value)
    requires st.stack == below + [v]
    ensures Apply(Print, st) == Continue(st.(stack := below))
  {
    ApplyFromStack(Print, st);
    assert st.stack[|st.stack| - 1..] == [v] && st.stack[..|st.stack| - 1] == below;
    assert Compute(Print, [v]) == Undefined;
  }

  /** `s` (`Image.output`) returns nothing: it consumes its image and file
      name and pushes no result. */
  lemma SaveConsumes(st: Store, below: seq<Value>, im: Value, name: Value)
    requires st.stack == below + [im, name]
    ensures Apply(Save, st) == Continue(st.(stack := below))
  {
    ApplyFromStack(Save, st);
    assert st.stack[|st.stack| - 2..] == [im, name] && st.stack[..|st.stack| - 2] == below;
    assert Compute(Save, [im, name]) == Undefined;
  }

  // ----------------------------------------------------------- more input

  /** The store with `extra` lines appended to its unread input. */
  function Feed(st: Store, extra: seq<string>): Store {
    st.(input := st.input + extra)
  }

  /** The effect with `extra` lines appended to the unread input it leaves. */
  function FeedEffect(e: Effect, extra: seq<string>): Effect {
    match e
    case Continue(st) => Continue(Feed(st, extra))
    case Invoke(st, b) => Invoke(Feed(st, extra), b)
    case NeedInput => NeedInput
    case Crash(f) => Crash(f)
  }

  /** Finishing an entry never reads the input. */
  lemma FinishFeed(p: Prim, args: seq<Value>, st: Store, extra: seq<string>)
    requires p != ReadLine && p != Call && |args| == Arity(p)
    ensures Finish(p, args, Feed(st, extra)) == FeedEffect(Finish(p, args, st), extra)
  {
  }

  /** An entry that did not block reads only the lines it needed: with more
      input appended it has the same effect and leaves the extra lines
      unread. */
  lemma ApplyFeed(p: Prim, st: Store, extra: seq<string>)
    requires Apply(p, st) != NeedInput
    ensures Apply(p, Feed(st, extra)) == FeedEffect(Apply(p, st), extra)
  {
    if p == ReadLine {
      assert (st.input + extra)[1..] == st.input[1..] + extra;
    } else if p != Call {
      GatheredFeed(p, st, extra);
    }
  }

  lemma GatheredFeed(p: Prim, st: Store, extra: seq<string>)
    requires p != ReadLine && p != Call
    requires ApplyGathered(p, st) != NeedInput
    ensures Apply(p, Feed(st, extra)) == FeedEffect(Apply(p, st), extra)
  {
    assert Apply(p, st) == ApplyGathered(p, st);
    assert Apply(p, Feed(st, extra)) == ApplyGathered(p, Feed(st, extra));
    var g := PopArgs(st.stack, st.input, Arity(p));
    PopArgsMoreInput(st.stack, st.input, Arity(p), extra);
    var st' := st.(stack := g.stack, input := g.input);
    assert Feed(st, extra).(stack := g.stack, input := g.input + extra) == Feed(st', extra);
    FinishFeed(p, g.args, st', extra);
  }
}
