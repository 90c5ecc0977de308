/**
  Argument gathering (`popArgs`): an operator of arity n takes up to n values
  from the top of the main stack and, once the stack runs dry, one input line
  per missing operand.
 */
module Args {
  import opened Values

  /** The outcome of gathering: either the input ran out before every slot was
      filled, or the arguments together with what is left of the stack and of
      the input. */
  datatype Gathering =
    | NeedsInput
    | Ready(args: seq<Value>, stack: seq<Value>, input: seq<string>)

  /** Input lines as the string values they become. */
  function Lines(ls: seq<string>): (r: seq<Value>)
    ensures |r| == |ls|
  {
    seq(|ls|, i requires 0 <= i < |ls| => Str(ls[i]))
  }

  function Min(a: nat, b: nat): nat {
    if a <= b then a else b
  }

  /** The closed form of gathering `n` more slots: min(n, |stack|) values
      leave the top of the stack, max(0, n - |stack|) lines are read, and the
      arguments are the lines in read order followed by the popped values in
      their bottom-to-top stack order; more input is needed precisely when
      fewer lines remain than are missing. */
  function Gathered(stack: seq<Value>, input: seq<string>, n: nat,
                    lines: seq<Value>, popped: seq<Value>): Gathering
  {
    var k := Min(n, |stack|);
    if n - k <= |input| then
      Ready(lines + Lines(input[..n - k]) + stack[|stack| - k..] + popped,
            stack[..|stack| - k], input[n - k..])
    else NeedsInput
  }

  /** The gathering loop of `popArgs`, one slot per call: `lines` are the
      lines read so far, `popped` the values popped so far. It computes the
      closed form. */
  function Gather(stack: seq<Value>, input: seq<string>, n: nat,
                  lines: seq<Value>, popped: seq<Value>): (r: Gathering)
    ensures r == Gathered(stack, input, n, lines, popped)
    decreases n
  {
    if n == 0 then
      NoneGathered(stack, input, lines, popped);
      Ready(lines + popped, stack, input)
    else if |stack| == 0 then
      if |input| == 0 then NeedsInput
      else
        var r := Gather(stack, input[1..], n - 1, lines + [Str(input[0])], popped);
        ReadOne(stack, input, n, lines, popped);
        r
    else
      var r := Gather(stack[..|stack| - 1], input, n - 1, lines, [stack[|stack| - 1]] + popped);
      PopOne(stack, input, n, lines, popped);
      r
  }

  lemma NoneGathered(stack: seq<Value>, input: seq<string>, lines: seq<Value>, popped: seq<Value>)
    ensures Gathered(stack, input, 0, lines, popped) == Ready(lines + popped, stack, input)
  {
    assert stack[|stack|..] == [] && Lines(input[..0]) == [];
    assert stack[..|stack|] == stack && input[0..] == input;
  }

  /** With the stack empty, reading the first line leaves one fewer slot to
      fill from the rest of the input. */
  lemma ReadOne(stack: seq<Value>, input: seq<string>, n: nat, lines: seq<Value>, popped: seq<Value>)
    requires |stack| == 0 && 1 <= n && 1 <= |input|
    ensures Gathered(stack, input, n, lines, popped)
         == Gathered(stack, input[1..], n - 1, lines + [Str(input[0])], popped)
  {
    if n <= |input| {
      assert input[..n] == [input[0]] + input[1..][..n - 1];
      assert Lines(input[..n]) == [Str(input[0])] + Lines(input[1..][..n - 1]);
      assert input[1..][n - 1..] == input[n..];
    }
  }

  /** Taking the top value off leaves one fewer slot to fill from what is below. */
  lemma PopOne(stack: seq<Value>, input: seq<string>, n: nat, lines: seq<Value>, popped: seq<Value>)
    requires 1 <= n && 1 <= |stack|
    ensures Gathered(stack, input, n, lines, popped)
         == Gathered(stack[..|stack| - 1], input, n - 1, lines, [stack[|stack| - 1]] + popped)
  {
    var k := Min(n, |stack|);
    var below := stack[..|stack| - 1];
    assert Min(n - 1, |below|) == k - 1;
    assert below[|below| - (k - 1)..] + [stack[|stack| - 1]] == stack[|stack| - k..];
    assert below[..|below| - (k - 1)] == stack[..|stack| - k];
  }

  /** `popArgs(n)`: gather `n` arguments, starting with nothing gathered. */
  function PopArgs(stack: seq<Value>, input: seq<string>, n: nat): (r: Gathering)
    ensures r == Gathered(stack, input, n, [], [])
  {
    Gather(stack, input, n, [], [])
  }

  /** The result of `popArgs(n)` has exactly `n` values: the lines read, in
      read order, followed by the popped values in their original
      bottom-to-top order. It pops min(n, |stack|) values from the top, reads
      max(0, n - |stack|) lines, and leaves the rest of the stack unchanged. */
  lemma PopArgsSpec(stack: seq<Value>, input: seq<string>, n: nat)
    ensures var r := PopArgs(stack, input, n);
            var k := Min(n, |stack|);
      && (r.Ready? <==> n <= |stack| + |input|)
      && (r.Ready? ==>
            && |r.args| == n
            && r.args == Lines(input[..n - k]) + stack[|stack| - k..]
            && stack == r.stack + stack[|stack| - k..]
            && input == input[..n - k] + r.input)
  {
    var k := Min(n, |stack|);
    assert stack == stack[..|stack| - k] + stack[|stack| - k..];
    if n - k <= |input| {
      assert input == input[..n - k] + input[n - k..];
    }
  }

  /** Reading lines for missing operands is the same as if those lines had
      been on the stack below its values all along. */
  lemma UnderflowAsIfPresent(stack: seq<Value>, input: seq<string>, n: nat)
    requires |stack| < n <= |stack| + |input|
    ensures PopArgs(stack, input, n)
         == PopArgs(Lines(input[..n - |stack|]) + stack, input[n - |stack|..], n)
  {
    var m := n - |stack|;
    var full := Lines(input[..m]) + stack;
    var rest := input[m..];
    assert Min(n, |stack|) == |stack| && Min(n, |full|) == n;
    assert stack[|stack| - |stack|..] == stack && stack[..0] == [];
    assert full[|full| - n..] == full && full[..0] == [];
    assert rest[..0] == [] && Lines([]) == [] && rest[0..] == rest;
  }

  /** With enough values on the stack, gathering takes the top `n` of them,
      in order, and reads no input. */
  lemma PopArgsFromStack(stack: seq<Value>, input: seq<string>, n: nat)
    requires n <= |stack|
    ensures PopArgs(stack, input, n) == Ready(stack[|stack| - n..], stack[..|stack| - n], input)
  {
    assert Min(n, |stack|) == n;
    assert input[..0] == [] && Lines([]) == [] && input[0..] == input;
  }

  /** Gathering that succeeded never looks past the lines it read: with more
      input appended it gathers the same arguments and leaves the extra
      lines unread. */
  lemma PopArgsMoreInput(stack: seq<Value>, input: seq<string>, n: nat, extra: seq<string>)
    requires PopArgs(stack, input, n).Ready?
    ensures var r := PopArgs(stack, input, n);
      PopArgs(stack, input + extra, n) == Ready(r.args, r.stack, r.input + extra)
  {
    var k := Min(n, |stack|);
    assert (input + extra)[..n - k] == input[..n - k];
    assert (input + extra)[n - k..] == input[n - k..] + extra;
  }
}
