/**
  The run-time vocabulary of a Spectrum interpreter: the values that flow
  through its stacks, the entries of its operator table, and the store one
  instance owns (`stack`, `regstack`, `vars`, `ops`) together with the lines
  of input it has not read yet.
 */
module Values {

  /** The entries of the default operator table, `Spectrum.ops`. */
  datatype Prim =
    | Add | Sub | Div | Mul         // + - / *
    | Print                         // p
    | Load | Invert                 // r i
    | Dup | Swap | Rot              // d ~ @
    | Save | Open                   // s o
    | StitchV | StitchH             // v h
    | FlipH | FlipV                 // f F
    | Isolate | Warhol | WarholOrder  // I w W
    | ReadLine                      // l
    | MakePair                      // ,
    | Call                          // !
    | Stash | Unstash               // ` .

  /** A run-time value. `Foreign` stands for a value the model does not
      interpret: an image built by the image collaborator, a float quotient,
      or a JavaScript coercion of mixed operands. It records the built-in and
      the operands it was applied to, so it behaves as an uninterpreted
      function of them. `Undefined` is what popping an empty JavaScript array
      yields. */
  datatype Value =
    | Num(n: int)
    | Str(s: string)
    | Pair(fst: Value, snd: Value)
    | Func(body: string)
    | Foreign(prim: Prim, args: seq<Value>)
    | Undefined

  /** An entry of an instance's operator table: a default built-in, or a value
      bound by a `#c` directive. */
  datatype Op = Builtin(prim: Prim) | Bound(value: Value)

  /** The state one interpreter instance owns, plus its unread input lines. */
  datatype Store = Store(
    stack: seq<Value>,
    regs: seq<Value>,
    vars: map<char, Value>,
    ops: map<char, Op>,
    input: seq<string>)

  /** Ways a run stops with a JavaScript exception. */
  datatype Fault =
    | NotCallable(callee: Value)   // `.bind` on something that is not a function
    | UndeclaredB(prim: Prim)      // the flips read an undeclared variable `b`

  /** `Array.prototype.push` on the main stack: `v` goes on top and nothing
      else in the store changes. */
  function Push(st: Store, v: Value): (r: Store)
    ensures r.stack == st.stack + [v]
    ensures r == st.(stack := r.stack)
  {
    st.(stack := st.stack + [v])
  }

  /** `Array.prototype.pop` on the main stack: the top value, or `Undefined`
      when the stack is empty. */
  function Pop(st: Store): (r: (Value, Store))
    ensures |st.stack| > 0 ==> r.1.stack + [r.0] == st.stack
    ensures r.1 == st.(stack := r.1.stack)
    ensures |st.stack| == 0 ==> r == (Undefined, st)
  {
    if |st.stack| == 0 then (Undefined, st)
    else (st.stack[|st.stack| - 1], st.(stack := st.stack[..|st.stack| - 1]))
  }
}
