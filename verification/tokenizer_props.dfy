/**
  What the scanner promises, stated against independent reference
  definitions: quoting (`Escape`), bracket nesting (`Balanced`), decimal
  rendering (`Show`) and a printer for whole token sequences (`Render`).
 */
module TokenizerProps {
  import opened Tokens
  import opened Tokenizer

  /** Source text that the scanner reads back as the token `t`. */
  function RenderToken(t: Token): string {
    match t
    case StringTok(s) => "'" + Escape(s) + "'"
    case NumberTok(n) => Show(n)
    case OpTok(c) => [c]
    case FuncTok(b) => "[" + b + "]"
    case SetVarTok(c) => [':', c]
    case SetOpTok(c) => ['#', c]
  }

  /** Source text for a token sequence: each token followed by one space. */
  function Render(ts: seq<Token>): string {
    if |ts| == 0 then "" else RenderToken(ts[0]) + " " + Render(ts[1..])
  }

  /** A token `Render` can print unambiguously: an operator that is not a
      special character, or a function body with balanced brackets. */
  predicate Printable(t: Token) {
    match t
    case OpTok(c) => !IsSpecial(c)
    case FuncTok(b) => Balanced(b)
    case _ => true
  }

  // ---------------------------------------------------------------- strings

  /** A doubled quote inside a literal yields one quote, and the literal ends
      at the first quote that is not followed by another: scanning the escaped
      form of `t` plus a closing quote gives back exactly `t`. */
  lemma {:induction false} ScanStringEscaped(t: string, rest: string)
    requires |rest| == 0 || rest[0] != '\''
    ensures ScanString(Escape(t) + "'" + rest) == Scan(t, rest)
  {
    var s := Escape(t) + "'" + rest;
    if |t| == 0 {
      assert s == "'" + rest;
      assert s[1..] == rest;
    } else {
      var s' := Escape(t[1..]) + "'" + rest;
      ScanStringEscaped(t[1..], rest);
      if t[0] == '\'' {
        assert s == "''" + s';
        assert s[0] == '\'' && s[1] == '\'' && s[2..] == s';
      } else {
        assert s == [t[0]] + s';
        assert s[0] == t[0] && s[1..] == s';
      }
      assert t == [t[0]] + t[1..];
    }
  }

  /** How a scanned literal relates to the text it was read from: an escaped
      text, then either a closing quote that is not doubled, or the end of
      the input. */
  predicate ReadsAs(s: string, r: Scan) {
    || (s == Escape(r.text) + "'" + r.rest && (|r.rest| == 0 || r.rest[0] != '\''))
    || (s == Escape(r.text) && |r.rest| == 0)
  }

  /** Whatever follows the opening quote, the scanner reads an escaped text
      and then either a closing quote that is not doubled, or the end of the
      input. */
  lemma {:induction false} ScanStringShape(s: string)
    ensures ReadsAs(s, ScanString(s))
  {
    if |s| == 0 {
    } else if s[0] == '\'' && |s| > 1 && s[1] == '\'' {
      ScanStringShape(s[2..]);
      assert s == "''" + s[2..];
      ReadsAsCons('\'', s[2..], "''");
    } else if s[0] == '\'' {
      assert s == "'" + s[1..];
    } else {
      ScanStringShape(s[1..]);
      assert s == [s[0]] + s[1..];
      ReadsAsCons(s[0], s[1..], [s[0]]);
    }
  }

  /** Prefixing the escaped form of one character keeps the shape. */
  lemma ReadsAsCons(c: char, s: string, e: string)
    requires e == (if c == '\'' then "''" else [c])
    requires ReadsAs(s, ScanString(s))
    requires ScanString(e + s) == Scan([c] + ScanString(s).text, ScanString(s).rest)
    ensures ReadsAs(e + s, ScanString(e + s))
  {
    var r := ScanString(s);
    EscapeCons(c, r.text);
    if s == Escape(r.text) + "'" + r.rest {
      assert e + s == Escape([c] + r.text) + "'" + r.rest;
    } else {
      assert e + s == Escape([c] + r.text);
    }
  }

  /** An unterminated literal silently takes the rest of the input. */
  lemma {:induction false} ScanStringUnterminated(t: string)
    ensures ScanString(Escape(t)) == Scan(t, "")
  {
    if |t| != 0 {
      ScanStringUnterminated(t[1..]);
      if t[0] == '\'' {
        assert Escape(t) == "''" + Escape(t[1..]);
        assert Escape(t)[2..] == Escape(t[1..]);
      } else {
        assert Escape(t) == [t[0]] + Escape(t[1..]);
        assert Escape(t)[1..] == Escape(t[1..]);
      }
      assert t == [t[0]] + t[1..];
    }
  }

  // -------------------------------------------------------- function bodies

  /** The body is exactly the text strictly between `[` and its
      depth-matching `]`, nested brackets included. */
  lemma {:induction false} ScanFuncMatched(b: string, depth: nat, rest: string)
    requires depth >= 1
    requires StaysOpen(b, depth) && DepthAfter(b, depth) == 1
    ensures ScanFunc(b + "]" + rest, depth) == Scan(b, rest)
  {
    var s := b + "]" + rest;
    if |b| == 0 {
      assert s == "]" + rest;
    } else {
      assert s[0] == b[0] && s[1..] == b[1..] + "]" + rest;
      if b[0] == ']' {
        ScanFuncMatched(b[1..], depth - 1, rest);
      } else if b[0] == '[' {
        ScanFuncMatched(b[1..], depth + 1, rest);
      } else {
        ScanFuncMatched(b[1..], depth, rest);
      }
      assert b == [b[0]] + b[1..];
    }
  }

  /** An unmatched `[` captures everything to the end of the input. */
  lemma {:induction false} ScanFuncUnmatched(u: string, depth: nat)
    requires depth >= 1
    requires StaysOpen(u, depth)
    ensures ScanFunc(u, depth) == Scan(u, "")
  {
    if |u| != 0 {
      if u[0] == ']' {
        ScanFuncUnmatched(u[1..], depth - 1);
      } else if u[0] == '[' {
        ScanFuncUnmatched(u[1..], depth + 1);
      } else {
        ScanFuncUnmatched(u[1..], depth);
      }
      assert u == [u[0]] + u[1..];
    }
  }

  // ---------------------------------------------------------------- numbers

  /** The digit scan splits off exactly a given maximal digit run. */
  lemma {:induction false} ScanDigitsRun(ds: string, rest: string)
    requires AllDigits(ds)
    requires |rest| == 0 || !IsDigit(rest[0])
    ensures ScanDigits(ds + rest) == Scan(ds, rest)
  {
    if |ds| != 0 {
      assert (ds + rest)[1..] == ds[1..] + rest;
      ScanDigitsRun(ds[1..], rest);
      assert ds == [ds[0]] + ds[1..];
    }
  }

  /** Reading back the decimal rendering of `n` gives `n`. */
  lemma {:induction false} ShowValue(n: nat)
    ensures DigitsValue(Show(n)) == n
  {
    if n >= 10 {
      ShowValue(n / 10);
      var s := Show(n);
      assert s[..|s| - 1] == Show(n / 10);
    }
  }

  // ------------------------------------------------------------ token level

  /** A maximal digit run is one number token holding its decimal value, and
      the character after the run is not skipped. */
  lemma NumberToken(ds: string, rest: string)
    requires |ds| > 0 && AllDigits(ds)
    requires |rest| == 0 || !IsDigit(rest[0])
    ensures Tokenize(ds + rest) == [NumberTok(DigitsValue(ds))] + Tokenize(rest)
  {
    ScanDigitsRun(ds, rest);
    assert (ds + rest)[0] == ds[0];
  }

  /** Whitespace emits nothing; any other non-special character is one operator
      token; `:` and `#` consume exactly one following character, and at the
      very end of the input bind the name `MissingName`. */
  lemma SingleCharacterTokens(c: char, rest: string)
    ensures IsSpace(c) ==> Tokenize([c] + rest) == Tokenize(rest)
    ensures !IsSpecial(c) ==> Tokenize([c] + rest) == [OpTok(c)] + Tokenize(rest)
    ensures Tokenize([':', c] + rest) == [SetVarTok(c)] + Tokenize(rest)
    ensures Tokenize(['#', c] + rest) == [SetOpTok(c)] + Tokenize(rest)
    ensures Tokenize(":") == [SetVarTok(MissingName)]
    ensures Tokenize("#") == [SetOpTok(MissingName)]
  {
    assert ([c] + rest)[1..] == rest;
    assert ([':', c] + rest)[2..] == rest;
    assert (['#', c] + rest)[2..] == rest;
  }

  /** A space after a token is skipped. */
  lemma SpaceSkipped(rest: string)
    ensures Tokenize(" " + rest) == Tokenize(rest)
  {
    assert (" " + rest)[1..] == rest;
  }

  lemma PrintedString(x: string, rest: string)
    ensures Tokenize("'" + Escape(x) + "'" + " " + rest) == [StringTok(x)] + Tokenize(rest)
  {
    var s := "'" + Escape(x) + "'" + " " + rest;
    assert s[0] == '\'' && s[1..] == Escape(x) + "'" + (" " + rest);
    ScanStringEscaped(x, " " + rest);
    SpaceSkipped(rest);
  }

  lemma PrintedFunc(b: string, rest: string)
    requires Balanced(b)
    ensures Tokenize("[" + b + "]" + " " + rest) == [FuncTok(b)] + Tokenize(rest)
  {
    var s := "[" + b + "]" + " " + rest;
    assert s[0] == '[' && s[1..] == b + "]" + (" " + rest);
    ScanFuncMatched(b, 1, " " + rest);
    SpaceSkipped(rest);
  }

  lemma PrintedNumber(n: nat, rest: string)
    ensures Tokenize(Show(n) + " " + rest) == [NumberTok(n)] + Tokenize(rest)
  {
    NumberToken(Show(n), " " + rest);
    ShowValue(n);
    assert Show(n) + " " + rest == Show(n) + (" " + rest);
    SpaceSkipped(rest);
  }

  /** Scanning a printed token followed by a space gives back the token and
      leaves the input after the space. */
  lemma PrintedToken(t: Token, rest: string)
    requires Printable(t)
    ensures Tokenize(RenderToken(t) + " " + rest) == [t] + Tokenize(rest)
  {
    match t
    case StringTok(x) => PrintedString(x, rest);
    case NumberTok(n) => PrintedNumber(n, rest);
    case FuncTok(b) => PrintedFunc(b, rest);
    case OpTok(c) => PrintedOp(c, rest);
    case SetVarTok(c) => PrintedDirective(':', c, rest);
    case SetOpTok(c) => PrintedDirective('#', c, rest);
  }

  lemma PrintedOp(c: char, rest: string)
    requires !IsSpecial(c)
    ensures Tokenize([c] + " " + rest) == [OpTok(c)] + Tokenize(rest)
  {
    var s := [c] + " " + rest;
    assert s[1..] == " " + rest;
    SpaceSkipped(rest);
  }

  lemma PrintedDirective(d: char, c: char, rest: string)
    requires d == ':' || d == '#'
    ensures Tokenize([d, c] + " " + rest)
         == [if d == ':' then SetVarTok(c) else SetOpTok(c)] + Tokenize(rest)
  {
    var s := [d, c] + " " + rest;
    assert s[2..] == " " + rest;
    SpaceSkipped(rest);
  }

  /** Round trip: printing a sequence of printable tokens and scanning the
      text gives back the same tokens, in the same order. */
  lemma {:induction false} TokenizeRender(ts: seq<Token>)
    requires forall i :: 0 <= i < |ts| ==> Printable(ts[i])
    ensures Tokenize(Render(ts)) == ts
  {
    if |ts| != 0 {
      TokenizeRender(ts[1..]);
      PrintedToken(ts[0], Render(ts[1..]));
      assert ts == [ts[0]] + ts[1..];
    }
  }

  /** Text without brackets never changes the nesting depth. */
  lemma {:induction false} NoBrackets(t: string, d: int)
    requires d >= 1 && '[' !in t && ']' !in t
    ensures StaysOpen(t, d) && DepthAfter(t, d) == d
  {
    if |t| != 0 {
      assert t == [t[0]] + t[1..];
      NoBrackets(t[1..], d);
    }
  }

  /** A function literal with a balanced body is one token, whatever follows it. */
  lemma FuncToken(b: string, rest: string)
    requires Balanced(b)
    ensures Tokenize("[" + b + "]" + rest) == [FuncTok(b)] + Tokenize(rest)
  {
    var s := "[" + b + "]" + rest;
    assert s[0] == '[' && s[1..] == b + "]" + rest;
    ScanFuncMatched(b, 1, rest);
  }

  // --------------------------------------------------------------- examples

  /** A doubled quote inside a literal is one quote. */
  lemma EscapedQuoteExample()
    ensures Tokenize("'a''b'") == [StringTok("a'b")]
  {
    ScanStringEscaped("a'b", "");
    assert "'a''b'"[1..] == Escape("a'b") + "'" + "";
  }

  /** Nested brackets are kept verbatim in a function body. */
  lemma NestedFuncExample()
    ensures Tokenize("[x[y]z]") == [FuncTok("x[y]z")]
  {
    ScanFuncMatched("x[y]z", 1, "");
    assert "[x[y]z]"[1..] == "x[y]z" + "]" + "";
  }
}
