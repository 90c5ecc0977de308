/**
  The Spectrum scanner (`Spectrum.tokenize`): a single left-to-right pass that
  turns program text into tokens. Written on the unread suffix of the input
  rather than on an index; each sub-scanner hands back the text it built and
  the input that follows what it consumed.
 */
module Tokenizer {
  import opened Tokens

  /** What a sub-scanner produced and the input left after it. */
  datatype Scan = Scan(text: string, rest: string)

  /** Reads the contents of a quoted literal; `s` starts just after the opening
      quote. A doubled quote stands for one quote; a quote not followed by
      another ends the literal and is consumed; running out of input ends the
      literal silently. */
  function ScanString(s: string): (r: Scan)
    ensures |r.rest| <= |s|
  {
    if |s| == 0 then Scan("", "")
    else if s[0] == '\'' then
      if |s| > 1 && s[1] == '\'' then
        var r := ScanString(s[2..]);
        Scan("'" + r.text, r.rest)
      else
        Scan("", s[1..])
    else
      var r := ScanString(s[1..]);
      Scan([s[0]] + r.text, r.rest)
  }

  /** Reads the body of a function literal at nesting depth `depth`; `s`
      starts just after the opening `[`. Brackets are counted and kept
      verbatim, quotes are ordinary characters, the matching `]` is consumed,
      and an unmatched `[` takes the rest of the input. */
  function ScanFunc(s: string, depth: nat): (r: Scan)
    requires depth >= 1
    ensures |r.rest| <= |s|
    ensures StaysOpen(r.text, depth)
    ensures
      || (s == r.text + "]" + r.rest && DepthAfter(r.text, depth) == 1)
      || (s == r.text && |r.rest| == 0)
  {
    if |s| == 0 then Scan("", "")
    else if s[0] == ']' then
      if depth == 1 then
        assert s == "]" + s[1..];
        Scan("", s[1..])
      else
        var r := ScanFunc(s[1..], depth - 1);
        assert s == "]" + s[1..];
        assert ("]" + r.text)[1..] == r.text;
        Scan("]" + r.text, r.rest)
    else if s[0] == '[' then
      var r := ScanFunc(s[1..], depth + 1);
      assert s == "[" + s[1..];
      assert ("[" + r.text)[1..] == r.text;
      Scan("[" + r.text, r.rest)
    else
      var r := ScanFunc(s[1..], depth);
      assert s == [s[0]] + s[1..];
      assert ([s[0]] + r.text)[1..] == r.text;
      Scan([s[0]] + r.text, r.rest)
  }

  /** Reads a maximal run of decimal digits from the front of `s`. */
  function ScanDigits(s: string): (r: Scan)
    ensures s == r.text + r.rest
    ensures AllDigits(r.text)
    ensures |r.rest| == 0 || !IsDigit(r.rest[0])
  {
    if |s| == 0 || !IsDigit(s[0]) then
      assert s == "" + s;
      Scan("", s)
    else
      var r := ScanDigits(s[1..]);
      assert s == [s[0]] + r.text + r.rest;
      AllDigitsCons(s[0], r.text);
      Scan([s[0]] + r.text, r.rest)
  }

  /** The binding name of a directive at the front of `s` and the input after it. */
  function Directive(s: string): (char, string)
    requires |s| >= 1
  {
    if |s| >= 2 then (s[1], s[2..]) else (MissingName, "")
  }

  /** A token the scanner can emit: operators are never special characters,
      and a function body never closes its own bracket. */
  predicate Scannable(t: Token) {
    match t
    case OpTok(c) => !IsSpecial(c)
    case FuncTok(b) => StaysOpen(b, 1)
    case _ => true
  }

  /** `Spectrum.tokenize`. Every token consumes at least one character, so there
      are never more tokens than characters, and every token is one the
      scanner's branches can build. */
  function Tokenize(s: string): (r: seq<Token>)
    ensures |r| <= |s|
    ensures forall i :: 0 <= i < |r| ==> Scannable(r[i])
    decreases |s|
  {
    if |s| == 0 then []
    else if s[0] == '\'' then
      var r := ScanString(s[1..]);
      [StringTok(r.text)] + Tokenize(r.rest)
    else if s[0] == '[' then
      var r := ScanFunc(s[1..], 1);
      [FuncTok(r.text)] + Tokenize(r.rest)
    else if s[0] == ':' then
      var (name, rest) := Directive(s);
      [SetVarTok(name)] + Tokenize(rest)
    else if s[0] == '#' then
      var (name, rest) := Directive(s);
      [SetOpTok(name)] + Tokenize(rest)
    else if IsDigit(s[0]) then
      var r := ScanDigits(s);
      [NumberTok(DigitsValue(r.text))] + Tokenize(r.rest)
    else if IsSpace(s[0]) then
      Tokenize(s[1..])
    else
      [OpTok(s[0])] + Tokenize(s[1..])
  }
}
