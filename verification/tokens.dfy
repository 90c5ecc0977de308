/**
  The lexical vocabulary of Spectrum: the six token kinds the scanner emits,
  the character classes it tests, and the reference notions (quote escaping,
  bracket nesting, decimal digits) its contracts are stated in.
 */
module Tokens {

  /** One token of a Spectrum program. Tokens carry no positions; their order
      alone encodes control flow. */
  datatype Token =
    | StringTok(text: string)   // a quoted literal, escapes already undone
    | NumberTok(value: nat)     // a maximal run of decimal digits
    | OpTok(symbol: char)       // any other single character
    | FuncTok(body: string)     // the raw, untokenized text between `[` and its `]`
    | SetVarTok(name: char)     // `:c`
    | SetOpTok(name: char)      // `#c`

  /** The binding name of a `:` or `#` that ends the program: the source
      concatenates the directive with an out-of-range read, giving the string
      ":undefined", and later takes its second character. */
  const MissingName: char := 'u'

  /** JavaScript's `\s` character class. */
  predicate IsSpace(c: char) {
    || c == ' ' || c == '\t' || c == '\n' || c == '\r'
    || c == '\U{0B}' || c == '\U{0C}' || c == '\U{A0}' || c == '\U{1680}'
    || ('\U{2000}' <= c <= '\U{200A}')
    || c == '\U{2028}' || c == '\U{2029}' || c == '\U{202F}' || c == '\U{205F}'
    || c == '\U{3000}' || c == '\U{FEFF}'
  }

  predicate IsDigit(c: char) {
    '0' <= c <= '9'
  }

  predicate AllDigits(s: string) {
    forall i :: 0 <= i < |s| ==> IsDigit(s[i])
  }

  lemma AllDigitsCons(c: char, t: string)
    requires IsDigit(c) && AllDigits(t)
    ensures AllDigits([c] + t)
  {
    assert forall i :: 1 <= i < |t| + 1 ==> ([c] + t)[i] == t[i - 1];
  }

  /** A character that starts something other than a one-character operator. */
  predicate IsSpecial(c: char) {
    c == '\'' || c == '[' || c == ':' || c == '#' || IsDigit(c) || IsSpace(c)
  }

  /** The decimal value of a digit string, most significant digit first;
      leading zeros are allowed, as in JavaScript's unary `+`. */
  function DigitsValue(ds: string): nat
    requires AllDigits(ds)
  {
    if |ds| == 0 then 0
    else 10 * DigitsValue(ds[..|ds| - 1]) + (ds[|ds| - 1] - '0') as nat
  }

  /** The canonical decimal rendering of `n`, without leading zeros. */
  function Show(n: nat): (r: string)
    ensures |r| > 0 && AllDigits(r)
  {
    if n < 10 then [('0' as int + n) as char]
    else Show(n / 10) + [('0' as int + n % 10) as char]
  }

  /** The body of a quoted literal whose contents are `t`: every quote doubled. */
  function Escape(t: string): string {
    if |t| == 0 then ""
    else if t[0] == '\'' then "''" + Escape(t[1..])
    else [t[0]] + Escape(t[1..])
  }

  /** Escaping works character by character from the front. */
  lemma EscapeCons(c: char, t: string)
    ensures Escape([c] + t) == (if c == '\'' then "''" else [c]) + Escape(t)
  {
    assert ([c] + t)[1..] == t;
  }

  /** The nesting depth after reading `t` starting at depth `d`. */
  function DepthAfter(t: string, d: int): int {
    if |t| == 0 then d
    else if t[0] == ']' then DepthAfter(t[1..], d - 1)
    else if t[0] == '[' then DepthAfter(t[1..], d + 1)
    else DepthAfter(t[1..], d)
  }

  /** Reading `t` from depth `d`, no `]` brings the depth down to zero. */
  predicate StaysOpen(t: string, d: int) {
    if |t| == 0 then true
    else if t[0] == ']' then d > 1 && StaysOpen(t[1..], d - 1)
    else if t[0] == '[' then StaysOpen(t[1..], d + 1)
    else StaysOpen(t[1..], d)
  }

  /** `b` can sit between `[` and `]` with the `]` being the matching one:
      brackets inside it are balanced. */
  predicate Balanced(b: string) {
    StaysOpen(b, 1) && DepthAfter(b, 1) == 1
  }
}
