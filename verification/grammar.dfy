/** The parser's input bytes, its errors, Java int arithmetic, and the reference
    definition of what each parsing routine returns when started at a position:
    `or := and ("||" operand)*`, `and := operand ("&" operand)*`,
    `operand := "(" or ")" | digits`. */
module Grammar {
  import opened Ast

  newtype byte = x: int | 0 <= x < 256

  const BitOr: byte := 124             // '|'
  const LogicalAnd: byte := 38         // '&'
  const OpenParenthesis: byte := 40    // '('
  const CloseParenthesis: byte := 41   // ')'
  const Zero: byte := 48               // '0'
  const Nine: byte := 57               // '9'

  /** A parse failure: the byte or the number the parser expected, and the position
      at which it was missing. */
  datatype ParseError =
    | Expected(expected: byte, position: nat)
    | ExpectedNumber(position: nat)

  datatype Result<+T> = Ok(value: T) | Err(error: ParseError) {
    predicate IsFailure() { Err? }
    function PropagateFailure<U>(): Result<U> requires Err? { Err(error) }
    function Extract(): T requires Ok? { value }
  }

  /** A result with no value, for `expect`. */
  datatype Outcome = Pass | Fail(error: ParseError) {
    predicate IsFailure() { Fail? }
    function PropagateFailure<U>(): Result<U> requires Fail? { Err(error) }
  }

  /** What a routine produced and the position just after what it consumed. */
  datatype Parsed<+T> = Parsed(item: T, next: nat)

  // ---------------------------------------------------------------------------
  // Whitespace removal

  /** The bytes the regular expression `\s` matches: tab, line feed, vertical tab,
      form feed, carriage return and space. */
  predicate IsWhitespace(b: byte) {
    9 <= b <= 13 || b == 32
  }

  /** `replaceAll("\\s+", "")`: the input with every whitespace byte removed. */
  function Strip(text: seq<byte>): (s: seq<byte>)
    ensures |s| <= |text|
  {
    if |text| == 0 then []
    else if IsWhitespace(text[0]) then Strip(text[1..])
    else [text[0]] + Strip(text[1..])
  }

  // ---------------------------------------------------------------------------
  // Numbers

  /** `isDigit`: the bytes '0' to '9', which are exactly those whose digit value is
      a decimal digit. */
  predicate IsDigit(b: byte)
    ensures IsDigit(b) <==> 0 <= DigitValue(b) < 10
  {
    Zero <= b <= Nine
  }

  /** `b - '0'`, computed in int. */
  function DigitValue(b: byte): int {
    b as int - Zero as int
  }

  /** Java's int: the value reduced modulo 2^32 into [-2^31, 2^31). */
  function Int32(x: int): (r: int)
    ensures -0x8000_0000 <= r < 0x8000_0000
    ensures -0x8000_0000 <= x < 0x8000_0000 ==> r == x
  {
    (x + 0x8000_0000) % 0x1_0000_0000 - 0x8000_0000
  }

  /** The value `value = value * 10 + (digit - '0')` accumulates in a Java int. */
  function AccumulatedValue(digits: seq<byte>): (v: int)
    ensures -0x8000_0000 <= v < 0x8000_0000
    ensures |digits| == 0 ==> v == 0
  {
    if |digits| == 0 then 0
    else Int32(AccumulatedValue(digits[..|digits| - 1]) * 10 + DigitValue(digits[|digits| - 1]))
  }

  /** The decimal value of a digit run, without any bound. */
  function Decimal(digits: seq<byte>): int {
    if |digits| == 0 then 0
    else Decimal(digits[..|digits| - 1]) * 10 + DigitValue(digits[|digits| - 1])
  }

  /** The end of the maximal run of digits that starts at `p`. */
  function RunEnd(s: seq<byte>, p: nat): (q: nat)
    requires p <= |s|
    ensures p <= q <= |s|
    ensures forall k :: p <= k < q ==> IsDigit(s[k])
    ensures q == |s| || !IsDigit(s[q])
    decreases |s| - p
  {
    if p < |s| && IsDigit(s[p]) then RunEnd(s, p + 1) else p
  }

  /** `parseNumber` started at `p`. */
  function NumberAt(s: seq<byte>, p: nat): (r: Result<Parsed<int>>)
    requires p <= |s|
    ensures r.Err? <==> p == |s| || !IsDigit(s[p])
    ensures r.Err? ==> r.error == ExpectedNumber(p)
    ensures r.Ok? ==> p < r.value.next <= |s|
  {
    var q := RunEnd(s, p);
    if q == p then Err(ExpectedNumber(p)) else Ok(Parsed(AccumulatedValue(s[p..q]), q))
  }

  // ---------------------------------------------------------------------------
  // Operators and operands

  /** Whether byte `b` is at position `p` (what `match` tests). */
  predicate At(s: seq<byte>, p: nat, b: byte) {
    p < |s| && s[p] == b
  }

  /** Whether two bars start at position `p` (what `matchOrOperator` tests). */
  predicate AtOrOperator(s: seq<byte>, p: nat) {
    p + 1 < |s| && s[p] == BitOr && s[p + 1] == BitOr
  }

  /** `parseOrExpression` started at `p`. */
  function OrAt(s: seq<byte>, p: nat): (r: Result<Parsed<Expr>>)
    requires p <= |s|
    ensures r.Ok? ==> p < r.value.next <= |s|
    ensures r.Err? ==> p <= r.error.position <= |s|
    ensures p == |s| ==> r == Err(ExpectedNumber(p))
    decreases |s| - p, 2
  {
    match AndAt(s, p)
    case Err(e) => Err(e)
    case Ok(Parsed(left, q)) => OrChain(s, q, left)
  }

  /** The loop of `parseOrExpression` from position `q`, with `acc` built so far. */
  function OrChain(s: seq<byte>, q: nat, acc: Expr): (r: Result<Parsed<Expr>>)
    requires q <= |s|
    ensures r.Ok? ==> q <= r.value.next <= |s|
    ensures r.Err? ==> q < r.error.position <= |s|
    decreases |s| - q, 0
  {
    if AtOrOperator(s, q) then
      match OperandAt(s, q + 2)
      case Err(e) => Err(e)
      case Ok(Parsed(right, q')) => OrChain(s, q', Or(acc, right))
    else Ok(Parsed(acc, q))
  }

  /** `parseAndExpression` started at `p`. */
  function AndAt(s: seq<byte>, p: nat): (r: Result<Parsed<Expr>>)
    requires p <= |s|
    ensures r.Ok? ==> p < r.value.next <= |s|
    ensures r.Err? ==> p <= r.error.position <= |s|
    ensures p == |s| ==> r == Err(ExpectedNumber(p))
    decreases |s| - p, 1
  {
    match OperandAt(s, p)
    case Err(e) => Err(e)
    case Ok(Parsed(left, q)) => AndChain(s, q, left)
  }

  /** The loop of `parseAndExpression` from position `q`, with `acc` built so far. */
  function AndChain(s: seq<byte>, q: nat, acc: Expr): (r: Result<Parsed<Expr>>)
    requires q <= |s|
    ensures r.Ok? ==> q <= r.value.next <= |s|
    ensures r.Err? ==> q < r.error.position <= |s|
    decreases |s| - q, 0
  {
    if At(s, q, LogicalAnd) then
      match OperandAt(s, q + 1)
      case Err(e) => Err(e)
      case Ok(Parsed(right, q')) => AndChain(s, q', And(acc, right))
    else Ok(Parsed(acc, q))
  }

  /** `parseOperand` started at `p`: a parenthesised or-expression that must be
      closed, or a number. A successful operand consumes at least one byte. */
  function OperandAt(s: seq<byte>, p: nat): (r: Result<Parsed<Expr>>)
    requires p <= |s|
    ensures r.Ok? ==> p < r.value.next <= |s|
    ensures r.Err? ==> p <= r.error.position <= |s|
    ensures p == |s| ==> r == Err(ExpectedNumber(p))
    decreases |s| - p, 0
  {
    if At(s, p, OpenParenthesis) then
      match OrAt(s, p + 1)
      case Err(e) => Err(e)
      case Ok(Parsed(inner, q)) =>
        if At(s, q, CloseParenthesis) then Ok(Parsed(inner, q + 1))
        else Err(Expected(CloseParenthesis, q))
    else
      match NumberAt(s, p)
      case Err(e) => Err(e)
      case Ok(Parsed(v, q)) => Ok(Parsed(Equal(v), q))
  }

  /** `ExpressionParser.parse(text)`: strip whitespace, parse one or-expression from
      the start, and ignore whatever follows it. */
  function Parse(text: seq<byte>): (r: Result<Expr>)
    ensures r.Err? ==> r.error.position <= |Strip(text)|
    ensures Strip(text) == [] ==> r == Err(ExpectedNumber(0))
  {
    match OrAt(Strip(text), 0)
    case Err(e) => Err(e)
    case Ok(Parsed(e, _)) => Ok(e)
  }
}
