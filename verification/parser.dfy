/** `ExpressionParser`: a recursive-descent scanner over the whitespace-free input
    bytes with a single mutable cursor `pos`. Each routine is proved against its
    reference function in Grammar: on success it returns that function's tree and
    leaves `pos` just after what the function consumed; on failure it returns the
    function's error. */
module Parser {
  import opened Ast
  import opened Grammar

  /** The view of a routine's result and final cursor that its reference function gives. */
  function AsParsed<T>(r: Result<T>, pos: nat): Result<Parsed<T>> {
    match r
    case Ok(v) => Ok(Parsed(v, pos))
    case Err(e) => Err(e)
  }

  class ExpressionParser {
    /** The input with its whitespace removed; the array is never written. */
    const expression: seq<byte>
    var pos: nat

    ghost predicate Valid()
      reads this
    {
      pos <= |expression|
    }

    /** Removes the whitespace and starts at the first byte. */
    constructor (text: seq<byte>)
      ensures expression == Strip(text) && pos == 0
      ensures Valid()
    {
      expression := Strip(text);
      pos := 0;
    }

    /** `ExpressionParser.parse(String)`: a fresh parser over `text`, run once. */
    static method ParseText(text: seq<byte>) returns (r: Result<Expr>)
      ensures r == Grammar.Parse(text)
    {
      var parser := new ExpressionParser(text);
      r := parser.Parse();
    }

    /** `parse()`: one or-expression from the current position; nothing checks that
        the input was used up. */
    method Parse() returns (r: Result<Expr>)
      requires Valid()
      modifies this
      ensures Valid()
      ensures AsParsed(r, pos) == OrAt(expression, old(pos))
    {
      r := ParseOrExpression();
    }

    /** Consumes `b` if it is the next byte. */
    method Match(b: byte) returns (matched: bool)
      requires Valid()
      modifies this
      ensures Valid()
      ensures matched == At(expression, old(pos), b)
      ensures pos == if matched then old(pos) + 1 else old(pos)
    {
      if pos < |expression| && expression[pos] == b {
        pos := pos + 1;
        return true;
      }
      return false;
    }

    /** Consumes `b`, or fails at the current position. */
    method Expect(b: byte) returns (r: Outcome)
      requires Valid()
      modifies this
      ensures Valid()
      ensures r == if At(expression, old(pos), b) then Pass else Fail(Expected(b, old(pos)))
      ensures pos == if r.Pass? then old(pos) + 1 else old(pos)
    {
      var matched := Match(b);
      if !matched {
        return Fail(Expected(b, pos));
      }
      return Pass;
    }

    method ParseOrExpression() returns (r: Result<Expr>)
      requires Valid()
      modifies this
      decreases |expression| - pos, 2
      ensures Valid()
      ensures AsParsed(r, pos) == OrAt(expression, old(pos))
    {
      var result :- ParseAndExpression();
      while true
        invariant Valid() && old(pos) < pos
        invariant OrChain(expression, pos, result) == OrAt(expression, old(pos))
        decreases |expression| - pos
      {
        var isOr := MatchOrOperator();
        if !isOr {
          break;
        }
        var right :- ParseOperand();
        result := Or(result, right);
      }
      return Ok(result);
    }

    /** Consumes two bars if both are next; a single bar is left alone. */
    method MatchOrOperator() returns (matched: bool)
      requires Valid()
      modifies this
      ensures Valid()
      ensures matched == AtOrOperator(expression, old(pos))
      ensures pos == if matched then old(pos) + 2 else old(pos)
    {
      var nextPos := pos + 1;
      if nextPos < |expression| && expression[pos] == BitOr && expression[nextPos] == BitOr {
        pos := nextPos + 1;
        return true;
      }
      return false;
    }

    method ParseAndExpression() returns (r: Result<Expr>)
      requires Valid()
      modifies this
      decreases |expression| - pos, 1
      ensures Valid()
      ensures AsParsed(r, pos) == AndAt(expression, old(pos))
    {
      var result :- ParseOperand();
      while true
        invariant Valid() && old(pos) < pos
        invariant AndChain(expression, pos, result) == AndAt(expression, old(pos))
        decreases |expression| - pos
      {
        var isAnd := MatchAndOperator();
        if !isAnd {
          break;
        }
        var right :- ParseOperand();
        result := And(result, right);
      }
      return Ok(result);
    }

    method MatchAndOperator() returns (matched: bool)
      requires Valid()
      modifies this
      ensures Valid()
      ensures matched == At(expression, old(pos), LogicalAnd)
      ensures pos == if matched then old(pos) + 1 else old(pos)
    {
      matched := Match(LogicalAnd);
    }

    method ParseOperand() returns (r: Result<Expr>)
      requires Valid()
      modifies this
      decreases |expression| - pos, 0
      ensures Valid()
      ensures AsParsed(r, pos) == OperandAt(expression, old(pos))
    {
      var open := Match(OpenParenthesis);
      if open {
        var result :- ParseOrExpression();
        :- Expect(CloseParenthesis);
        return Ok(result);
      }
      var value :- ParseNumber();
      return Ok(Equal(value));
    }

    /** Scans the maximal digit run from `pos`, accumulating its value in a Java int. */
    method ParseNumber() returns (r: Result<int>)
      requires Valid()
      modifies this
      ensures Valid()
      ensures AsParsed(r, pos) == NumberAt(expression, old(pos))
    {
      var i := pos;
      var value := 0;
      while i < |expression| && IsDigit(expression[i])
        invariant pos <= i <= |expression|
        invariant RunEnd(expression, i) == RunEnd(expression, pos)
        invariant value == AccumulatedValue(expression[pos..i])
        decreases |expression| - i
      {
        assert expression[pos..i + 1][..i - pos] == expression[pos..i];
        value := Int32(value * 10 + DigitValue(expression[i]));
        i := i + 1;
      }
      if pos != i {
        pos := i;
        return Ok(value);
      }
      return Err(ExpectedNumber(i));
    }
  }
}
