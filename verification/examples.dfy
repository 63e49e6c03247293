/** The repository's unit-test scenarios, stated as lemmas over the model. The texts
    are written without blanks; by GrammarProperties.WhitespaceIgnored the spaced
    forms the tests use parse to the same result. */
module Examples {
  import opened Ast
  import opened Grammar
  import opened GrammarProperties

  /** The ISO-8859-1 bytes of a text whose characters are all Latin-1. */
  function Bytes(text: string): seq<byte>
    requires forall i :: 0 <= i < |text| ==> text[i] as int < 256
  {
    seq(|text|, i requires 0 <= i < |text| => text[i] as int as byte)
  }

  // ---------------------------------------------------------------------------
  // Helpers: one parsing step each

  /** A lone digit followed by a non-digit is an operand of its own. */
  lemma OneDigitOperand(s: seq<byte>, p: nat)
    requires p < |s| && IsDigit(s[p])
    requires p + 1 == |s| || !IsDigit(s[p + 1])
    ensures OperandAt(s, p) == Ok(Parsed(Equal(DigitValue(s[p])), p + 1))
  {
    assert RunEnd(s, p) == p + 1;
    var d := s[p..p + 1];
    assert d[..0] == [] && d[0] == s[p];
    assert AccumulatedValue(d) == DigitValue(s[p]);
    assert NumberAt(s, p) == Ok(Parsed(DigitValue(s[p]), p + 1));
  }

  // ---------------------------------------------------------------------------
  // ExpressionParserTest

  lemma ParsesNumber()
    ensures Parse(Bytes("42")) == Ok(Equal(42))
  {
    var s: seq<byte> := [52, 50];
    assert Bytes("42") == s;
    StripKeepsClean(s);
    assert RunEnd(s, 0) == 2;
    assert s[0..2] == s;
    assert AccumulatedValue(s) == 42 by {
      assert s[..1] == [52];
      var four: seq<byte> := [52];
      assert four[..0] == [];
    }
  }

  /** The test's own spaced text parses as the blank-free one. */
  lemma SpacedOr()
    ensures Parse(Bytes("1 || 2")) == Parse(Bytes("1||2"))
  {
    var a, b, c: seq<byte> := [49], [124, 124], [50];
    assert Bytes("1 || 2") == a + [32] + (b + [32] + c);
    WhitespaceIgnored(a, 32, b + [32] + c);
    assert a + (b + [32] + c) == (a + b) + [32] + c;
    WhitespaceIgnored(a + b, 32, c);
    assert Bytes("1||2") == a + b + c;
  }

  lemma ParsesSpacedOr()
    ensures Parse(Bytes("1 || 2")) == Ok(Or(Equal(1), Equal(2)))
  {
    SpacedOr();
    ParsesOr();
  }

  lemma ParsesOr()
    ensures Parse(Bytes("1||2")) == Ok(Or(Equal(1), Equal(2)))
  {
    var s: seq<byte> := [49, 124, 124, 50];
    assert Bytes("1||2") == s;
    StripKeepsClean(s);
    OneDigitOperand(s, 0);
    OneDigitOperand(s, 3);
    assert AndAt(s, 0) == Ok(Parsed(Equal(1), 1));
    assert OrChain(s, 4, Or(Equal(1), Equal(2))) == Ok(Parsed(Or(Equal(1), Equal(2)), 4));
  }

  lemma ParsesAnd()
    ensures Parse(Bytes("1&2")) == Ok(And(Equal(1), Equal(2)))
  {
    var s: seq<byte> := [49, 38, 50];
    assert Bytes("1&2") == s;
    StripKeepsClean(s);
    OneDigitOperand(s, 0);
    OneDigitOperand(s, 2);
    assert AndChain(s, 3, And(Equal(1), Equal(2))) == Ok(Parsed(And(Equal(1), Equal(2)), 3));
    assert AndChain(s, 1, Equal(1)) == Ok(Parsed(And(Equal(1), Equal(2)), 3));
  }

  /** Chains nest to the left. */
  lemma AndChainsNestLeft()
    ensures Parse(Bytes("1&2&3")) == Ok(And(And(Equal(1), Equal(2)), Equal(3)))
  {
    var s: seq<byte> := [49, 38, 50, 38, 51];
    assert Bytes("1&2&3") == s;
    StripKeepsClean(s);
    OneDigitOperand(s, 0);
    OneDigitOperand(s, 2);
    OneDigitOperand(s, 4);
    var tree := And(And(Equal(1), Equal(2)), Equal(3));
    assert AndChain(s, 5, tree) == Ok(Parsed(tree, 5));
    assert AndChain(s, 3, And(Equal(1), Equal(2))) == Ok(Parsed(tree, 5));
    assert AndChain(s, 1, Equal(1)) == Ok(Parsed(tree, 5));
  }

  /** The right-nested reading of `1&2&3` is not a left chain: no `&` in the text is
      followed by an operand that parses to `And(2, 3)`. */
  lemma RightNestingIsNoAndChain()
    ensures AndLeftChain(Bytes("1&2&3"), And(Equal(1), Equal(2)), Equal(1), 1, 3)
    ensures !AndLeftChain(Bytes("1&2&3"), And(Equal(1), And(Equal(2), Equal(3))), Equal(1), 1, 5)
  {
    var s: seq<byte> := [49, 38, 50, 38, 51];
    assert Bytes("1&2&3") == s;
    OneDigitOperand(s, 2);
    OneDigitOperand(s, 4);
    assert AndLeftChain(s, Equal(1), Equal(1), 1, 1);
    forall m: nat | 1 <= m < 5 && At(s, m, LogicalAnd)
      ensures OperandAt(s, m + 1) != Ok(Parsed(And(Equal(2), Equal(3)), 5))
    {
      assert m == 1 || m == 3;
    }
  }

  lemma OrChainsNestLeft()
    ensures Parse(Bytes("1||2||3")) == Ok(Or(Or(Equal(1), Equal(2)), Equal(3)))
  {
    var s: seq<byte> := [49, 124, 124, 50, 124, 124, 51];
    assert Bytes("1||2||3") == s;
    StripKeepsClean(s);
    OrChainsSteps(s);
  }

  lemma OrChainsSteps(s: seq<byte>)
    requires s == [49, 124, 124, 50, 124, 124, 51]
    ensures OrAt(s, 0) == Ok(Parsed(Or(Or(Equal(1), Equal(2)), Equal(3)), 7))
  {
    OneDigitOperand(s, 0);
    OneDigitOperand(s, 3);
    OneDigitOperand(s, 6);
    var tree := Or(Or(Equal(1), Equal(2)), Equal(3));
    assert AndAt(s, 0) == Ok(Parsed(Equal(1), 1));
    assert OrChain(s, 7, tree) == Ok(Parsed(tree, 7));
    assert OrChain(s, 4, Or(Equal(1), Equal(2))) == Ok(Parsed(tree, 7));
  }

  /** The right side of `||` is one operand: the `&` at position 4 is looked at by
      the `||` test and then left unconsumed, with the `3` after it, and the root is
      a disjunction. */
  lemma ParsesOrWithOneRightOperand()
    ensures Parse(Bytes("1||2&3")) == Ok(Or(Equal(1), Equal(2)))
  {
    var s: seq<byte> := [49, 124, 124, 50, 38, 51];
    assert Bytes("1||2&3") == s;
    StripKeepsClean(s);
    OrWithOneRightOperandSteps(s);
  }

  lemma OrWithOneRightOperandSteps(s: seq<byte>)
    requires s == [49, 124, 124, 50, 38, 51]
    ensures OrAt(s, 0) == Ok(Parsed(Or(Equal(1), Equal(2)), 4))
  {
    OneDigitOperand(s, 0);
    OneDigitOperand(s, 3);
    assert AndAt(s, 0) == Ok(Parsed(Equal(1), 1));
    assert OrChain(s, 4, Or(Equal(1), Equal(2))) == Ok(Parsed(Or(Equal(1), Equal(2)), 4));
  }

  /** A bar on its own is no operator: parsing stops before it. */
  lemma SingleBarIsNoOperator()
    ensures Parse(Bytes("1|2")) == Ok(Equal(1))
  {
    var s: seq<byte> := [49, 124, 50];
    assert Bytes("1|2") == s;
    StripKeepsClean(s);
    OneDigitOperand(s, 0);
    assert AndAt(s, 0) == Ok(Parsed(Equal(1), 1));
  }

  /** A doubled `&` is no operator: after the first `&` an operand is due, and the
      second `&` is not one. */
  lemma DoubleAmpersandFails()
    ensures Parse(Bytes("1&&2")) == Err(ExpectedNumber(2))
  {
    var s: seq<byte> := [49, 38, 38, 50];
    assert Bytes("1&&2") == s;
    StripKeepsClean(s);
    OneDigitOperand(s, 0);
    assert OperandAt(s, 2) == Err(ExpectedNumber(2));
    assert AndChain(s, 1, Equal(1)) == Err(ExpectedNumber(2));
  }

  lemma UnclosedParenthesisFails()
    ensures Parse(Bytes("(1||2")) == Err(Expected(CloseParenthesis, 5))
  {
    var s: seq<byte> := [40, 49, 124, 124, 50];
    assert Bytes("(1||2") == s;
    StripKeepsClean(s);
    UnclosedSteps(s);
  }

  lemma UnclosedSteps(s: seq<byte>)
    requires s == [40, 49, 124, 124, 50]
    ensures AndAt(s, 0) == Err(Expected(CloseParenthesis, 5))
  {
    OneDigitOperand(s, 1);
    OneDigitOperand(s, 4);
    assert AndAt(s, 1) == Ok(Parsed(Equal(1), 2));
    assert OrChain(s, 5, Or(Equal(1), Equal(2))) == Ok(Parsed(Or(Equal(1), Equal(2)), 5));
    assert OrAt(s, 1) == Ok(Parsed(Or(Equal(1), Equal(2)), 5));
    assert OperandAt(s, 0) == Err(Expected(CloseParenthesis, 5));
  }

  lemma EmptyInputFails()
    ensures Parse(Bytes("")) == Err(ExpectedNumber(0))
  {
    BlankInputFails(Bytes(""));
  }

  lemma ParsesNested()
    ensures Parse(Bytes("(1&2)||(3&(4||5))"))
            == Ok(Or(And(Equal(1), Equal(2)), And(Equal(3), Or(Equal(4), Equal(5)))))
  {
    var s: seq<byte> := [40, 49, 38, 50, 41, 124, 124, 40, 51, 38, 40, 52, 124, 124, 53, 41, 41];
    assert Bytes("(1&2)||(3&(4||5))") == s;
    StripKeepsClean(s);
    NestedSteps(s);
  }

  lemma NestedSteps(s: seq<byte>)
    requires s == [40, 49, 38, 50, 41, 124, 124, 40, 51, 38, 40, 52, 124, 124, 53, 41, 41]
    ensures OrAt(s, 0)
            == Ok(Parsed(Or(And(Equal(1), Equal(2)), And(Equal(3), Or(Equal(4), Equal(5)))), 17))
  {
    var left, right := And(Equal(1), Equal(2)), And(Equal(3), Or(Equal(4), Equal(5)));
    NestedLeftSteps(s);
    NestedRightSteps(s);
    assert AndChain(s, 5, left) == Ok(Parsed(left, 5));
    assert AndAt(s, 0) == Ok(Parsed(left, 5));
    assert OrChain(s, 17, Or(left, right)) == Ok(Parsed(Or(left, right), 17));
    assert OrChain(s, 5, left) == Ok(Parsed(Or(left, right), 17));
  }

  lemma NestedLeftSteps(s: seq<byte>)
    requires s == [40, 49, 38, 50, 41, 124, 124, 40, 51, 38, 40, 52, 124, 124, 53, 41, 41]
    ensures OperandAt(s, 0) == Ok(Parsed(And(Equal(1), Equal(2)), 5))
  {
    OneDigitOperand(s, 1);
    OneDigitOperand(s, 3);
    assert AndChain(s, 4, And(Equal(1), Equal(2))) == Ok(Parsed(And(Equal(1), Equal(2)), 4));
    assert AndChain(s, 2, Equal(1)) == Ok(Parsed(And(Equal(1), Equal(2)), 4));
    assert OrChain(s, 4, And(Equal(1), Equal(2))) == Ok(Parsed(And(Equal(1), Equal(2)), 4));
    assert OrAt(s, 1) == Ok(Parsed(And(Equal(1), Equal(2)), 4));
  }

  lemma NestedInnerSteps(s: seq<byte>)
    requires s == [40, 49, 38, 50, 41, 124, 124, 40, 51, 38, 40, 52, 124, 124, 53, 41, 41]
    ensures OperandAt(s, 10) == Ok(Parsed(Or(Equal(4), Equal(5)), 16))
  {
    OneDigitOperand(s, 11);
    OneDigitOperand(s, 14);
    assert AndAt(s, 11) == Ok(Parsed(Equal(4), 12));
    assert OrChain(s, 15, Or(Equal(4), Equal(5))) == Ok(Parsed(Or(Equal(4), Equal(5)), 15));
    assert OrAt(s, 11) == Ok(Parsed(Or(Equal(4), Equal(5)), 15));
  }

  lemma NestedRightSteps(s: seq<byte>)
    requires s == [40, 49, 38, 50, 41, 124, 124, 40, 51, 38, 40, 52, 124, 124, 53, 41, 41]
    ensures OperandAt(s, 7) == Ok(Parsed(And(Equal(3), Or(Equal(4), Equal(5))), 17))
  {
    NestedInnerSteps(s);
    OneDigitOperand(s, 8);
    var right := And(Equal(3), Or(Equal(4), Equal(5)));
    assert AndChain(s, 16, right) == Ok(Parsed(right, 16));
    assert AndChain(s, 9, Equal(3)) == Ok(Parsed(right, 16));
    assert OrChain(s, 16, right) == Ok(Parsed(right, 16));
    assert OrAt(s, 8) == Ok(Parsed(right, 16));
  }

  // ---------------------------------------------------------------------------
  // ExpressionTest

  lemma EvaluatesOr()
    ensures Evaluate(Or(Equal(1), Equal(2)), {1}) == EvaluatedResult(true, {1})
    ensures Evaluate(Or(Equal(1), Equal(2)), {}) == EvaluatedResult(false, {})
  {
  }

  lemma ParsesGroupedAnd()
    ensures Parse(Bytes("(1||2)&3")) == Ok(And(Or(Equal(1), Equal(2)), Equal(3)))
  {
    var s: seq<byte> := [40, 49, 124, 124, 50, 41, 38, 51];
    assert Bytes("(1||2)&3") == s;
    StripKeepsClean(s);
    GroupedAndSteps(s);
  }

  lemma GroupedAndSteps(s: seq<byte>)
    requires s == [40, 49, 124, 124, 50, 41, 38, 51]
    ensures OrAt(s, 0) == Ok(Parsed(And(Or(Equal(1), Equal(2)), Equal(3)), 8))
  {
    OneDigitOperand(s, 1);
    OneDigitOperand(s, 4);
    OneDigitOperand(s, 7);
    var group := Or(Equal(1), Equal(2));
    assert AndAt(s, 1) == Ok(Parsed(Equal(1), 2));
    assert OrChain(s, 5, group) == Ok(Parsed(group, 5));
    assert OrAt(s, 1) == Ok(Parsed(group, 5));
    assert OperandAt(s, 0) == Ok(Parsed(group, 6));
    assert AndChain(s, 8, And(group, Equal(3))) == Ok(Parsed(And(group, Equal(3)), 8));
    assert AndChain(s, 6, group) == Ok(Parsed(And(group, Equal(3)), 8));
  }

  lemma EvaluatesGroupedAnd()
    ensures Evaluate(And(Or(Equal(1), Equal(2)), Equal(3)), {1, 3}) == EvaluatedResult(true, {1, 3})
    ensures Evaluate(And(Or(Equal(1), Equal(2)), Equal(3)), {2}) == EvaluatedResult(false, {})
  {
  }

  lemma EvaluatesLeaf()
    ensures Parse(Bytes("1")) == Ok(Equal(1))
    ensures Evaluate(Equal(1), {1}) == EvaluatedResult(true, {1})
    ensures Evaluate(Equal(1), {2}) == EvaluatedResult(false, {})
  {
    var s: seq<byte> := [49];
    assert Bytes("1") == s;
    StripKeepsClean(s);
    OneDigitOperand(s, 0);
  }
}
