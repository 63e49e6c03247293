/** What the reference parse functions promise: the value of a number, whitespace
    insensitivity, and the failure of a blank input. */
module GrammarProperties {
  import opened Ast
  import opened Grammar

  // ---------------------------------------------------------------------------
  // Numbers

  const Modulus: int := 0x1_0000_0000

  /** Java int reduction subtracts a whole number of 2^32 periods. */
  lemma Int32Offset(x: int)
    ensures Int32(x) == x - Modulus * ((x + 0x8000_0000) / Modulus)
  {
  }

  /** Adding whole periods of 2^32 does not change the Java int. */
  lemma Int32Periodic(x: int, t: int)
    ensures Int32(x + Modulus * t) == Int32(x)
  {
    var y := x + 0x8000_0000;
    assert (y + Modulus * t) / Modulus == y / Modulus + t;
  }

  /** Reducing to a Java int after each digit gives the same as reducing once at the
      end: the accumulated value is the run's decimal value modulo 2^32. */
  lemma {:induction false} AccumulatedIsReducedDecimal(digits: seq<byte>)
    ensures AccumulatedValue(digits) == Int32(Decimal(digits))
  {
    if |digits| > 0 {
      var init, k := digits[..|digits| - 1], DigitValue(digits[|digits| - 1]);
      AccumulatedIsReducedDecimal(init);
      var d := Decimal(init);
      var q := (d + 0x8000_0000) / Modulus;
      Int32Offset(d);
      assert Int32(d) * 10 + k == d * 10 + k + Modulus * (-10 * q);
      Int32Periodic(d * 10 + k, -10 * q);
    }
  }

  function Pow10(n: nat): (r: nat)
    ensures r > 0
  {
    if n == 0 then 1 else 10 * Pow10(n - 1)
  }

  /** A run of n digits is worth less than 10^n. */
  lemma {:induction false} DecimalBound(digits: seq<byte>)
    requires forall i :: 0 <= i < |digits| ==> IsDigit(digits[i])
    ensures 0 <= Decimal(digits) < Pow10(|digits|)
  {
    if |digits| > 0 {
      DecimalBound(digits[..|digits| - 1]);
    }
  }

  /** `parseNumber` at `p` succeeds exactly when a digit is there; it then consumes the
      maximal digit run and returns the run's decimal value as a Java int, which is the
      exact value when the run has at most nine digits. */
  lemma NumberValue(s: seq<byte>, p: nat)
    requires p <= |s|
    ensures NumberAt(s, p).Ok? <==> p < |s| && IsDigit(s[p])
    ensures NumberAt(s, p).Ok? ==>
              var Parsed(v, q) := NumberAt(s, p).value;
              (forall k :: p <= k < q ==> IsDigit(s[k]))
              && (q == |s| || !IsDigit(s[q]))
              && v == Int32(Decimal(s[p..q]))
              && (q - p <= 9 ==> v == Decimal(s[p..q]))
  {
    if NumberAt(s, p).Ok? {
      var q := RunEnd(s, p);
      AccumulatedIsReducedDecimal(s[p..q]);
      if q - p <= 9 {
        DecimalBound(s[p..q]);
        assert Pow10(9) == 1_000_000_000;
        assert Pow10(q - p) <= Pow10(9) by { Pow10Monotone(q - p, 9); }
      }
    }
  }

  lemma {:induction false} Pow10Monotone(m: nat, n: nat)
    requires m <= n
    ensures Pow10(m) <= Pow10(n)
  {
    if m < n {
      Pow10Monotone(m, n - 1);
    }
  }

  // ---------------------------------------------------------------------------
  // Whitespace

  /** Stripping leaves no whitespace, keeps every byte of the input that is not
      whitespace, and adds nothing that was not in the input. */
  lemma {:induction false} StripRemovesExactlyWhitespace(text: seq<byte>)
    ensures forall i :: 0 <= i < |Strip(text)| ==> !IsWhitespace(Strip(text)[i])
    ensures forall i :: 0 <= i < |text| && !IsWhitespace(text[i]) ==> text[i] in Strip(text)
    ensures forall b :: b in Strip(text) ==> b in text
  {
    if |text| > 0 {
      var rest := text[1..];
      StripRemovesExactlyWhitespace(rest);
      assert forall i :: 1 <= i < |text| ==> text[i] == rest[i - 1];
      assert forall b :: b in rest ==> b in text;
      if !IsWhitespace(text[0]) {
        assert Strip(text) == [text[0]] + Strip(rest);
      }
    }
  }

  lemma {:induction false} StripConcat(a: seq<byte>, b: seq<byte>)
    ensures Strip(a + b) == Strip(a) + Strip(b)
  {
    if |a| == 0 {
      assert a + b == b;
    } else {
      var c := a + b;
      assert c[0] == a[0];
      assert c[1..] == a[1..] + b;
      StripConcat(a[1..], b);
      if IsWhitespace(a[0]) {
        assert Strip(c) == Strip(a[1..]) + Strip(b);
      } else {
        assert Strip(c) == [a[0]] + (Strip(a[1..]) + Strip(b));
      }
    }
  }

  /** Stripping keeps a whitespace-free input as it is. */
  lemma {:induction false} StripKeepsClean(s: seq<byte>)
    requires forall i :: 0 <= i < |s| ==> !IsWhitespace(s[i])
    ensures Strip(s) == s
  {
    if |s| > 0 {
      StripKeepsClean(s[1..]);
    }
  }

  /** An input of whitespace only strips to nothing. */
  lemma {:induction false} StripBlank(s: seq<byte>)
    requires forall i :: 0 <= i < |s| ==> IsWhitespace(s[i])
    ensures Strip(s) == []
  {
    if |s| > 0 {
      StripBlank(s[1..]);
    }
  }

  /** Inserting a whitespace byte anywhere does not change the parse. */
  lemma WhitespaceIgnored(a: seq<byte>, w: byte, b: seq<byte>)
    requires IsWhitespace(w)
    ensures Parse(a + [w] + b) == Parse(a + b)
  {
    StripConcat(a + [w], b);
    StripConcat(a, [w]);
    StripConcat(a, b);
    assert [w][1..] == [];
    assert Strip([w]) == [];
    assert Strip(a + [w] + b) == Strip(a + b);
  }

  /** Parsing already stripped text gives the same result: whitespace is removed
      before anything is scanned. */
  lemma ParseOfStripped(text: seq<byte>)
    ensures Parse(Strip(text)) == Parse(text)
  {
    StripRemovesExactlyWhitespace(text);
    StripKeepsClean(Strip(text));
  }

  /** An empty or blank input fails for want of a number at position 0. */
  lemma BlankInputFails(text: seq<byte>)
    requires forall i :: 0 <= i < |text| ==> IsWhitespace(text[i])
    ensures Parse(text) == Err(ExpectedNumber(0))
  {
    StripBlank(text);
    var empty: seq<byte> := [];
    assert OperandAt(empty, 0) == Err(ExpectedNumber(0));
    assert AndAt(empty, 0) == Err(ExpectedNumber(0));
  }

  // ---------------------------------------------------------------------------
  // Operators

  /** A bar not followed by another bar ends an or-chain and is left unconsumed, and so
      does anything else that is not two bars. */
  lemma SingleBarEndsOrChain(s: seq<byte>, q: nat, acc: Expr)
    requires q <= |s|
    requires !AtOrOperator(s, q)
    ensures OrChain(s, q, acc) == Ok(Parsed(acc, q))
  {
  }

  /** `t` is `acc`, parsed up to `q`, with conjunctions added on the right up to `e`:
      either nothing was added (`t == acc`, `e == q`), or `t`'s right child is one
      operand parsed just after an `&` at some `m`, and `t`'s left child is such a
      chain from `acc` ending at `m`. A right-nested tree fails this, because an
      operand is never itself a bare conjunction. */
  predicate AndLeftChain(s: seq<byte>, t: Expr, acc: Expr, q: nat, e: nat)
    decreases t
  {
    (t == acc && e == q)
    || (t.And?
        && exists m: nat :: q <= m < e && At(s, m, LogicalAnd)
             && OperandAt(s, m + 1) == Ok(Parsed(t.right, e))
             && AndLeftChain(s, t.left, acc, q, m))
  }

  /** The same for disjunctions, with `||` in place of `&`. */
  predicate OrLeftChain(s: seq<byte>, t: Expr, acc: Expr, q: nat, e: nat)
    decreases t
  {
    (t == acc && e == q)
    || (t.Or?
        && exists m: nat :: q <= m < e && AtOrOperator(s, m)
             && OperandAt(s, m + 2) == Ok(Parsed(t.right, e))
             && OrLeftChain(s, t.left, acc, q, m))
  }

  /** A chain that starts from `And(acc, right)`, where `right` follows an `&` at `q`,
      is a chain from `acc` at `q`. */
  lemma {:induction false} AndLeftChainRebase(s: seq<byte>, t: Expr, acc: Expr, right: Expr,
                                              q: nat, q': nat, e: nat)
    requires At(s, q, LogicalAnd) && OperandAt(s, q + 1) == Ok(Parsed(right, q'))
    requires AndLeftChain(s, t, And(acc, right), q', e)
    ensures AndLeftChain(s, t, acc, q, e)
    decreases t
  {
    if t == And(acc, right) && e == q' {
      assert AndLeftChain(s, acc, acc, q, q);
    } else {
      var m: nat :| q' <= m < e && At(s, m, LogicalAnd)
                     && OperandAt(s, m + 1) == Ok(Parsed(t.right, e))
                     && AndLeftChain(s, t.left, And(acc, right), q', m);
      AndLeftChainRebase(s, t.left, acc, right, q, q', m);
    }
  }

  /** The same for disjunctions. */
  lemma {:induction false} OrLeftChainRebase(s: seq<byte>, t: Expr, acc: Expr, right: Expr,
                                             q: nat, q': nat, e: nat)
    requires AtOrOperator(s, q) && OperandAt(s, q + 2) == Ok(Parsed(right, q'))
    requires OrLeftChain(s, t, Or(acc, right), q', e)
    ensures OrLeftChain(s, t, acc, q, e)
    decreases t
  {
    if t == Or(acc, right) && e == q' {
      assert OrLeftChain(s, acc, acc, q, q);
    } else {
      var m: nat :| q' <= m < e && AtOrOperator(s, m)
                     && OperandAt(s, m + 2) == Ok(Parsed(t.right, e))
                     && OrLeftChain(s, t.left, Or(acc, right), q', m);
      OrLeftChainRebase(s, t.left, acc, right, q, q', m);
    }
  }

  /** The `&` loop nests to the left: whatever it builds from `acc` at `q` is `acc`
      followed by one operand per `&`, each new operand the right child of a new
      root. */
  lemma {:induction false} AndChainNestsLeft(s: seq<byte>, q: nat, acc: Expr)
    requires q <= |s|
    ensures AndChain(s, q, acc).Ok? ==>
              AndLeftChain(s, AndChain(s, q, acc).value.item, acc, q, AndChain(s, q, acc).value.next)
    decreases |s| - q
  {
    if At(s, q, LogicalAnd) {
      match OperandAt(s, q + 1)
      case Err(_) =>
      case Ok(Parsed(right, q')) =>
        AndChainNestsLeft(s, q', And(acc, right));
        if AndChain(s, q, acc).Ok? {
          var Parsed(t, e) := AndChain(s, q, acc).value;
          AndLeftChainRebase(s, t, acc, right, q, q', e);
        }
    } else {
      assert AndChain(s, q, acc) == Ok(Parsed(acc, q));
    }
  }

  /** The `||` loop nests to the left in the same way. */
  lemma {:induction false} OrChainNestsLeft(s: seq<byte>, q: nat, acc: Expr)
    requires q <= |s|
    ensures OrChain(s, q, acc).Ok? ==>
              OrLeftChain(s, OrChain(s, q, acc).value.item, acc, q, OrChain(s, q, acc).value.next)
    decreases |s| - q
  {
    if AtOrOperator(s, q) {
      match OperandAt(s, q + 2)
      case Err(_) =>
      case Ok(Parsed(right, q')) =>
        OrChainNestsLeft(s, q', Or(acc, right));
        if OrChain(s, q, acc).Ok? {
          var Parsed(t, e) := OrChain(s, q, acc).value;
          OrLeftChainRebase(s, t, acc, right, q, q', e);
        }
    } else {
      assert OrChain(s, q, acc) == Ok(Parsed(acc, q));
    }
  }

  /** An and-expression is its first operand followed by one operand per `&`,
      nested to the left. */
  lemma AndExpressionNestsLeft(s: seq<byte>, p: nat)
    requires p <= |s|
    ensures AndAt(s, p).Ok? ==>
              OperandAt(s, p).Ok?
              && AndLeftChain(s, AndAt(s, p).value.item, OperandAt(s, p).value.item,
                              OperandAt(s, p).value.next, AndAt(s, p).value.next)
  {
    if OperandAt(s, p).Ok? {
      var Parsed(first, q) := OperandAt(s, p).value;
      AndChainNestsLeft(s, q, first);
    }
  }

  /** An or-expression is its leading and-expression followed by one operand per
      `||`, nested to the left. */
  lemma OrExpressionNestsLeft(s: seq<byte>, p: nat)
    requires p <= |s|
    ensures OrAt(s, p).Ok? ==>
              AndAt(s, p).Ok?
              && OrLeftChain(s, OrAt(s, p).value.item, AndAt(s, p).value.item,
                             AndAt(s, p).value.next, OrAt(s, p).value.next)
  {
    if AndAt(s, p).Ok? {
      var Parsed(first, q) := AndAt(s, p).value;
      OrChainNestsLeft(s, q, first);
    }
  }

  /** Two bars are consumed together, and the right side of `||` is one operand: an
      `&` after it is not part of the disjunction. */
  lemma OrTakesOneOperand(s: seq<byte>, q: nat, acc: Expr, right: Expr, q': nat)
    requires q <= |s|
    requires AtOrOperator(s, q)
    requires OperandAt(s, q + 2) == Ok(Parsed(right, q'))
    requires At(s, q', LogicalAnd)
    ensures OrChain(s, q, acc) == Ok(Parsed(Or(acc, right), q'))
  {
  }
}
