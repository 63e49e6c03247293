/** A fully parenthesised printer for expression trees and the proof that the
    parser reads back every printed tree. Every composite node is printed inside
    parentheses, so the grammar's quirks (a single operand right of `||`, no
    precedence between the chains) never reshape the tree. */
module RoundTrip {
  import opened Ast
  import opened Grammar
  import opened GrammarProperties

  function DigitByte(d: int): (b: byte)
    requires 0 <= d < 10
    ensures IsDigit(b) && DigitValue(b) == d
  {
    (Zero as int + d) as byte
  }

  /** The decimal digits of a non-negative number, most significant first. */
  function Digits(v: nat): (s: seq<byte>)
    ensures |s| > 0
    ensures forall i :: 0 <= i < |s| ==> IsDigit(s[i])
  {
    if v < 10 then [DigitByte(v)] else Digits(v / 10) + [DigitByte(v % 10)]
  }

  /** Reading the digits of `v` back as a decimal gives `v`. */
  lemma {:induction false} DecimalOfDigits(v: nat)
    ensures Decimal(Digits(v)) == v
  {
    var s := Digits(v);
    if v < 10 {
      assert s[..0] == [];
    } else {
      assert s[..|s| - 1] == Digits(v / 10);
      DecimalOfDigits(v / 10);
    }
  }

  /** The trees whose ids `parseNumber` can produce: non-negative Java ints. */
  predicate Printable(e: Expr) {
    match e
    case Equal(v) => 0 <= v < 0x8000_0000
    case And(l, r) => Printable(l) && Printable(r)
    case Or(l, r) => Printable(l) && Printable(r)
  }

  function Print(e: Expr): (s: seq<byte>)
    requires Printable(e)
    ensures |s| > 0
  {
    match e
    case Equal(v) => Digits(v)
    case And(l, r) => [OpenParenthesis] + Print(l) + [LogicalAnd] + Print(r) + [CloseParenthesis]
    case Or(l, r) => [OpenParenthesis] + Print(l) + [BitOr, BitOr] + Print(r) + [CloseParenthesis]
  }

  /** The printer writes no whitespace. */
  lemma {:induction false} PrintIsClean(e: Expr)
    requires Printable(e)
    ensures forall i :: 0 <= i < |Print(e)| ==> !IsWhitespace(Print(e)[i])
  {
    match e
    case Equal(_) =>
    case And(l, r) =>
      PrintIsClean(l);
      PrintIsClean(r);
    case Or(l, r) =>
      PrintIsClean(l);
      PrintIsClean(r);
  }

  /** The bytes of `t` occur in `s` from position `p` on. */
  predicate IsAt(s: seq<byte>, p: nat, t: seq<byte>) {
    p + |t| <= |s| && forall i :: 0 <= i < |t| ==> s[p + i] == t[i]
  }

  /** The digits of `v`, read at `p` and followed by a non-digit, are `Equal(v)`. */
  lemma NumberRoundTrip(v: int, s: seq<byte>, p: nat)
    requires 0 <= v < 0x8000_0000
    requires IsAt(s, p, Digits(v))
    requires p + |Digits(v)| == |s| || !IsDigit(s[p + |Digits(v)|])
    ensures OperandAt(s, p) == Ok(Parsed(Equal(v), p + |Digits(v)|))
  {
    var d, n := Digits(v), p + |Digits(v)|;
    assert forall k :: p <= k < n ==> s[k] == d[k - p] by {
      forall k | p <= k < n
        ensures s[k] == d[k - p]
      {
        assert s[p + (k - p)] == d[k - p];
      }
    }
    assert s[p..n] == d;
    assert RunEnd(s, p) == n;
    AccumulatedIsReducedDecimal(d);
    DecimalOfDigits(v);
    assert NumberAt(s, p) == Ok(Parsed(v, n));
  }

  /** `(l&r)` is an operand once `l` and `r` are. */
  lemma AndOperand(s: seq<byte>, p: nat, l: Expr, r: Expr, q1: nat, q2: nat)
    requires q2 < |s|
    requires At(s, p, OpenParenthesis) && At(s, q1, LogicalAnd) && At(s, q2, CloseParenthesis)
    requires OperandAt(s, p + 1) == Ok(Parsed(l, q1))
    requires OperandAt(s, q1 + 1) == Ok(Parsed(r, q2))
    ensures OperandAt(s, p) == Ok(Parsed(And(l, r), q2 + 1))
  {
    assert AndChain(s, q2, And(l, r)) == Ok(Parsed(And(l, r), q2));
    assert AndChain(s, q1, l) == Ok(Parsed(And(l, r), q2));
    assert AndAt(s, p + 1) == Ok(Parsed(And(l, r), q2));
    assert OrChain(s, q2, And(l, r)) == Ok(Parsed(And(l, r), q2));
    assert OrAt(s, p + 1) == Ok(Parsed(And(l, r), q2));
  }

  /** `(l||r)` is an operand once `l` and `r` are. */
  lemma OrOperand(s: seq<byte>, p: nat, l: Expr, r: Expr, q1: nat, q2: nat)
    requires q2 < |s|
    requires At(s, p, OpenParenthesis) && AtOrOperator(s, q1) && At(s, q2, CloseParenthesis)
    requires OperandAt(s, p + 1) == Ok(Parsed(l, q1))
    requires OperandAt(s, q1 + 2) == Ok(Parsed(r, q2))
    ensures OperandAt(s, p) == Ok(Parsed(Or(l, r), q2 + 1))
  {
    assert AndChain(s, q1, l) == Ok(Parsed(l, q1));
    assert AndAt(s, p + 1) == Ok(Parsed(l, q1));
    assert OrChain(s, q2, Or(l, r)) == Ok(Parsed(Or(l, r), q2));
    assert OrChain(s, q1, l) == Ok(Parsed(Or(l, r), q2));
    assert OrAt(s, p + 1) == Ok(Parsed(Or(l, r), q2));
  }

  /** Where the parts of a printed composite node sit: an opening parenthesis, the
      left child, the operator bytes, the right child and a closing parenthesis. */
  lemma Layout(s: seq<byte>, p: nat, left: seq<byte>, op: seq<byte>, right: seq<byte>)
    requires IsAt(s, p, [OpenParenthesis] + left + op + right + [CloseParenthesis])
    ensures s[p] == OpenParenthesis
    ensures IsAt(s, p + 1, left)
    ensures IsAt(s, p + 1 + |left|, op)
    ensures IsAt(s, p + 1 + |left| + |op|, right)
    ensures s[p + 1 + |left| + |op| + |right|] == CloseParenthesis
  {
    var t := [OpenParenthesis] + left + op + right + [CloseParenthesis];
    var a, b, c := 1 + |left|, 1 + |left| + |op|, 1 + |left| + |op| + |right|;
    assert s[p + 0] == t[0];
    forall i | 0 <= i < |left|
      ensures s[p + 1 + i] == left[i]
    {
      assert s[p + (1 + i)] == t[1 + i];
    }
    forall i | 0 <= i < |op|
      ensures s[p + a + i] == op[i]
    {
      assert s[p + (a + i)] == t[a + i];
    }
    forall i | 0 <= i < |right|
      ensures s[p + b + i] == right[i]
    {
      assert s[p + (b + i)] == t[b + i];
    }
    assert s[p + c] == t[c];
  }

  /** A printed tree read as an operand, wherever it sits in the input and whatever
      non-digit follows it, is parsed back to the same tree, consuming exactly the
      printed bytes. */
  lemma {:induction false} OperandRoundTrip(e: Expr, s: seq<byte>, p: nat)
    requires Printable(e)
    requires IsAt(s, p, Print(e))
    requires p + |Print(e)| == |s| || !IsDigit(s[p + |Print(e)|])
    ensures OperandAt(s, p) == Ok(Parsed(e, p + |Print(e)|))
    decreases e, 1
  {
    match e
    case Equal(v) => NumberRoundTrip(v, s, p);
    case And(l, r) => AndRoundTrip(l, r, s, p);
    case Or(l, r) => OrRoundTrip(l, r, s, p);
  }

  lemma {:induction false} AndRoundTrip(l: Expr, r: Expr, s: seq<byte>, p: nat)
    requires Printable(l) && Printable(r)
    requires IsAt(s, p, Print(And(l, r)))
    ensures OperandAt(s, p) == Ok(Parsed(And(l, r), p + |Print(And(l, r))|))
    decreases And(l, r), 0
  {
    var left, right, op := Print(l), Print(r), [LogicalAnd];
    var q1 := p + 1 + |left|;
    var q2 := q1 + 1 + |right|;
    Layout(s, p, left, op, right);
    assert s[q1 + 0] == op[0];
    OperandRoundTrip(l, s, p + 1);
    OperandRoundTrip(r, s, q1 + 1);
    AndOperand(s, p, l, r, q1, q2);
  }

  lemma {:induction false} OrRoundTrip(l: Expr, r: Expr, s: seq<byte>, p: nat)
    requires Printable(l) && Printable(r)
    requires IsAt(s, p, Print(Or(l, r)))
    ensures OperandAt(s, p) == Ok(Parsed(Or(l, r), p + |Print(Or(l, r))|))
    decreases Or(l, r), 0
  {
    var left, right, op := Print(l), Print(r), [BitOr, BitOr];
    var q1 := p + 1 + |left|;
    var q2 := q1 + 2 + |right|;
    Layout(s, p, left, op, right);
    assert s[q1 + 0] == op[0] && s[q1 + 1] == op[1];
    OperandRoundTrip(l, s, p + 1);
    OperandRoundTrip(r, s, q1 + 2);
    OrOperand(s, p, l, r, q1, q2);
  }

  /** Parsing the printed form of a tree gives the tree back. */
  lemma ParsePrintRoundTrip(e: Expr)
    requires Printable(e)
    ensures Parse(Print(e)) == Ok(e)
  {
    var s := Print(e);
    PrintIsClean(e);
    StripKeepsClean(s);
    OperandRoundTrip(e, s, 0);
    assert AndChain(s, |s|, e) == Ok(Parsed(e, |s|));
    assert AndAt(s, 0) == Ok(Parsed(e, |s|));
    assert OrChain(s, |s|, e) == Ok(Parsed(e, |s|));
  }
}
