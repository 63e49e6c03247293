/** The expression tree and its evaluation against a set of propositions that hold.
    A proposition set plays the role of a java.util.BitSet: it holds non-negative ids. */
module Ast {

  /** The three node kinds: a proposition leaf, a conjunction and a disjunction.
      The destructors `value`, `left` and `right` are the nodes' getters; a datatype
      value never changes, as the Java fields are final. */
  datatype Expr =
    | Equal(value: int)
    | And(left: Expr, right: Expr)
    | Or(left: Expr, right: Expr)

  /** The verdict of an evaluation and the propositions that justify it. */
  datatype EvaluatedResult = EvaluatedResult(matched: bool, usedValues: set<nat>)

  /** The shared empty set that every failed evaluation carries. */
  const Empty: set<nat> := {}

  /** The proposition ids a tree mentions. */
  function Ids(e: Expr): set<int> {
    match e
    case Equal(v) => {v}
    case And(l, r) => Ids(l) + Ids(r)
    case Or(l, r) => Ids(l) + Ids(r)
  }

  /** Ordinary boolean semantics, the reference the evaluator is compared with. */
  predicate Holds(e: Expr, values: set<nat>) {
    match e
    case Equal(v) => v in values
    case And(l, r) => Holds(l, values) && Holds(r, values)
    case Or(l, r) => Holds(l, values) || Holds(r, values)
  }

  /** Short-circuit evaluation: AND stops at the first failing child and joins the
      justifications of a full match; OR returns the first matching child's result
      as it is. A failure always carries the empty set. */
  function Evaluate(e: Expr, values: set<nat>): (r: EvaluatedResult)
    ensures !r.matched ==> r.usedValues == {}
    ensures r.usedValues <= values
    ensures r.usedValues <= Ids(e)
  {
    match e
    case Equal(v) =>
      if v in values then EvaluatedResult(true, {v}) else EvaluatedResult(false, Empty)
    case And(l, r) =>
      var leftResult := Evaluate(l, values);
      if !leftResult.matched then EvaluatedResult(false, Empty)
      else
        var rightResult := Evaluate(r, values);
        if !rightResult.matched then EvaluatedResult(false, Empty)
        else EvaluatedResult(true, leftResult.usedValues + rightResult.usedValues)
    case Or(l, r) =>
      var leftResult := Evaluate(l, values);
      if leftResult.matched then leftResult
      else
        var rightResult := Evaluate(r, values);
        if rightResult.matched then rightResult else EvaluatedResult(false, Empty)
  }

  /** A leaf matches exactly when its bit is set, and then it uses that one id. */
  lemma EqualSemantics(v: int, values: set<nat>)
    ensures Evaluate(Equal(v), values).matched <==> v in values
    ensures Evaluate(Equal(v), values).matched ==> Evaluate(Equal(v), values).usedValues == {v}
    ensures |Evaluate(Equal(v), values).usedValues| <= 1
  {
  }

  /** AND: matches exactly when both children match; a failing left child decides the
      result whatever the right child is (it is never consulted); a full match uses
      the union of both justifications. */
  lemma AndSemantics(l: Expr, r: Expr, values: set<nat>)
    ensures Evaluate(And(l, r), values).matched
            <==> Evaluate(l, values).matched && Evaluate(r, values).matched
    ensures !Evaluate(l, values).matched ==>
              forall r' :: Evaluate(And(l, r'), values) == EvaluatedResult(false, {})
    ensures Evaluate(And(l, r), values).matched ==>
              Evaluate(And(l, r), values).usedValues
              == Evaluate(l, values).usedValues + Evaluate(r, values).usedValues
  {
  }

  /** OR: matches exactly when some child matches; a matching left child's result is
      returned unchanged whatever the right child is, even when the right child would
      match too; otherwise the right child's result is returned. */
  lemma OrSemantics(l: Expr, r: Expr, values: set<nat>)
    ensures Evaluate(Or(l, r), values).matched
            <==> Evaluate(l, values).matched || Evaluate(r, values).matched
    ensures Evaluate(l, values).matched ==>
              forall r' :: Evaluate(Or(l, r'), values) == Evaluate(l, values)
    ensures !Evaluate(l, values).matched ==> Evaluate(Or(l, r), values) == Evaluate(r, values)
  {
  }

  /** The evaluator's verdict is ordinary boolean truth. */
  lemma {:induction false} EvaluateAgreesWithHolds(e: Expr, values: set<nat>)
    ensures Evaluate(e, values).matched == Holds(e, values)
  {
    match e
    case Equal(_) =>
    case And(l, r) =>
      EvaluateAgreesWithHolds(l, values);
      EvaluateAgreesWithHolds(r, values);
    case Or(l, r) =>
      EvaluateAgreesWithHolds(l, values);
      EvaluateAgreesWithHolds(r, values);
  }

  /** Adding propositions never turns a match into a failure. */
  lemma {:induction false} HoldsMonotone(e: Expr, smaller: set<nat>, larger: set<nat>)
    requires smaller <= larger
    requires Holds(e, smaller)
    ensures Holds(e, larger)
  {
    match e
    case Equal(_) =>
    case And(l, r) =>
      HoldsMonotone(l, smaller, larger);
      HoldsMonotone(r, smaller, larger);
    case Or(l, r) =>
      if Holds(l, smaller) {
        HoldsMonotone(l, smaller, larger);
      } else {
        HoldsMonotone(r, smaller, larger);
      }
  }

  /** The used set is a sufficient justification: evaluating against any set between
      the used set and the input reproduces the same result, in particular evaluating
      against the used set alone. */
  lemma {:induction false} UsedValuesSuffice(e: Expr, values: set<nat>, w: set<nat>)
    requires Evaluate(e, values).matched
    requires Evaluate(e, values).usedValues <= w <= values
    ensures Evaluate(e, w) == Evaluate(e, values)
  {
    match e
    case Equal(_) =>
    case And(l, r) =>
      UsedValuesSuffice(l, values, w);
      UsedValuesSuffice(r, values, w);
    case Or(l, r) =>
      if Evaluate(l, values).matched {
        UsedValuesSuffice(l, values, w);
      } else {
        // the left child fails on the smaller set too
        EvaluateAgreesWithHolds(l, w);
        EvaluateAgreesWithHolds(l, values);
        if Holds(l, w) {
          HoldsMonotone(l, w, values);
        }
        UsedValuesSuffice(r, values, w);
      }
  }

  /** The used set is sufficient but not always minimal: against {1, 2} the tree
      `(1 || 2) & (2 || 1)` uses both ids, although {1} alone already makes it
      true. */
  lemma UsedValuesNotMinimal()
    ensures var e := And(Or(Equal(1), Equal(2)), Or(Equal(2), Equal(1)));
            Evaluate(e, {1, 2}) == EvaluatedResult(true, {1, 2})
            && Holds(e, {1}) && {1} < {1, 2}
  {
    var e := And(Or(Equal(1), Equal(2)), Or(Equal(2), Equal(1)));
    assert Evaluate(Or(Equal(1), Equal(2)), {1, 2}) == EvaluatedResult(true, {1});
    assert Evaluate(Or(Equal(2), Equal(1)), {1, 2}) == EvaluatedResult(true, {2});
  }
}
