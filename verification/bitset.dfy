/** Evaluation over mutable bit sets, as the Java nodes run it: results carry a
    reference to a BitSet, a failure carries one shared empty BitSet, and AND joins
    two justifications by updating the left child's BitSet in place. */
module BitSetEvaluation {
  import opened Ast

  /** A java.util.BitSet: a set of non-negative ints updated in place. */
  class BitSet {
    var bits: set<nat>

    constructor ()
      ensures bits == {}
    {
      bits := {};
    }

    /** `get(i)`: whether `i` is a member; nothing changes. */
    method Get(i: nat) returns (present: bool)
      ensures present <==> i in bits
    {
      present := i in bits;
    }

    method Set(i: nat)
      modifies this
      ensures bits == old(bits) + {i}
    {
      bits := bits + {i};
    }

    /** `this.or(other)`: adds the other set's members to this one. */
    method Or(other: BitSet)
      modifies this
      ensures bits == old(bits) + old(other.bits)
    {
      bits := bits + other.bits;
    }
  }

  /** An EvaluatedResult whose used set is a BitSet object. */
  datatype SharedResult = SharedResult(matched: bool, usedValues: BitSet)

  /** Evaluates `e` against `values`, where `empty` is the shared empty set. It agrees
      with the value-level Evaluate; a match hands back a BitSet allocated by this
      call, a failure the shared empty set; and since it may change only what it
      allocates, neither the input nor the shared empty set is ever modified, although
      the AND case updates a justification in place. */
  method EvaluateInPlace(e: Expr, values: BitSet, empty: BitSet) returns (r: SharedResult)
    requires empty.bits == {}
    ensures r.matched == Evaluate(e, values.bits).matched
    ensures r.usedValues.bits == Evaluate(e, values.bits).usedValues
    ensures r.matched ==> fresh(r.usedValues)
    ensures !r.matched ==> r.usedValues == empty
    ensures unchanged(values, empty)
    decreases e
  {
    match e
    case Equal(v) =>
      // a negative id is never a member; Java's BitSet.get would throw instead
      if v >= 0 {
        var present := values.Get(v);
        if present {
          var used := new BitSet();
          used.Set(v);
          return SharedResult(true, used);
        }
      }
      return SharedResult(false, empty);
    case And(l, rt) =>
      var leftResult := EvaluateInPlace(l, values, empty);
      if !leftResult.matched {
        return SharedResult(false, empty);
      }
      var rightResult := EvaluateInPlace(rt, values, empty);
      if !rightResult.matched {
        return SharedResult(false, empty);
      }
      leftResult.usedValues.Or(rightResult.usedValues);
      return SharedResult(true, leftResult.usedValues);
    case Or(l, rt) =>
      var leftResult := EvaluateInPlace(l, values, empty);
      if leftResult.matched {
        return leftResult;
      }
      var rightResult := EvaluateInPlace(rt, values, empty);
      if rightResult.matched {
        return rightResult;
      }
      return SharedResult(false, empty);
  }
}
