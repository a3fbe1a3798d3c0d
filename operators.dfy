/**
 * The fixed operator table of the label encoder and the operator-name helpers
 * the canonical-ordering rule uses (src/data/universal_dataset.py:19-21).
 */
module Operators {
  import opened Wrappers

  /** The operator table; an operator id is a position in it. Its order is fixed. */
  const UniLabels: seq<string> := ["+", "-", "-_rev", "*", "/", "/_rev"]

  /**
   * `uni_labels.index(op)`: the position of `op` in the table, or None where
   * Python raises ValueError because `op` is not in it.
   */
  function OpId(op: string): (r: Option<nat>)
    ensures r.Some? <==> op in UniLabels
    ensures r.Some? ==> r.value < |UniLabels| && UniLabels[r.value] == op
  {
    if op == "+" then Some(0)
    else if op == "-" then Some(1)
    else if op == "-_rev" then Some(2)
    else if op == "*" then Some(3)
    else if op == "/" then Some(4)
    else if op == "/_rev" then Some(5)
    else None
  }

  /** `op.endswith("_rev")`. */
  predicate EndsWithRev(op: string) {
    |op| >= 4 && op[|op| - 4..] == "_rev"
  }

  /** `op[:-4]` on an operator that ends with "_rev". */
  function StripRev(op: string): string
    requires EndsWithRev(op)
  {
    op[..|op| - 4]
  }

  /** `op in ["+", "*"]`. */
  predicate IsCommutative(op: string) {
    op == "+" || op == "*"
  }

  /**
   * The id of the reversed operator:
   * `uni_labels.index(op + "_rev") if not op.endswith("_rev") else uni_labels.index(op[:-4])`.
   */
  function ToggledId(op: string): Option<nat> {
    if !EndsWithRev(op) then OpId(op + "_rev") else OpId(StripRev(op))
  }

  /** The reversal partner of a non-commutative operator of the table. */
  function Reversed(op: string): string {
    if op == "-" then "-_rev"
    else if op == "-_rev" then "-"
    else if op == "/" then "/_rev"
    else if op == "/_rev" then "/"
    else op
  }

  /**
   * Toggling is defined on exactly the four non-commutative operators of the table,
   * gives their reversal partner, and is an involution on them.
   */
  lemma ToggleTable(op: string)
    requires op in UniLabels
    ensures ToggledId(op).Some? <==> !IsCommutative(op)
    ensures !IsCommutative(op) ==>
      UniLabels[ToggledId(op).value] == Reversed(op) &&
      ToggledId(Reversed(op)) == OpId(op)
  {
    assert !EndsWithRev("+") && !EndsWithRev("*") && !EndsWithRev("-") && !EndsWithRev("/");
    assert EndsWithRev("-_rev") && StripRev("-_rev") == "-";
    assert EndsWithRev("/_rev") && StripRev("/_rev") == "/";
    assert "+" + "_rev" == "+_rev" && "*" + "_rev" == "*_rev";
    assert "-" + "_rev" == "-_rev" && "/" + "_rev" == "/_rev";
  }

  /** A table operator with its "_rev" removed is the plain operator, and lies in the table. */
  lemma StripRevInTable(op: string)
    requires op in UniLabels && EndsWithRev(op)
    ensures StripRev(op) in UniLabels && !EndsWithRev(StripRev(op))
    ensures Reversed(op) == StripRev(op)
  {
    assert !EndsWithRev("+") && !EndsWithRev("*") && !EndsWithRev("-") && !EndsWithRev("/");
    assert EndsWithRev("-_rev") && StripRev("-_rev") == "-";
    assert EndsWithRev("/_rev") && StripRev("/_rev") == "/";
  }

  /**
   * What an operator id means for a tuple `(lo, hi, id, _)` whose operands have values
   * `x` (at `lo`) and `y` (at `hi`): a "_rev" operator takes its operands the other way
   * round. None when a division has a zero divisor.
   */
  function Apply(id: nat, x: real, y: real): Option<real>
    requires id < |UniLabels|
  {
    if id == 0 then Some(x + y)
    else if id == 1 then Some(x - y)
    else if id == 2 then Some(y - x)
    else if id == 3 then Some(x * y)
    else if id == 4 then (if y == 0.0 then None else Some(x / y))
    else (if x == 0.0 then None else Some(y / x))
  }

  /**
   * Swapping the operands of a tuple and keeping a commutative operator, or toggling a
   * non-commutative one, gives the same value.
   */
  lemma SwapPreservesValue(op: string, x: real, y: real)
    requires op in UniLabels
    ensures IsCommutative(op) ==> Apply(OpId(op).value, y, x) == Apply(OpId(op).value, x, y)
    ensures !IsCommutative(op) ==> Apply(ToggledId(op).value, y, x) == Apply(OpId(op).value, x, y)
  {
    ToggleTable(op);
  }

  /** With both operands equal, stripping "_rev" does not change the value. */
  lemma StripRevPreservesValue(op: string, x: real)
    requires op in UniLabels && EndsWithRev(op)
    ensures OpId(StripRev(op)).Some?
    ensures Apply(OpId(StripRev(op)).value, x, x) == Apply(OpId(op).value, x, x)
  {
    StripRevInTable(op);
    assert op == "-_rev" || op == "/_rev";
    if op == "-_rev" {
      assert StripRev(op) == "-";
      assert OpId("-") == Some(1) && OpId("-_rev") == Some(2);
      assert Apply(1, x, x) == Apply(2, x, x);
    } else {
      assert StripRev(op) == "/";
      assert OpId("/") == Some(4) && OpId("/_rev") == Some(5);
      assert Apply(4, x, x) == Apply(5, x, x);
    }
  }
}
