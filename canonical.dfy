/**
 * The canonical-ordering rules that turn a pair of resolved addresses and an operator
 * into a label tuple (src/data/universal_dataset.py:311-322, 357-370, 420-461).
 */
module Canonical {
  import opened Wrappers
  import opened Operators
  import opened Labels

  /**
   * get_label_ids: keep the pair when `left < right`; otherwise swap it, keeping "+"
   * and "*" and adding "_rev" to the others (an operator already ending in "_rev"
   * fails the assertion at line 320).
   */
  function BasicOrder(left: int, right: int, op: string, stop: int): (r: Result<Label>)
    ensures r.Ok? ==> Ordered(r.value) && r.value.stop == stop
    ensures r.Ok? ==> (r.value.lo, r.value.hi) == (if left < right then (left, right) else (right, left))
  {
    if left < right then Emit(left, right, op, stop)
    else if IsCommutative(op) then Emit(right, left, op, stop)
    else if EndsWithRev(op) then Err(Raises)
    else Emit(right, left, op + "_rev", stop)
  }

  /**
   * get_label_ids_updated (and the incremental encoder when neither operand is an
   * intermediate): keep an ascending pair, stripping "_rev" when both addresses are
   * equal; swap a descending pair, keeping "+" and "*" and toggling "_rev" otherwise.
   */
  function AbsoluteOrder(left: int, right: int, op: string, stop: int): (r: Result<Label>)
    ensures r.Ok? ==> Ordered(r.value) && r.value.stop == stop
    ensures r.Ok? ==> (r.value.lo, r.value.hi) == (if left <= right then (left, right) else (right, left))
  {
    if left <= right then
      Emit(left, right, if left == right && EndsWithRev(op) then StripRev(op) else op, stop)
    else if IsCommutative(op) then Emit(right, left, op, stop)
    else
      match ToggledId(op)
      case Some(k) => Ok(Label(right, left, k, stop))
      case None => Err(Raises)
  }

  /**
   * get_label_ids_incremental, lines 420-446, where `leftMem` and `rightMem` say which
   * operands are "m_" markers. One marker on the left: the pair must already be
   * ascending and is kept. One on the right: the pair must be descending, and is
   * swapped with the operator toggled (for every operator). Two markers: a descending
   * or equal pair is swapped, toggling a non-commutative operator when strictly
   * descending and stripping "_rev" when equal; an ascending pair is kept.
   */
  function IncrementalOrder(leftMem: bool, rightMem: bool, left: int, right: int, op: string, stop: int): (r: Result<Label>)
    ensures r.Ok? ==> Ordered(r.value) && r.value.stop == stop
    ensures r.Ok? ==> (r.value.lo, r.value.hi) == (if left <= right then (left, right) else (right, left))
  {
    if leftMem || rightMem then
      if leftMem && !rightMem then
        if left < right then Emit(left, right, op, stop) else Err(Raises)
      else if !leftMem && rightMem then
        if left > right then
          match ToggledId(op)
          case Some(k) => Ok(Label(right, left, k, stop))
          case None => Err(Raises)
        else Err(Raises)
      else if left >= right then
        var op' := if left == right && EndsWithRev(op) then StripRev(op) else op;
        if op' !in UniLabels then Err(Raises)
        else if left > right && !IsCommutative(op') then
          match ToggledId(op')
          case Some(k) => Ok(Label(right, left, k, stop))
          case None => Err(Raises)
        else Emit(right, left, op', stop)
      else if IsCommutative(op) then Emit(left, right, op, stop)
      else if '+' in op || '*' in op then Err(Raises)
      else Emit(left, right, op, stop)
    else AbsoluteOrder(left, right, op, stop)
  }

  /** The value of a label under an assignment `v` of values to addresses. */
  function LabelValue(l: Label, v: int -> real): Option<real>
    requires 0 <= l.op < |UniLabels|
  {
    Apply(l.op, v(l.lo), v(l.hi))
  }

  /** The value of `left op right` before canonicalisation. */
  function PairValue(left: int, right: int, op: string, v: int -> real): Option<real>
    requires op in UniLabels
  {
    Apply(OpId(op).value, v(left), v(right))
  }

  /**
   * The absolute rule spelled out against the operators' reversal partners: ascending
   * pairs keep the operator, equal pairs lose "_rev", descending pairs are swapped with
   * "+"/"*" kept and "-", "-_rev", "/", "/_rev" replaced by their partner. On table
   * operators it never fails.
   */
  lemma AbsoluteOrderRule(left: int, right: int, op: string, stop: int)
    requires op in UniLabels
    ensures AbsoluteOrder(left, right, op, stop).Ok?
    ensures left < right ==> AbsoluteOrder(left, right, op, stop) == Emit(left, right, op, stop)
    ensures left == right ==>
      AbsoluteOrder(left, right, op, stop) == Emit(left, right, if EndsWithRev(op) then Reversed(op) else op, stop)
    ensures left > right ==>
      AbsoluteOrder(left, right, op, stop) == Emit(right, left, if IsCommutative(op) then op else Reversed(op), stop)
  {
    ToggleTable(op);
    if EndsWithRev(op) {
      StripRevInTable(op);
    }
  }

  /**
   * The basic rule against the reversal partners: ascending pairs keep the operator,
   * the others are swapped with "+"/"*" kept and "-", "/" reversed; a "_rev" operator
   * on a non-ascending pair raises.
   */
  lemma BasicOrderRule(left: int, right: int, op: string, stop: int)
    requires op in UniLabels
    ensures left < right ==> BasicOrder(left, right, op, stop) == Emit(left, right, op, stop)
    ensures left >= right && !EndsWithRev(op) ==>
      BasicOrder(left, right, op, stop) == Emit(right, left, if IsCommutative(op) then op else Reversed(op), stop)
    ensures left >= right && EndsWithRev(op) ==> BasicOrder(left, right, op, stop) == Err(Raises)
  {
    ToggleTable(op);
    assert !EndsWithRev("+") && !EndsWithRev("*");
  }

  /**
   * The incremental tie-break against the reversal partners, for table operators.
   * Marker on the left only: kept, and raises unless ascending. Marker on the right only:
   * swapped with the partner operator, and raises unless descending or when the operator
   * is "+" or "*" (there is no "+_rev"). Both markers: descending pairs are swapped with
   * "+"/"*" kept and the others reversed, equal pairs are kept with "_rev" stripped,
   * ascending pairs are kept.
   */
  lemma IncrementalOrderRule(leftMem: bool, rightMem: bool, left: int, right: int, op: string, stop: int)
    requires op in UniLabels
    ensures !leftMem && !rightMem ==>
      IncrementalOrder(leftMem, rightMem, left, right, op, stop) == AbsoluteOrder(left, right, op, stop)
    ensures leftMem && !rightMem ==>
      IncrementalOrder(leftMem, rightMem, left, right, op, stop) ==
        if left < right then Emit(left, right, op, stop) else Err(Raises)
    ensures !leftMem && rightMem ==>
      IncrementalOrder(leftMem, rightMem, left, right, op, stop) ==
        if left > right && !IsCommutative(op) then Emit(right, left, Reversed(op), stop) else Err(Raises)
    ensures leftMem && rightMem ==>
      IncrementalOrder(leftMem, rightMem, left, right, op, stop) ==
        if left > right then Emit(right, left, if IsCommutative(op) then op else Reversed(op), stop)
        else if left == right then Emit(left, right, if EndsWithRev(op) then Reversed(op) else op, stop)
        else Emit(left, right, op, stop)
  {
    ToggleTable(op);
    if EndsWithRev(op) {
      StripRevInTable(op);
    }
    assert op == "+" || op == "-" || op == "-_rev" || op == "*" || op == "/" || op == "/_rev";
    assert '+' !in "-" && '*' !in "-" && '+' !in "-_rev" && '*' !in "-_rev";
    assert '+' !in "/" && '*' !in "/" && '+' !in "/_rev" && '*' !in "/_rev";
  }

  /**
   * Canonicalisation never changes what a step computes: the emitted tuple, read with
   * its own operator, has the value of `left op right` under every assignment of values
   * to addresses (the reason for toggling "_rev" when the operands are swapped).
   */
  lemma AbsoluteOrderPreservesValue(left: int, right: int, op: string, stop: int, v: int -> real)
    requires op in UniLabels
    ensures AbsoluteOrder(left, right, op, stop).Ok?
    ensures LabelValue(AbsoluteOrder(left, right, op, stop).value, v) == PairValue(left, right, op, v)
  {
    AbsoluteOrderRule(left, right, op, stop);
    SwapPreservesValue(op, v(right), v(left));
    if EndsWithRev(op) {
      StripRevPreservesValue(op, v(left));
    }
  }

  /** The basic rule also preserves the value of every step it encodes. */
  lemma BasicOrderPreservesValue(left: int, right: int, op: string, stop: int, v: int -> real)
    requires op in UniLabels && BasicOrder(left, right, op, stop).Ok?
    ensures LabelValue(BasicOrder(left, right, op, stop).value, v) == PairValue(left, right, op, v)
  {
    BasicOrderRule(left, right, op, stop);
    SwapPreservesValue(op, v(right), v(left));
  }

  /** So does the incremental tie-break, in every case in which it does not raise. */
  lemma IncrementalOrderPreservesValue(leftMem: bool, rightMem: bool, left: int, right: int, op: string, stop: int, v: int -> real)
    requires op in UniLabels && IncrementalOrder(leftMem, rightMem, left, right, op, stop).Ok?
    ensures LabelValue(IncrementalOrder(leftMem, rightMem, left, right, op, stop).value, v) == PairValue(left, right, op, v)
  {
    IncrementalOrderRule(leftMem, rightMem, left, right, op, stop);
    AbsoluteOrderPreservesValue(left, right, op, stop, v);
    SwapPreservesValue(op, v(right), v(left));
    if EndsWithRev(op) {
      StripRevPreservesValue(op, v(left));
    }
  }

  /**
   * Re-encoding an emitted tuple with its own operator gives it back: on table operators
   * the absolute rule is idempotent.
   */
  lemma AbsoluteOrderIdempotent(left: int, right: int, op: string, stop: int)
    requires op in UniLabels
    ensures AbsoluteOrder(left, right, op, stop).Ok?
    ensures var l := AbsoluteOrder(left, right, op, stop).value;
      AbsoluteOrder(l.lo, l.hi, UniLabels[l.op], l.stop) == Ok(l)
  {
    AbsoluteOrderRule(left, right, op, stop);
    var l := AbsoluteOrder(left, right, op, stop).value;
    var op2 := UniLabels[l.op];
    if l.lo == l.hi {
      assert !EndsWithRev(op2) by {
        if EndsWithRev(op) {
          StripRevInTable(op);
        }
      }
    }
    AbsoluteOrderRule(l.lo, l.hi, op2, l.stop);
  }

  /** An ascending pair with an operator of the table that has no "_rev" is emitted as it is. */
  lemma AscendingPlainIsIdentity(lo: int, hi: int, op: string, stop: int)
    requires lo <= hi && op in UniLabels && !EndsWithRev(op)
    ensures AbsoluteOrder(lo, hi, op, stop) == Ok(Label(lo, hi, OpId(op).value, stop))
  {
  }
}
