/**
 * The label tuple the encoders emit and the ways an encoder can fail
 * (src/data/universal_dataset.py:295-462).
 */
module Labels {
  import opened Operators

  /** One label tuple `[lo, hi, op_id, is_stop]`. */
  datatype Label = Label(lo: int, hi: int, op: int, stop: int)

  /**
   * How an encoder gives up on an equation layer: it returns Python's None, it returns
   * the string "index error" (basic encoder only), or an exception escapes it (a failed
   * `assert`, `ord` of a string that is not one character long, `list.index` of an
   * operator that is not in the table, `int` of an index that is not a number).
   */
  datatype Failure = ReturnsNone | ReturnsIndexError | Raises

  datatype Result<+T> = Ok(value: T) | Err(failure: Failure)

  /** A label with its operands in ascending order and a real operator id. */
  predicate Ordered(l: Label) {
    l.lo <= l.hi && 0 <= l.op < |UniLabels|
  }

  /** The label `(lo, hi, OpId(op), stop)`, or Raises where `uni_labels.index(op)` fails. */
  function Emit(lo: int, hi: int, op: string, stop: int): (r: Result<Label>)
    ensures r.Ok? <==> op in UniLabels
    ensures r.Ok? ==> r.value.lo == lo && r.value.hi == hi && r.value.stop == stop &&
                      0 <= r.value.op < |UniLabels| && UniLabels[r.value.op] == op
  {
    match OpId(op)
    case Some(k) => Ok(Label(lo, hi, k, stop))
    case None => Err(Raises)
  }
}
