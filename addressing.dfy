/**
 * Operand-address resolution of the three encoders
 * (src/data/universal_dataset.py:304-310, 336-356, 383-418).
 */
module Addressing {
  import opened Wrappers
  import opened Symbols
  import opened Labels

  /** get_label_ids, left operand: `ord(left) - ord('a')`, or -1 for "#". None: TypeError. */
  function BasicLeft(sym: string): (r: Option<int>)
    ensures r.Some? <==> sym == "#" || |sym| == 1
  {
    if sym != "#" then
      match Ord(sym)
      case Some(c) => Some(c - 'a' as int)
      case None => None
    else Some(-1)
  }

  /** get_label_ids, right operand: `ord(right) - ord('a')`. None: TypeError. */
  function BasicRight(sym: string): (r: Option<int>)
    ensures r.Some? <==> |sym| == 1
  {
    match Ord(sym)
    case Some(c) => Some(c - 'a' as int)
    case None => None
  }

  /**
   * get_label_ids_updated, left operand: -1 for "#" and for an "m_" marker, the
   * configured id for a constant, the letter's offset past the constants for a letter;
   * None where the letter assertion fails or `ord` raises.
   */
  function AbsoluteLeft(sym: string, constants: map<string, int>): Option<int> {
    if sym != "#" && !IsMem(sym) then
      if sym in constants then Some(constants[sym])
      else if IsLetter(sym) then Some(LetterOffset(sym) + |constants|)
      else None
    else Some(-1)
  }

  /**
   * get_label_ids_updated, right operand: the configured id for a constant, otherwise
   * `ord(right) - ord('a') + num_constant` (no range check here); None where `ord` raises.
   */
  function AbsoluteRight(sym: string, constants: map<string, int>): Option<int> {
    if sym !in constants then
      match Ord(sym)
      case Some(c) => Some(c - 'a' as int + |constants|)
      case None => None
    else Some(constants[sym])
  }

  /**
   * get_label_ids_incremental, left operand at step `step`: constants and letters as in
   * the absolute mode shifted by `step`; "m_k" is `step - k`. None: the letter assertion
   * fails, `ord` raises, or `int(k)` raises.
   */
  function IncrementalLeft(sym: string, constants: map<string, int>, step: nat): Option<int> {
    if !IsMem(sym) then
      if sym in constants then Some(constants[sym] + step)
      else if IsLetter(sym) then Some(LetterOffset(sym) + |constants| + step)
      else None
    else
      match ParseInt(sym[2..])
      case Some(k) => Some(step - k)
      case None => None
  }

  /**
   * get_label_ids_incremental, right operand at step `step`. Like the left operand, except
   * that a symbol that is neither a marker, a constant nor a letter makes the encoder
   * return None (the check sits in a `try` with a bare `except`, which also catches the
   * TypeError of `ord` on a longer string).
   */
  function IncrementalRight(sym: string, constants: map<string, int>, step: nat): Result<int> {
    if !IsMem(sym) then
      if sym in constants then Ok(constants[sym] + step)
      else if IsLetter(sym) then Ok(LetterOffset(sym) + |constants| + step)
      else Err(ReturnsNone)
    else
      match ParseInt(sym[2..])
      case Some(k) => Ok(step - k)
      case None => Err(Raises)
  }

  /** A symbol that denotes a quantity or a constant: neither "#" nor an "m_" marker. */
  predicate IsOperand(sym: string, constants: map<string, int>) {
    sym != "#" && !IsMem(sym) && (sym in constants || IsLetter(sym))
  }

  /** The constant table numbers its constants 0 .. n-1, one id each (as `enumerate` builds it). */
  predicate IsSlotTable(constants: map<string, int>) {
    (forall c :: c in constants ==> 0 <= constants[c] < |constants|) &&
    (forall c, d :: c in constants && d in constants && c != d ==> constants[c] != constants[d])
  }

  /**
   * In the absolute mode, the left and the right operand resolve a quantity or constant
   * symbol to the same slot. Constants occupy slots 0 .. n-1, letters n .. n+25, and
   * "#" and the "m_" markers stand for -1 on the left.
   */
  lemma AbsoluteSlots(sym: string, constants: map<string, int>)
    requires IsSlotTable(constants)
    ensures IsOperand(sym, constants) ==>
      AbsoluteLeft(sym, constants).Some? &&
      AbsoluteRight(sym, constants) == AbsoluteLeft(sym, constants) &&
      0 <= AbsoluteLeft(sym, constants).value < |constants| + 26 &&
      (sym in constants <==> AbsoluteLeft(sym, constants).value < |constants|)
    ensures sym == "#" || IsMem(sym) ==> AbsoluteLeft(sym, constants) == Some(-1)
  {
  }

  /**
   * Two different quantity or constant symbols never share a slot in the absolute mode,
   * so the address space is unambiguous.
   */
  lemma AbsoluteSlotsInjective(a: string, b: string, constants: map<string, int>)
    requires IsSlotTable(constants)
    requires IsOperand(a, constants) && IsOperand(b, constants) && a != b
    ensures AbsoluteLeft(a, constants).Some? && AbsoluteLeft(b, constants).Some?
    ensures AbsoluteLeft(a, constants).value != AbsoluteLeft(b, constants).value
  {
    AbsoluteSlots(a, constants);
    AbsoluteSlots(b, constants);
    if a !in constants && b !in constants {
      LetterOffsetInjective(a, b);
    }
  }

  /**
   * The incremental mode re-bases the absolute address of a quantity or constant at the
   * step index, on either side; a marker "m_k" resolves to `step - k`.
   */
  lemma IncrementalIsRebasedAbsolute(sym: string, constants: map<string, int>, step: nat)
    ensures IsOperand(sym, constants) ==>
      AbsoluteLeft(sym, constants).Some? &&
      IncrementalLeft(sym, constants, step) == Some(AbsoluteLeft(sym, constants).value + step) &&
      IncrementalRight(sym, constants, step) == Ok(AbsoluteLeft(sym, constants).value + step)
    ensures forall k: nat {:trigger MemMarker(k)} ::
      IncrementalLeft(MemMarker(k), constants, step) == Some(step - k) &&
      IncrementalRight(MemMarker(k), constants, step) == Ok(step - k)
  {
    forall k: nat ensures IncrementalLeft(MemMarker(k), constants, step) == Some(step - k) &&
      IncrementalRight(MemMarker(k), constants, step) == Ok(step - k)
    {
      MemMarkerParses(k);
    }
  }
}
