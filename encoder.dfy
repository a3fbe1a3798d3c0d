/**
 * The three equation-layer label encoders get_label_ids, get_label_ids_updated and
 * get_label_ids_incremental (src/data/universal_dataset.py:295-462). The three share one
 * loop (the duplicate check, the stop flag and the append); what differs is how a step's
 * operands are resolved and ordered, which is a pure function per variant.
 */
module Encoder {
  import opened Wrappers
  import opened Operators
  import opened Symbols
  import opened Labels
  import opened Addressing
  import opened Canonical

  /** get_label_ids, get_label_ids_updated and get_label_ids_incremental. */
  datatype Variant = Basic | Absolute | Incremental

  /** The encoder variant, the constant table `constant2id` (empty when absent) and `add_replacement`. */
  datatype Config = Config(variant: Variant, constants: map<string, int>, addReplacement: bool)

  /** One entry `(left_symbol, right_symbol, op)` of an equation layer. */
  datatype EqStep = EqStep(left: string, right: string, op: string)

  /** What an encoder returns: the label list, or the way it failed. */
  datatype Encoding = Encoded(labels: seq<Label>) | Failed(failure: Failure)

  /** `is_stop`: 1 for the last step of the layer, 0 for the others. */
  function StopFlag(i: nat, n: nat): (r: int)
    ensures r == 1 || r == 0
    ensures r == 1 <==> i + 1 == n
  {
    if i + 1 == n then 1 else 0
  }

  /** One step of get_label_ids after the duplicate check (lines 304-322). */
  function BasicStep(s: EqStep, stop: int): Result<Label> {
    match BasicLeft(s.left)
    case None => Err(Raises)
    case Some(l) =>
      match BasicRight(s.right)
      case None => Err(Raises)
      case Some(r) =>
        if r < 0 then Err(Raises)
        else if !(l >= 0 || l == -1) then Err(ReturnsIndexError)
        else BasicOrder(l, r, s.op, stop)
  }

  /** One step of get_label_ids_updated after the duplicate check (lines 336-370). */
  function AbsoluteStep(s: EqStep, constants: map<string, int>, stop: int): Result<Label> {
    match AbsoluteLeft(s.left, constants)
    case None => Err(Raises)
    case Some(l) =>
      match AbsoluteRight(s.right, constants)
      case None => Err(Raises)
      case Some(r) =>
        if r < 0 || l < -1 then Err(Raises)
        else AbsoluteOrder(l, r, s.op, stop)
  }

  /** Step `i` of get_label_ids_incremental after the duplicate check (lines 383-461). */
  function IncrementalStep(s: EqStep, constants: map<string, int>, i: nat, stop: int): Result<Label> {
    match IncrementalLeft(s.left, constants, i)
    case None => Err(Raises)
    case Some(l) =>
      match IncrementalRight(s.right, constants, i)
      case Err(f) => Err(f)
      case Ok(r) =>
        if r < 0 || l < 0 then Err(Raises)
        else IncrementalOrder(IsMem(s.left), IsMem(s.right), l, r, s.op, stop)
  }

  /** The variant's encoding of step `i` with stop flag `stop`, the duplicate check aside. */
  function StepLabel(cfg: Config, s: EqStep, i: nat, stop: int): (r: Result<Label>)
    ensures r.Ok? ==> Ordered(r.value) && r.value.stop == stop
  {
    match cfg.variant
    case Basic => BasicStep(s, stop)
    case Absolute => AbsoluteStep(s, cfg.constants, stop)
    case Incremental => IncrementalStep(s, cfg.constants, i, stop)
  }

  /** Step `i` of the layer, including the duplicate-operand check each encoder makes first. */
  function StepAt(cfg: Config, steps: seq<EqStep>, i: nat): Result<Label>
    requires i < |steps|
  {
    if steps[i].left == steps[i].right && !cfg.addReplacement then Err(ReturnsNone)
    else StepLabel(cfg, steps[i], i, StopFlag(i, |steps|))
  }

  /** The outcome of each step of the layer, in order. */
  function StepResults(cfg: Config, steps: seq<EqStep>): (rs: seq<Result<Label>>)
    ensures |rs| == |steps| && forall i :: 0 <= i < |steps| ==> rs[i] == StepAt(cfg, steps, i)
  {
    seq(|steps|, i requires 0 <= i < |steps| => StepAt(cfg, steps, i))
  }

  /**
   * What the encoder's loop makes of a sequence of step outcomes: the tuples in order,
   * or the failure of the first step that fails.
   */
  function Collect(rs: seq<Result<Label>>): Encoding {
    if |rs| == 0 then Encoded([])
    else
      match Collect(rs[..|rs| - 1])
      case Failed(f) => Failed(f)
      case Encoded(ls) =>
        match rs[|rs| - 1]
        case Ok(l) => Encoded(ls + [l])
        case Err(f) => Failed(f)
  }

  /** The encoding of a whole equation layer. */
  function Encode(cfg: Config, steps: seq<EqStep>): Encoding {
    Collect(StepResults(cfg, steps))
  }

  /** Once a prefix has failed, every longer prefix fails the same way. */
  lemma {:induction false} FailureSticks(rs: seq<Result<Label>>, k: nat, j: nat)
    requires k <= j <= |rs|
    requires Collect(rs[..k]).Failed?
    ensures Collect(rs[..j]) == Collect(rs[..k])
  {
    if j > k {
      FailureSticks(rs, k, j - 1);
      assert rs[..j][..j - 1] == rs[..j - 1];
    }
  }

  /**
   * The encoders' loop: for each step in order, return None on a disallowed duplicate,
   * compute `is_stop`, resolve and order the operands, and append the tuple.
   */
  method EncodeLayer(cfg: Config, steps: seq<EqStep>) returns (r: Encoding)
    ensures r == Encode(cfg, steps)
  {
    ghost var rs := StepResults(cfg, steps);
    var labelIds: seq<Label> := [];
    for i := 0 to |steps|
      invariant Collect(rs[..i]) == Encoded(labelIds)
    {
      assert rs[..i + 1][..i] == rs[..i];
      var s := steps[i];
      if s.left == s.right && !cfg.addReplacement {
        FailureSticks(rs, i + 1, |steps|);
        assert rs[..|steps|] == rs;
        return Failed(ReturnsNone);
      }
      var isStop := if i == |steps| - 1 then 1 else 0;
      var step := StepLabel(cfg, s, i, isStop);
      if step.Err? {
        FailureSticks(rs, i + 1, |steps|);
        assert rs[..|steps|] == rs;
        return Failed(step.failure);
      }
      labelIds := labelIds + [step.value];
    }
    assert rs[..|steps|] == rs;
    r := Encoded(labelIds);
  }

  /** A sequence of outcomes is collected exactly when each succeeds, one tuple per outcome, in order. */
  lemma {:induction false} CollectShape(rs: seq<Result<Label>>)
    ensures Collect(rs).Encoded? <==> forall i :: 0 <= i < |rs| ==> rs[i].Ok?
    ensures Collect(rs).Encoded? ==>
      |Collect(rs).labels| == |rs| && forall i :: 0 <= i < |rs| ==> rs[i] == Ok(Collect(rs).labels[i])
  {
    if |rs| > 0 {
      var init := rs[..|rs| - 1];
      CollectShape(init);
      assert forall i :: 0 <= i < |init| ==> init[i] == rs[i];
    }
  }

  /** Collecting fails with `f` exactly when the first failing outcome is `Err(f)`. */
  lemma {:induction false} CollectFailure(rs: seq<Result<Label>>, f: Failure)
    ensures Collect(rs) == Failed(f) <==>
      exists j :: 0 <= j < |rs| && rs[j] == Err(f) && forall i :: 0 <= i < j ==> rs[i].Ok?
  {
    if |rs| > 0 {
      var init := rs[..|rs| - 1];
      CollectFailure(init, f);
      CollectShape(init);
      assert forall i :: 0 <= i < |init| ==> init[i] == rs[i];
      if Collect(init).Failed? {
        var g := Collect(init).failure;
        CollectFailure(init, g);
        var j' :| 0 <= j' < |init| && init[j'] == Err(g) && forall i :: 0 <= i < j' ==> init[i].Ok?;
        if exists j :: 0 <= j < |rs| && rs[j] == Err(f) && forall i :: 0 <= i < j ==> rs[i].Ok? {
          var j :| 0 <= j < |rs| && rs[j] == Err(f) && forall i :: 0 <= i < j ==> rs[i].Ok?;
          assert j == j';
        }
      }
    }
  }

  /**
   * A layer is encoded exactly when every step is, and then its label list holds one
   * tuple per step, in step order: tuple i is the encoding of step i.
   */
  lemma EncodeSucceeds(cfg: Config, steps: seq<EqStep>)
    ensures Encode(cfg, steps).Encoded? <==> forall i :: 0 <= i < |steps| ==> StepAt(cfg, steps, i).Ok?
    ensures Encode(cfg, steps).Encoded? ==>
      |Encode(cfg, steps).labels| == |steps| &&
      forall i :: 0 <= i < |steps| ==> StepAt(cfg, steps, i) == Ok(Encode(cfg, steps).labels[i])
  {
    CollectShape(StepResults(cfg, steps));
  }

  /**
   * An encoder fails with `f` exactly when some step fails with `f` and every step before
   * it is encoded: failures are reported at the first offending step.
   */
  lemma EncodeFails(cfg: Config, steps: seq<EqStep>, f: Failure)
    ensures Encode(cfg, steps) == Failed(f) <==>
      exists j :: 0 <= j < |steps| && StepAt(cfg, steps, j) == Err(f) &&
        forall i :: 0 <= i < j ==> StepAt(cfg, steps, i).Ok?
  {
    var rs := StepResults(cfg, steps);
    CollectFailure(rs, f);
    if Encode(cfg, steps) == Failed(f) {
      var j :| 0 <= j < |rs| && rs[j] == Err(f) && forall i :: 0 <= i < j ==> rs[i].Ok?;
      assert StepAt(cfg, steps, j) == Err(f);
    }
    if exists j :: 0 <= j < |steps| && StepAt(cfg, steps, j) == Err(f) &&
        forall i :: 0 <= i < j ==> StepAt(cfg, steps, i).Ok? {
      var j :| 0 <= j < |steps| && StepAt(cfg, steps, j) == Err(f) &&
        forall i :: 0 <= i < j ==> StepAt(cfg, steps, i).Ok?;
      assert rs[j] == Err(f);
    }
  }

  /**
   * Every successful encoding, of any of the three variants, has one tuple per step,
   * each with `lo <= hi` and a table operator, and `is_stop` set on the last tuple only.
   */
  lemma EncodedWellFormed(cfg: Config, steps: seq<EqStep>)
    requires Encode(cfg, steps).Encoded?
    ensures |Encode(cfg, steps).labels| == |steps|
    ensures forall i :: 0 <= i < |steps| ==> Ordered(Encode(cfg, steps).labels[i])
    ensures forall i :: 0 <= i < |steps| ==>
      (Encode(cfg, steps).labels[i].stop == if i == |steps| - 1 then 1 else 0)
  {
    EncodeSucceeds(cfg, steps);
  }

  /**
   * With duplicates disallowed, a step whose two symbols are equal makes the encoder
   * return None if every earlier step was encoded; so no encoded layer has such a step.
   */
  lemma DuplicateReturnsNone(cfg: Config, steps: seq<EqStep>, k: nat)
    requires !cfg.addReplacement && k < |steps| && steps[k].left == steps[k].right
    requires forall i :: 0 <= i < k ==> StepAt(cfg, steps, i).Ok?
    ensures Encode(cfg, steps) == Failed(ReturnsNone)
  {
    EncodeFails(cfg, steps, ReturnsNone);
    assert StepAt(cfg, steps, k) == Err(ReturnsNone);
  }

  /** With duplicates disallowed, an encoded layer has two different symbols in each step. */
  lemma EncodedHasNoDuplicates(cfg: Config, steps: seq<EqStep>)
    requires !cfg.addReplacement && Encode(cfg, steps).Encoded?
    ensures forall i :: 0 <= i < |steps| ==> steps[i].left != steps[i].right
  {
    EncodeSucceeds(cfg, steps);
    forall i | 0 <= i < |steps| ensures steps[i].left != steps[i].right {
      assert StepAt(cfg, steps, i).Ok?;
    }
  }

  /**
   * get_label_ids returns "index error" at a step exactly when the duplicate check
   * passes, the right symbol is one character at or after 'a', and the left symbol is one
   * character more than one place before 'a' (so that its index is below -1).
   */
  lemma BasicIndexError(cfg: Config, steps: seq<EqStep>, i: nat)
    requires cfg.variant == Basic && i < |steps|
    ensures StepAt(cfg, steps, i) == Err(ReturnsIndexError) <==>
      !(steps[i].left == steps[i].right && !cfg.addReplacement) &&
      |steps[i].right| == 1 && steps[i].right[0] as int >= 'a' as int &&
      steps[i].left != "#" && |steps[i].left| == 1 && steps[i].left[0] as int < 'a' as int - 1
  {
  }

  /**
   * get_label_ids_incremental returns None at a step exactly when the step is a
   * disallowed duplicate, or its left symbol resolves and its right symbol is neither an
   * "m_" marker, a constant nor a letter a..z.
   */
  lemma IncrementalReturnsNone(cfg: Config, steps: seq<EqStep>, i: nat)
    requires cfg.variant == Incremental && i < |steps|
    ensures StepAt(cfg, steps, i) == Err(ReturnsNone) <==>
      (steps[i].left == steps[i].right && !cfg.addReplacement) ||
      (IncrementalLeft(steps[i].left, cfg.constants, i).Some? &&
       !IsMem(steps[i].right) && steps[i].right !in cfg.constants && !IsLetter(steps[i].right))
  {
    var s := steps[i];
    var stop := StopFlag(i, |steps|);
    if !(s.left == s.right && !cfg.addReplacement) && IncrementalLeft(s.left, cfg.constants, i).Some? {
      var r := IncrementalRight(s.right, cfg.constants, i);
      if r.Ok? && r.value >= 0 && IncrementalLeft(s.left, cfg.constants, i).value >= 0 {
        var o := IncrementalOrder(IsMem(s.left), IsMem(s.right), IncrementalLeft(s.left, cfg.constants, i).value, r.value, s.op, stop);
        assert o.Ok? || o == Err(Raises);
      }
    }
  }

  /**
   * get_label_ids_updated returns None only for a disallowed duplicate, and neither it
   * nor get_label_ids_incremental ever returns "index error".
   */
  lemma OnlyBasicReturnsIndexError(cfg: Config, steps: seq<EqStep>, i: nat)
    requires cfg.variant != Basic && i < |steps|
    ensures StepAt(cfg, steps, i) != Err(ReturnsIndexError)
    ensures cfg.variant == Absolute ==>
      (StepAt(cfg, steps, i) == Err(ReturnsNone) <==> steps[i].left == steps[i].right && !cfg.addReplacement)
  {
    var s := steps[i];
    var stop := StopFlag(i, |steps|);
    if cfg.variant == Incremental {
      var l := IncrementalLeft(s.left, cfg.constants, i);
      var r := IncrementalRight(s.right, cfg.constants, i);
      if l.Some? && r.Ok? && r.value >= 0 && l.value >= 0 {
        var o := IncrementalOrder(IsMem(s.left), IsMem(s.right), l.value, r.value, s.op, stop);
        assert o.Ok? || o == Err(Raises);
      }
    } else {
      var l := AbsoluteLeft(s.left, cfg.constants);
      var r := AbsoluteRight(s.right, cfg.constants);
      if l.Some? && r.Some? && r.value >= 0 && l.value >= -1 {
        var o := AbsoluteOrder(l.value, r.value, s.op, stop);
        assert o.Ok? || o == Err(Raises);
      }
    }
  }

  /** The two addresses a variant resolves a step's symbols to, when both resolve. */
  function ResolvedPair(cfg: Config, s: EqStep, i: nat): Option<(int, int)> {
    match cfg.variant
    case Basic =>
      if BasicLeft(s.left).Some? && BasicRight(s.right).Some? then
        Some((BasicLeft(s.left).value, BasicRight(s.right).value))
      else None
    case Absolute =>
      if AbsoluteLeft(s.left, cfg.constants).Some? && AbsoluteRight(s.right, cfg.constants).Some? then
        Some((AbsoluteLeft(s.left, cfg.constants).value, AbsoluteRight(s.right, cfg.constants).value))
      else None
    case Incremental =>
      if IncrementalLeft(s.left, cfg.constants, i).Some? && IncrementalRight(s.right, cfg.constants, i).Ok? then
        Some((IncrementalLeft(s.left, cfg.constants, i).value, IncrementalRight(s.right, cfg.constants, i).value))
      else None
  }

  /**
   * Every tuple an encoder emits for a step with a table operator computes what the step
   * computes: under any assignment of values to addresses, the tuple read with its own
   * operator has the value of `left op right` at the step's resolved addresses.
   */
  lemma StepPreservesValue(cfg: Config, s: EqStep, i: nat, stop: int, v: int -> real)
    requires s.op in UniLabels && StepLabel(cfg, s, i, stop).Ok?
    ensures ResolvedPair(cfg, s, i).Some?
    ensures LabelValue(StepLabel(cfg, s, i, stop).value, v) ==
      PairValue(ResolvedPair(cfg, s, i).value.0, ResolvedPair(cfg, s, i).value.1, s.op, v)
  {
    var p := ResolvedPair(cfg, s, i);
    match cfg.variant
    case Basic =>
      BasicOrderPreservesValue(p.value.0, p.value.1, s.op, stop, v);
    case Absolute =>
      AbsoluteOrderPreservesValue(p.value.0, p.value.1, s.op, stop, v);
    case Incremental =>
      IncrementalOrderPreservesValue(IsMem(s.left), IsMem(s.right), p.value.0, p.value.1, s.op, stop, v);
  }

  /** A tuple with both addresses moved by `d`. */
  function Rebase(r: Result<Label>, d: int): Result<Label> {
    match r
    case Ok(l) => Ok(Label(l.lo + d, l.hi + d, l.op, l.stop))
    case Err(f) => Err(f)
  }

  /** The absolute rule compares addresses only, so moving both by the same amount commutes with it. */
  lemma AbsoluteOrderRebase(left: int, right: int, op: string, stop: int, d: int)
    ensures AbsoluteOrder(left + d, right + d, op, stop) == Rebase(AbsoluteOrder(left, right, op, stop), d)
  {
  }

  /**
   * For a step over quantities and constants only, the incremental encoder at step `i`
   * emits the absolute encoder's tuple with both addresses moved up by `i`.
   */
  lemma IncrementalStepIsRebasedAbsolute(s: EqStep, constants: map<string, int>, i: nat, stop: int)
    requires IsSlotTable(constants)
    requires IsOperand(s.left, constants) && IsOperand(s.right, constants)
    ensures IncrementalStep(s, constants, i, stop) == Rebase(AbsoluteStep(s, constants, stop), i)
  {
    AbsoluteSlots(s.left, constants);
    AbsoluteSlots(s.right, constants);
    IncrementalIsRebasedAbsolute(s.left, constants, i);
    IncrementalIsRebasedAbsolute(s.right, constants, i);
    var l := AbsoluteLeft(s.left, constants).value;
    var r := AbsoluteRight(s.right, constants).value;
    AbsoluteOrderRebase(l, r, s.op, stop, i);
  }

  /**
   * Without a constant table, the basic and the absolute encoder agree on a step over two
   * different letters whose operator has no "_rev".
   */
  lemma BasicAgreesWithAbsolute(s: EqStep, stop: int)
    requires IsLetter(s.left) && IsLetter(s.right) && s.left != s.right && !EndsWithRev(s.op)
    ensures BasicStep(s, stop) == AbsoluteStep(s, map[], stop)
  {
    LetterOffsetInjective(s.left, s.right);
    assert s.left != "#" && !IsMem(s.left);
  }

  lemma CollectSmall(a: Label, b: Label, f: Failure)
    ensures Collect([Ok(a)]) == Encoded([a])
    ensures Collect([Ok(a), Ok(b)]) == Encoded([a, b])
    ensures Collect([Err(f)]) == Failed(f)
  {
    assert [Ok(a), Ok(b)][..1] == [Ok(a)];
    assert [Ok(a)][..0] == [];
    var one: seq<Result<Label>> := [Err(f)];
    assert one[..0] == [];
  }

  /** Absolute mode, no constants: "a + b" is kept, and "b - a" becomes `(a, b, -_rev)`. */
  lemma AbsoluteScenarios()
    ensures Encode(Config(Absolute, map[], false), [EqStep("a", "b", "+")]) == Encoded([Label(0, 1, 0, 1)])
    ensures Encode(Config(Absolute, map[], false), [EqStep("b", "a", "-")]) == Encoded([Label(0, 1, 2, 1)])
  {
    var cfg := Config(Absolute, map[], false);
    assert IsLetter("a") && IsLetter("b") && !IsMem("a") && !IsMem("b");
    assert LetterOffset("a") == 0 && LetterOffset("b") == 1;
    assert OpId("+") == Some(0) && ToggledId("-") == Some(2) by { ToggleTable("-"); }
    var s1, s2 := [EqStep("a", "b", "+")], [EqStep("b", "a", "-")];
    assert StepAt(cfg, s1, 0) == Ok(Label(0, 1, 0, 1));
    assert StepResults(cfg, s1) == [Ok(Label(0, 1, 0, 1))];
    assert StepAt(cfg, s2, 0) == Ok(Label(0, 1, 2, 1));
    assert StepResults(cfg, s2) == [Ok(Label(0, 1, 2, 1))];
    CollectSmall(Label(0, 1, 0, 1), Label(0, 1, 2, 1), Raises);
  }

  /** Absolute mode with the table {"1": 0, "PI": 1}: "a / PI" becomes `(PI, a, /_rev)`. */
  lemma ConstantScenario()
    ensures Encode(Config(Absolute, map["1" := 0, "PI" := 1], false), [EqStep("a", "PI", "/")]) ==
      Encoded([Label(1, 2, 5, 1)])
  {
    var c := map["1" := 0, "PI" := 1];
    var cfg := Config(Absolute, c, false);
    assert IsLetter("a") && !IsMem("a") && "a" !in c && |c| == 2;
    assert LetterOffset("a") == 0;
    assert ToggledId("/") == Some(5) by { ToggleTable("/"); }
    var s := [EqStep("a", "PI", "/")];
    assert StepAt(cfg, s, 0) == Ok(Label(1, 2, 5, 1));
    assert StepResults(cfg, s) == [Ok(Label(1, 2, 5, 1))];
    CollectSmall(Label(1, 2, 5, 1), Label(1, 2, 5, 1), Raises);
  }

  /** The marker "m_0" names the result of step 0. */
  lemma MemZero()
    ensures IsMem("m_0") && ParseInt("m_0"[2..]) == Some(0)
  {
    assert "m_0"[2..] == "0";
    assert DigitsValue("0") == 0 by { assert "0"[..0] == ""; }
  }

  /** The operand addresses of "a + b" at step 0, with an empty constant table. */
  lemma FirstStepOperands()
    ensures IncrementalLeft("a", map[], 0) == Some(0) && IncrementalRight("b", map[], 0) == Ok(1)
  {
    assert IsLetter("a") && IsLetter("b") && !IsMem("a") && !IsMem("b");
  }

  /** The operand addresses of "m_0 * c" at step 1, with an empty constant table. */
  lemma SecondStepOperands()
    ensures IncrementalLeft("m_0", map[], 1) == Some(1) && IncrementalRight("c", map[], 1) == Ok(3)
  {
    assert IsLetter("c") && !IsMem("c");
    MemZero();
  }

  /** The operand addresses of "b + m_0" at step 0, with an empty constant table. */
  lemma SwappedOperands()
    ensures IncrementalLeft("b", map[], 0) == Some(1) && IncrementalRight("m_0", map[], 0) == Ok(0)
  {
    assert IsLetter("b") && !IsMem("b");
    MemZero();
  }

  /** The first step of the incremental scenario below. */
  lemma IncrementalFirstStep()
    ensures IncrementalStep(EqStep("a", "b", "+"), map[], 0, 0) == Ok(Label(0, 1, 0, 0))
  {
    FirstStepOperands();
    assert !IsMem("a") && !IsMem("b");
    assert AbsoluteOrder(0, 1, "+", 0) == Ok(Label(0, 1, 0, 0));
  }

  /** The second step of the incremental scenario below. */
  lemma IncrementalSecondStep()
    ensures IncrementalStep(EqStep("m_0", "c", "*"), map[], 1, 1) == Ok(Label(1, 3, 3, 1))
  {
    SecondStepOperands();
    assert IsMem("m_0") && !IsMem("c");
    assert IncrementalOrder(true, false, 1, 3, "*", 1) == Ok(Label(1, 3, 3, 1));
  }

  /**
   * Incremental mode: "a + b" then "m_0 * c" gives `(0, 1, +)` and `(1, 3, *)`: the second
   * step's addresses are re-based at step 1, and "m_0" is the address 1 - 0.
   */
  lemma IncrementalScenario()
    ensures Encode(Config(Incremental, map[], false), [EqStep("a", "b", "+"), EqStep("m_0", "c", "*")]) ==
      Encoded([Label(0, 1, 0, 0), Label(1, 3, 3, 1)])
  {
    var cfg := Config(Incremental, map[], false);
    var s := [EqStep("a", "b", "+"), EqStep("m_0", "c", "*")];
    IncrementalFirstStep();
    IncrementalSecondStep();
    assert StepAt(cfg, s, 0) == Ok(Label(0, 1, 0, 0)) by {
      assert s[0].left != s[0].right by { assert s[0].left[0] != s[0].right[0]; }
    }
    assert StepAt(cfg, s, 1) == Ok(Label(1, 3, 3, 1)) by {
      assert s[1].left != s[1].right by { assert |s[1].left| != |s[1].right|; }
    }
    assert StepResults(cfg, s) == [Ok(Label(0, 1, 0, 0)), Ok(Label(1, 3, 3, 1))];
    CollectSmall(Label(0, 1, 0, 0), Label(1, 3, 3, 1), Raises);
  }

  /**
   * Incremental mode: a quantity on the left of a marker for an earlier result is swapped,
   * and the swap raises when the operator has no toggled id (the commutative ones).
   */
  lemma IncrementalSwapWithoutToggle(s: EqStep, constants: map<string, int>, i: nat, stop: int)
    requires !IsMem(s.left) && IsMem(s.right) && s.op in UniLabels && IsCommutative(s.op)
    requires IncrementalLeft(s.left, constants, i).Some? && IncrementalRight(s.right, constants, i).Ok?
    requires 0 <= IncrementalRight(s.right, constants, i).value < IncrementalLeft(s.left, constants, i).value
    ensures IncrementalStep(s, constants, i, stop) == Err(Raises)
  {
    ToggleTable(s.op);
  }

  /** The single step of the commutative scenario below raises. */
  lemma IncrementalCommutativeStep()
    ensures IncrementalStep(EqStep("b", "m_0", "+"), map[], 0, 1) == Err(Raises)
  {
    SwappedOperands();
    assert !IsMem("b") && IsMem("m_0") && "+" in UniLabels && IsCommutative("+");
    IncrementalSwapWithoutToggle(EqStep("b", "m_0", "+"), map[], 0, 1);
  }

  /** Incremental mode: "b + m_0" raises, because the swap looks up "+_rev", which is not in the table. */
  lemma IncrementalCommutativeScenario()
    ensures Encode(Config(Incremental, map[], false), [EqStep("b", "m_0", "+")]) == Failed(Raises)
  {
    var cfg := Config(Incremental, map[], false);
    var s := [EqStep("b", "m_0", "+")];
    IncrementalCommutativeStep();
    assert StepAt(cfg, s, 0) == Err(Raises) by {
      assert s[0].left != s[0].right by { assert |s[0].left| != |s[0].right|; }
    }
    assert StepResults(cfg, s) == [Err(Raises)];
    CollectSmall(Label(0, 0, 0, 0), Label(0, 0, 0, 0), Raises);
  }
}
