/**
 * The per-record decisions of read_math23k_file (src/data/universal_dataset.py:146-261):
 * which reason a record is dropped for, when the scan crashes, and when a feature is built.
 * The tokenizer and the numeric evaluator are inputs: the token list of the record's
 * normalised text, and an oracle from a label list to the evaluator's outcome.
 */
module Acceptance {
  import opened Labels
  import opened Encoder
  import opened Spans

  /** The dataset's switches and the tokenizer family. */
  datatype Settings = Settings(
    incremental: bool,
    newToken: bool,
    family: Family,
    constants: map<string, int>,
    addReplacement: bool)

  /** The fields of one record that the decisions read. */
  datatype Record = Record(typeStr: string, numListLength: int, layer: seq<EqStep>, answer: real)

  /** What `compute_value` / `compute_value_for_incremental_equations` did. */
  datatype Evaluation = EvalRaises | EvalValue(value: real)

  /**
   * Why a record is skipped, that the whole scan stops on an uncaught exception, or the
   * label list of an accepted record.
   */
  datatype Outcome =
    | Filtered          // type_str is not "legal"
    | Crashed           // an uncaught assert or exception ends read_math23k_file
    | EmptyEquation     // no equation layer
    | NoLabels          // the encoder returned None
    | OverHeight        // more than ten labels in a test file
    | EvalFailed        // the evaluator raised
    | AnswerMismatch    // the value is not within tolerance of the answer
    | Accepted(labels: seq<Label>)

  predicate SubstringAt(s: string, t: string, i: int) {
    0 <= i && i + |t| <= |s| && s[i..i + |t|] == t
  }

  /** An occurrence in the tail of `s` is an occurrence in `s` one position later. */
  lemma SubstringShift(s: string, t: string, i: int)
    requires |s| > 0 && i >= 0
    ensures SubstringAt(s[1..], t, i) <==> SubstringAt(s, t, i + 1)
  {
    if i + |t| <= |s| - 1 {
      assert s[1..][i..i + |t|] == s[i + 1..i + 1 + |t|];
    }
  }

  /** Python's `t in s` on strings. */
  function HasSubstring(s: string, t: string): (r: bool)
    ensures r <==> exists i :: SubstringAt(s, t, i)
    decreases |s|
  {
    if |s| < |t| then false
    else if s[..|t|] == t then assert SubstringAt(s, t, 0); true
    else
      var r := HasSubstring(s[1..], t);
      assert forall i :: SubstringAt(s[1..], t, i) ==> SubstringAt(s, t, i + 1) by {
        forall i | SubstringAt(s[1..], t, i) ensures SubstringAt(s, t, i + 1) {
          SubstringShift(s, t, i);
        }
      }
      assert forall i :: SubstringAt(s, t, i) ==> SubstringAt(s[1..], t, i - 1) by {
        forall i | SubstringAt(s, t, i) ensures SubstringAt(s[1..], t, i - 1) {
          assert i != 0;
          SubstringShift(s, t, i - 1);
        }
      }
      r
  }

  function EncoderConfig(s: Settings): Config {
    Config(if s.incremental then Incremental else Absolute, s.constants, s.addReplacement)
  }

  /** How many quantity spans the scan records (lines 175-194). */
  function SpanCount(s: Settings, tokens: seq<string>): int {
    if s.newToken then |NumPositions(tokens, Pattern(s.family), 0)| else |ScanFrom(tokens, Pattern(s.family), 0)|
  }

  function Abs(x: real): real {
    if x < 0.0 then -x else x
  }

  /** The answer check of lines 250-256: the signed answer picks the tolerance. */
  predicate WithinTolerance(res: real, answer: real) {
    var diff := res - answer;
    if answer > 1000000.0 then Abs(diff) < 200.0 else Abs(diff) < 0.0001
  }

  predicate AllOrdered(labels: seq<Label>) {
    forall i :: 0 <= i < |labels| ==> labels[i].lo <= labels[i].hi
  }

  /** The decisions of lines 146-261 for one record of file `file`, in the order the code takes them. */
  function Classify(s: Settings, file: string, rec: Record, tokens: seq<string>,
                    evaluate: seq<Label> -> Evaluation): Outcome
  {
    if rec.typeStr != "legal" then Filtered
    else if SpanCount(s, tokens) != rec.numListLength then Crashed
    else if |rec.layer| == 0 then EmptyEquation
    else
      match Encode(EncoderConfig(s), rec.layer)
      case Failed(Raises) => Crashed
      case Failed(ReturnsNone) => NoLabels
      // the string "index error" has eleven characters, and unpacking its letters raises
      case Failed(ReturnsIndexError) => if HasSubstring(file, "test") then OverHeight else Crashed
      case Encoded(labels) =>
        if |labels| == 0 then NoLabels
        else if |labels| > 10 && HasSubstring(file, "test") then OverHeight
        // each label of a "parallel" file is unpacked as a list of labels: TypeError
        else if HasSubstring(file, "parallel") then Crashed
        else if !AllOrdered(labels) then Crashed
        else
          match evaluate(labels)
          case EvalRaises => EvalFailed
          case EvalValue(res) => if WithinTolerance(res, rec.answer) then Accepted(labels) else AnswerMismatch
  }

  /**
   * A record is accepted exactly when it is legal, its span count matches its quantity
   * list, its layer is non-empty and encodes, the labels fit the height limit of a test
   * file, the file is not a parallel one, and the evaluated value is within tolerance; its
   * feature then holds the encoder's labels, one ordered tuple per step.
   */
  lemma AcceptedExactly(s: Settings, file: string, rec: Record, tokens: seq<string>,
                        evaluate: seq<Label> -> Evaluation)
    ensures Classify(s, file, rec, tokens, evaluate).Accepted? <==>
      rec.typeStr == "legal" && SpanCount(s, tokens) == rec.numListLength && |rec.layer| > 0 &&
      Encode(EncoderConfig(s), rec.layer).Encoded? &&
      (|rec.layer| > 10 ==> !HasSubstring(file, "test")) && !HasSubstring(file, "parallel") &&
      evaluate(Encode(EncoderConfig(s), rec.layer).labels).EvalValue? &&
      WithinTolerance(evaluate(Encode(EncoderConfig(s), rec.layer).labels).value, rec.answer)
    ensures Classify(s, file, rec, tokens, evaluate).Accepted? ==>
      var labels := Classify(s, file, rec, tokens, evaluate).labels;
      Encode(EncoderConfig(s), rec.layer) == Encoded(labels) && |labels| == |rec.layer| &&
      forall i :: 0 <= i < |labels| ==> Ordered(labels[i])
  {
    var e := Encode(EncoderConfig(s), rec.layer);
    if e.Encoded? {
      EncodedWellFormed(EncoderConfig(s), rec.layer);
    }
  }

  /** The `assert left <= right` over the labels never fires: the encoders order every tuple. */
  lemma OrderCheckHolds(s: Settings, rec: Record)
    requires Encode(EncoderConfig(s), rec.layer).Encoded?
    ensures AllOrdered(Encode(EncoderConfig(s), rec.layer).labels)
  {
    EncodedWellFormed(EncoderConfig(s), rec.layer);
  }

  /** The `isinstance(labels, str)` branch is dead: neither encoder used here returns "index error". */
  lemma NoIndexError(s: Settings, rec: Record)
    ensures Encode(EncoderConfig(s), rec.layer) != Failed(ReturnsIndexError)
  {
    if Encode(EncoderConfig(s), rec.layer) == Failed(ReturnsIndexError) {
      EncodeFails(EncoderConfig(s), rec.layer, ReturnsIndexError);
      var j :| 0 <= j < |rec.layer| && StepAt(EncoderConfig(s), rec.layer, j) == Err(ReturnsIndexError) &&
        forall i :: 0 <= i < j ==> StepAt(EncoderConfig(s), rec.layer, i).Ok?;
      OnlyBasicReturnsIndexError(EncoderConfig(s), rec.layer, j);
    }
  }

  /**
   * The scan crashes on a legal record exactly when its span count does not match its
   * quantity list, or its non-empty layer makes the encoder raise, or it encodes within
   * the height limit in a parallel file.
   */
  lemma CrashedExactly(s: Settings, file: string, rec: Record, tokens: seq<string>,
                       evaluate: seq<Label> -> Evaluation)
    ensures Classify(s, file, rec, tokens, evaluate) == Crashed <==>
      rec.typeStr == "legal" &&
      (SpanCount(s, tokens) != rec.numListLength ||
       (|rec.layer| > 0 &&
        (Encode(EncoderConfig(s), rec.layer) == Failed(Raises) ||
         (Encode(EncoderConfig(s), rec.layer).Encoded? &&
          (|rec.layer| > 10 ==> !HasSubstring(file, "test")) && HasSubstring(file, "parallel")))))
  {
    NoIndexError(s, rec);
    var e := Encode(EncoderConfig(s), rec.layer);
    if e.Encoded? {
      EncodedWellFormed(EncoderConfig(s), rec.layer);
    }
  }

  /** Both modes of the span scan count the same spans. */
  lemma SpanCountIndependentOfMode(s: Settings, tokens: seq<string>)
    ensures SpanCount(s, tokens) == |ScanFrom(tokens, Pattern(s.family), 0)|
  {
    CollapseAgreesWithScan(tokens, Pattern(s.family), 0);
  }

  /** Above one million the tolerance is 200; at or below it, 0.0001. */
  lemma ToleranceScenarios()
    ensures WithinTolerance(1999850.0, 2000000.0)
    ensures !WithinTolerance(5.0002, 5.0)
    ensures WithinTolerance(5.00005, 5.0)
    ensures !WithinTolerance(1000199.0, 1000000.0)
    ensures !WithinTolerance(-1999850.0, -2000000.0)
  {
  }
}
