# Equation-layer label encoding of the universal math-word-problem dataset

This project models the data-preparation core of `src/data/universal_dataset.py` in Dafny and proves properties of the model.

In the dataset, a math word problem arrives with an *equation layer*: a list of `(left_symbol, right_symbol, op)` steps over
- quantity letters `a`..`z`,
- named constants,
- `#`,
- `m_k` markers for the result of an earlier step.

The core turns this into training features in four parts:

- **Label encoders.** `get_label_ids` (basic), `get_label_ids_updated` (absolute addressing) and `get_label_ids_incremental` (addresses relative to the step). Each turns a layer into label tuples `[lo, hi, op_id, is_stop]`:
  - it resolves every symbol to an integer address;
  - it reorders the pair so the smaller address comes first, toggling `x` ↔ `x_rev` where the operator is not commutative;
  - `op_id` indexes the fixed table `["+", "-", "-_rev", "*", "/", "/_rev"]`.
- **Text normalisation.** Every `temp_a`..`temp_z` placeholder becomes ` <quant> `. The text is then split on whitespace and rebuilt.
- **Span scan.** The scan finds the sub-tokens a tokenizer makes of ` <quant> `. In new-token mode it collapses each run into a single `<NUM>` token.
- **Batch padding.** `collate_function` right-pads a batch to its largest sizes.

On top of these, the per-record decisions of `read_math23k_file` classify a record as filtered, crashed, dropped for a reason, or accepted.

Modules, one per file:
- `Operators`: the operator table, the `_rev` toggle, and operator semantics used to state value preservation.
- `Symbols`: `ord`, `m_` markers, letters, and `int()` on marker indices.
- `Labels`: the label tuple and the ways an encoder fails.
- `Addressing`: operand addresses per variant.
- `Canonical`: the three ordering rules.
- `Encoder`: the shared encoder loop `EncodeLayer`, proved against the specification `Encode`, plus the layer-level properties.
- `Normalise`, `Spans`, `Collate` and `Acceptance`: the other three parts and the classification.

How Python behaviour is represented:
- **Uncaught exceptions.** A failed `assert`, `ord` of a string that is not one character long, `list.index` of an operator missing from the table, and `int()` of a non-number are all the failure outcome `Raises`. None of them is a precondition.
- **Returned failures.** An encoder's `None` becomes `ReturnsNone`, and the string `"index error"` becomes `ReturnsIndexError`.
- **Encoder variants.** The three encoders share one loop, parameterised by the variant.

The incremental encoder swaps a non-`m_` left operand and an `m_` right operand through `uni_labels.index(op + "_rev")` for every operator (line 427). So `b + m_0` and `b * m_0` raise ValueError, because there is no `"+_rev"`. The other swap branches keep `+` and `*` instead. The model follows the code (`Encoder.IncrementalCommutativeScenario`).

The answer check compares the signed answer with 1000000 (line 253), so a large negative answer gets the tight tolerance. An `m_` index that `int()` cannot read raises ValueError (lines 393 and 407); the encoder does not return an invalid result for it. In both cases the model follows the code.

## Model

| member | source | states |
|---|---|---|
| Operators.OpId | src/data/universal_dataset.py:19-21 | `uni_labels.index(op)` succeeds exactly for the six table operators and gives the operator's position in the table |
| Operators.ToggleTable | src/data/universal_dataset.py:369 | the `x` ↔ `x_rev` toggle is defined exactly on the four non-commutative operators; it gives the reversal partner and is an involution |
| Operators.StripRevInTable | src/data/universal_dataset.py:358-359 | removing `_rev` from a table operator gives the plain table operator, which is its partner |
| Operators.SwapPreservesValue | src/data/universal_dataset.py:364-370 | a swapped pair computes the same value with `+`/`*` kept and the other operators toggled |
| Operators.StripRevPreservesValue | src/data/universal_dataset.py:358-360 | with equal operands, stripping `_rev` keeps the value |
| Symbols.Ord | src/data/universal_dataset.py:304-305 | `ord` is defined exactly on one-character strings and gives that character's code |
| Symbols.LetterOffset | src/data/universal_dataset.py:344 | a letter's offset from `a` lies in 0..25 |
| Symbols.LetterOffsetInjective | src/data/universal_dataset.py:344 | distinct letters get distinct offsets |
| Symbols.Digits | src/data/universal_dataset.py:393 | the decimal rendering of an index is a non-empty digit string |
| Symbols.DigitsRoundTrip | src/data/universal_dataset.py:393 | reading back the digits of `n` gives `n` |
| Symbols.MemMarkerParses | src/data/universal_dataset.py:393-395 | every marker `m_<k>` is recognised as an intermediate, and `int` of its index gives `k` |
| Labels.Emit | src/data/universal_dataset.py:360-361 | a tuple is appended exactly when the operator is in the table, with the given addresses and stop flag and the operator's table id; otherwise the encoder raises |
| Addressing.BasicLeft | src/data/universal_dataset.py:304 | the basic left address exists exactly for `#` and one-character symbols |
| Addressing.BasicRight | src/data/universal_dataset.py:305 | the basic right address exists exactly for one-character symbols |
| Addressing.AbsoluteSlots | src/data/universal_dataset.py:336-347 | a quantity or constant resolves to the same slot on either side; constants take 0..n-1 and letters n..n+25; `#` and `m_` on the left are -1 |
| Addressing.AbsoluteSlotsInjective | src/data/universal_dataset.py:336-347 | distinct quantities and constants never share an absolute slot |
| Addressing.IncrementalIsRebasedAbsolute | src/data/universal_dataset.py:383-409 | the incremental address is the absolute address plus the step index, on both sides; `m_k` is `step - k` |
| Canonical.BasicOrder | src/data/universal_dataset.py:311-322 | an emitted basic tuple is ascending, has a table operator and the given stop flag, and is the pair or its swap |
| Canonical.AbsoluteOrder | src/data/universal_dataset.py:357-370 | an emitted absolute tuple is ascending with the given stop flag, and is the pair when `left <= right`, else its swap |
| Canonical.IncrementalOrder | src/data/universal_dataset.py:420-461 | an emitted incremental tuple is ascending with the given stop flag, and is the pair when `left <= right`, else its swap |
| Canonical.AbsoluteOrderRule | src/data/universal_dataset.py:357-370 | on a table operator: `left < right` keeps the operator, `left == right` strips `_rev`, and `left > right` swaps, keeping `+`/`*` and reversing the rest; it never fails |
| Canonical.BasicOrderRule | src/data/universal_dataset.py:311-322 | ascending pairs are kept; other pairs are swapped with `+`/`*` kept and `-`, `/` reversed; a `_rev` operator on a pair that is not ascending raises |
| Canonical.IncrementalOrderRule | src/data/universal_dataset.py:420-461 | the full incremental tie-break: only an `m_` on the left is kept or raises; only an `m_` on the right is swapped and toggled, or raises; two markers are swapped when descending, have `_rev` stripped when equal, and are kept when ascending; with no marker the absolute rule applies |
| Canonical.AbsoluteOrderPreservesValue | src/data/universal_dataset.py:357-370 | the emitted tuple computes `left op right` under every assignment of values to addresses |
| Canonical.BasicOrderPreservesValue | src/data/universal_dataset.py:311-322 | every basic tuple computes `left op right` |
| Canonical.IncrementalOrderPreservesValue | src/data/universal_dataset.py:420-461 | every incremental tuple that does not raise computes `left op right` |
| Canonical.AbsoluteOrderIdempotent | src/data/universal_dataset.py:357-370 | re-encoding an emitted tuple with its own operator gives it back |
| Canonical.AscendingPlainIsIdentity | src/data/universal_dataset.py:357-361 | an ascending pair with a plain table operator is emitted unchanged |
| Encoder.StopFlag | src/data/universal_dataset.py:302 | `is_stop` is 1 exactly at the last step and 0 elsewhere |
| Encoder.StepLabel | src/data/universal_dataset.py:304-461 | every tuple a variant emits for one step is ordered and carries that step's stop flag |
| Encoder.EncodeLayer | src/data/universal_dataset.py:374-462 | the encoder loop (duplicate check, stop flag, resolve, order, append, early return) computes `Encode` |
| Encoder.EncodeSucceeds | src/data/universal_dataset.py:330-371 | a layer encodes exactly when every step does; then it has one tuple per step, in step order |
| Encoder.EncodeFails | src/data/universal_dataset.py:298-323 | the encoder fails with a given failure exactly when the first failing step fails that way |
| Encoder.EncodedWellFormed | src/data/universal_dataset.py:357-370 | every successful encoding of any variant has one ascending table tuple per step, with `is_stop` set only on the last |
| Encoder.DuplicateReturnsNone | src/data/universal_dataset.py:380-381 | with duplicates disallowed, equal symbols at a step whose predecessors encode make the encoder return None |
| Encoder.EncodedHasNoDuplicates | src/data/universal_dataset.py:332-333 | with duplicates disallowed, no step of an encoded layer has equal symbols |
| Encoder.BasicIndexError | src/data/universal_dataset.py:304-310 | get_label_ids returns "index error" at a step exactly when its left letter lies more than one before `a` and its right operand is valid |
| Encoder.IncrementalReturnsNone | src/data/universal_dataset.py:396-404 | the incremental encoder returns None at a step exactly for a disallowed duplicate, or a resolved left symbol with a right symbol that is not `m_`, a constant or a letter |
| Encoder.OnlyBasicReturnsIndexError | src/data/universal_dataset.py:326-371 | the other two encoders never return "index error", and the absolute one returns None only for a disallowed duplicate |
| Encoder.StepPreservesValue | src/data/universal_dataset.py:311-461 | every emitted tuple computes the step's `left op right` at the resolved addresses |
| Encoder.AbsoluteOrderRebase | src/data/universal_dataset.py:447-461 | moving both addresses by `d` commutes with the absolute rule |
| Encoder.IncrementalStepIsRebasedAbsolute | src/data/universal_dataset.py:383-405 | over quantities and constants, the incremental tuple at step i is the absolute tuple moved up by i |
| Encoder.BasicAgreesWithAbsolute | src/data/universal_dataset.py:304-322 | with no constants, the basic and absolute encoders agree on distinct letters with a plain operator |
| Encoder.AbsoluteScenarios | src/data/universal_dataset.py:357-370 | `a + b` encodes to (0,1,+,1), and `b - a` to (0,1,-_rev,1) |
| Encoder.ConstantScenario | src/data/universal_dataset.py:336-370 | `a / PI` with constants {1, PI} encodes to (1,2,/_rev,1) |
| Encoder.IncrementalScenario | src/data/universal_dataset.py:383-424 | `a + b` then `m_0 * c` encodes to (0,1,+,0), (1,3,*,1) |
| Encoder.IncrementalSwapWithoutToggle | src/data/universal_dataset.py:425-427 | a plain left operand above an `m_` right operand with `+` or `*` always raises, because `op + "_rev"` is not in the table |
| Encoder.IncrementalCommutativeScenario | src/data/universal_dataset.py:425-428 | `b + m_0` raises in the incremental encoder |
| Normalise.NormaliseText | src/data/universal_dataset.py:152-163 | the two loops compute `Normalised(text)` |
| Normalise.PlaceholdersReplaced | src/data/universal_dataset.py:153-154 | after the replacement loop no `temp_a`..`temp_z` occurs in the text |
| Normalise.ReplaceLeavesNone | src/data/universal_dataset.py:154 | `replace` with ` <quant> ` removes every occurrence of the pattern and creates no occurrence of another space-free placeholder |
| Normalise.SplitWords | src/data/universal_dataset.py:155 | the words of `split()` are non-empty and contain no whitespace, and together they are the text's non-whitespace characters |
| Normalise.StripWord | src/data/universal_dataset.py:158 | `strip()` leaves a split word unchanged |
| Normalise.RebuildKeepsText | src/data/universal_dataset.py:156-163 | rebuilding adds nothing but whitespace to the glued words |
| Normalise.NormaliseKeepsText | src/data/universal_dataset.py:152-163 | normalisation keeps the non-whitespace text of the replaced text |
| Normalise.PieceRule | src/data/universal_dataset.py:157-163 | `<quant>` becomes ` <quant> `, `,` and `，` get one trailing space, and other words are copied |
| Spans.Pattern | src/data/universal_dataset.py:173-174 | `quants` has `quant_num` sub-tokens (5 for BERT, 3 for RoBERTa); only its first is an opening token (`<` or `Ġ<`), and none is `<NUM>` |
| Spans.MatchAtMeans | src/data/universal_dataset.py:192 | the truncated Python slice matches exactly when a complete pattern starts there |
| Spans.ScanSpans | src/data/universal_dataset.py:191-194 | the scan records the pattern starts, each with `end == start + quant_num - 1` |
| Spans.ScanMembers | src/data/universal_dataset.py:97-100 | a position is recorded exactly when a pattern run starts there |
| Spans.ScanIncreasing | src/data/universal_dataset.py:191-194 | recorded starts are strictly increasing |
| Spans.SkipInside | src/data/universal_dataset.py:180-183 | no other run starts inside a matched run, so jumping past it skips nothing |
| Spans.CollapseQuantTokens | src/data/universal_dataset.py:173-187 | for either tokenizer family, new-token mode yields the collapsed list and records each span one past its `<NUM>`, with equal starts and ends |
| Spans.CollapseLoop | src/data/universal_dataset.py:177-187 | the while loop (append `<NUM>` and jump past a run, else copy the token) computes the collapsed list and records each span one past its `<NUM>` |
| Spans.CollapseLeavesNoMatch | src/data/universal_dataset.py:177-187 | no pattern run remains in the collapsed list |
| Spans.NumPositionsPointAtNum | src/data/universal_dataset.py:180-183 | the intended positions hold `<NUM>` and are increasing |
| Spans.CollapseAgreesWithScan | src/data/universal_dataset.py:175-194 | both modes find the same number of runs, and the i-th `<NUM>` sits at the i-th plain span moved left by `Lost(i, quant_num)` positions |
| Spans.LostIsProduct | src/data/universal_dataset.py:180-183 | the positions lost before the i-th run are i·(quant_num−1), since each earlier run of `quant_num` tokens became one |
| Spans.RecordedSpanMissesNum | src/data/universal_dataset.py:181-182 | for `[CLS] < q ##uan ##t > [SEP]` the code records 2, where `[SEP]` sits, not `<NUM>` |
| Spans.RecordedSpanOutOfRange | src/data/universal_dataset.py:181-182 | a run at the end of the list makes the recorded span point past the end |
| Collate.Max | src/data/universal_dataset.py:467-469 | `max` is an element of the list and bounds every element |
| Collate.Repeat | src/data/universal_dataset.py:475 | `[x] * n` has `max(n, 0)` copies of x |
| Collate.CollateBatch | src/data/universal_dataset.py:465-488 | an empty batch raises; otherwise every `batch[i]` is overwritten with its padded copy at the batch sizes and the mode's sentinel label |
| Collate.PadInPlace | src/data/universal_dataset.py:473-488 | the loop replaces each `batch[i]` by the padding of its original value, whatever the other entries hold |
| Collate.BatchDimsFit | src/data/universal_dataset.py:467-469 | every feature fits the batch sizes, and some feature attains each size |
| Collate.PadShape | src/data/universal_dataset.py:474-484 | padded lists have the batch sizes, keep the originals as prefixes, and hold the pad id, 0 or the sentinel after them |
| Collate.HeightMaskShape | src/data/universal_dataset.py:484 | the padded height mask is 1 exactly over the real labels |
| Collate.CollatedUniform | src/data/universal_dataset.py:466-485 | after collation, all features of a well-formed batch have equal list sizes |
| Collate.PaddingLabelOrdered | src/data/universal_dataset.py:470-472 | the sentinel is ordered and not a stop tuple; its lo is -1 in absolute mode and 0 in incremental mode |
| Acceptance.HasSubstring | src/data/universal_dataset.py:224 | `t in s` holds exactly when `t` occurs at some position of `s` |
| Acceptance.AcceptedExactly | src/data/universal_dataset.py:146-261 | a record is accepted exactly when all of the following hold: it is legal, its span count equals its quantity count, its layer is non-empty and encodes, it fits the test height limit, the file is not parallel, and the evaluated answer is within tolerance; its labels are then the encoder's |
| Acceptance.OrderCheckHolds | src/data/universal_dataset.py:232-233 | the `left <= right` assertion never fires on an encoded layer |
| Acceptance.NoIndexError | src/data/universal_dataset.py:236-239 | the `isinstance(labels, str)` branch cannot be reached |
| Acceptance.CrashedExactly | src/data/universal_dataset.py:196-233 | a legal record crashes the scan exactly on a span count mismatch, an encoder exception, or an encodable layer within the height limit in a parallel file |
| Acceptance.SpanCountIndependentOfMode | src/data/universal_dataset.py:175-196 | both span modes count the same spans |
| Acceptance.ToleranceScenarios | src/data/universal_dataset.py:251-256 | above 1000000 the tolerance is 200, otherwise 0.0001, using the signed answer |

## Left out

- Tokenizer calls (`encode_plus`, `convert_ids_to_tokens`, `convert_tokens_to_ids`) and the tokenizer-family `isinstance` checks are external. The token list and the family are inputs.
- The evaluators `compute_value*` come from `src/eval/utils`, which is not part of this model, and their floating-point arithmetic is left out too. Evaluation is an oracle from labels to a value or an exception, and the reals are exact.
- Acceptance.WithinTolerance: compares exact reals instead of IEEE doubles, and takes the answer as a number; a `float(answer)` that raises is not modelled.
- `read_complex_file` duplicates the BERT span scan (modelled as `Spans.ScanSpans`) and calls `get_label_ids`. Its file reading is left out.
- The `"nodup"` duplicate check only prints a warning. Counters, statistics, `tqdm`, `print` diagnostics and record tagging (`obj['type_str'] = ...`) beyond the returned reason are also left out.
- Feature construction beyond the labels (`var_mask`, `token_type_ids`, `label_height_mask` of a new feature) is left out. The padding of such features is modelled.
- `np.asarray` and `default_collate` (lines 488-497) are tensor conversion.
- `main_*` functions, `src/config.py`, `__len__`/`__getitem__` and the `Dataset` class plumbing are left out.
- Encoder.EqStep: a layer entry is a fixed triple. Unpacking an entry of another arity, which raises ValueError in Python, is not modelled.
- Symbols.ParseInt: models `int()` as an optional sign followed by ASCII digits. Surrounding whitespace, underscores and non-ASCII digits, which Python also accepts, are not modelled.
- The loop over all records in `read_math23k_file` is left out. `Acceptance.Classify` decides one record; a crash ends the whole loop in Python.

## Findings

| source | as written | input that shows it | evidently intended | confidence | as-written member | corrected member |
|---|---|---|---|---|---|---|
| src/data/universal_dataset.py:181-182 | in new-token mode the span is `len(new_tokens)` after `<NUM>` is appended, one past the `<NUM>` token | tokens `[CLS] < q ##uan ##t > [SEP]` give new tokens `[CLS] <NUM> [SEP]` and span 2, which is `[SEP]`; a run at the end of the list points past the end | the span is the position of its `<NUM>` | medium, not executed | Spans.RecordedSpanMissesNum | Spans.NumPositionsPointAtNum |
