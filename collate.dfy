/**
 * Batch padding of `collate_function` (src/data/universal_dataset.py:465-485): every feature
 * of a batch is right-padded to the batch's longest token list, variable count and label
 * height. The conversion to arrays and tensors is not part of this model.
 */
module Collate {
  import opened Labels

  /** `UniFeature` (line 23), with each label list entry a Label record. */
  datatype Feature = Feature(
    inputIds: seq<int>,
    attentionMask: seq<int>,
    tokenTypeIds: seq<int>,
    varStarts: seq<int>,
    varEnds: seq<int>,
    numVariables: int,
    varMask: seq<int>,
    labels: seq<Label>,
    heightMask: seq<int>)

  /** The shape of a feature as read_math23k_file builds it. */
  predicate WellFormed(x: Feature) {
    |x.attentionMask| == |x.inputIds| && |x.tokenTypeIds| == |x.inputIds| &&
    |x.varStarts| == x.numVariables && |x.varEnds| == x.numVariables && |x.varMask| == x.numVariables &&
    |x.heightMask| == |x.labels|
  }

  /** The batch-wide sizes padded to. */
  datatype Dims = Dims(wordpieces: int, variables: int, height: int)

  /** Python's `max` of a non-empty list. */
  function Max(s: seq<int>): (m: int)
    requires |s| > 0
    ensures m in s && forall i :: 0 <= i < |s| ==> s[i] <= m
  {
    if |s| == 1 then s[0]
    else
      var m' := Max(s[..|s| - 1]);
      assert forall i :: 0 <= i < |s| - 1 ==> s[..|s| - 1][i] == s[i];
      if s[|s| - 1] > m' then s[|s| - 1] else m'
  }

  /** `[x] * n`: empty when `n` is not positive. */
  function Repeat<T>(x: T, n: int): (r: seq<T>)
    ensures |r| == if n > 0 then n else 0
    ensures forall i :: 0 <= i < |r| ==> r[i] == x
  {
    seq(if n > 0 then n else 0, _ => x)
  }

  /** Lines 467-469. */
  function BatchDims(fs: seq<Feature>): (d: Dims)
    requires |fs| > 0
  {
    Dims(Max(seq(|fs|, i requires 0 <= i < |fs| => |fs[i].inputIds|)),
         Max(seq(|fs|, i requires 0 <= i < |fs| => fs[i].numVariables)),
         Max(seq(|fs|, i requires 0 <= i < |fs| => |fs[i].labels|)))
  }

  /** The label sentinel of lines 470-472. */
  function PaddingLabel(incremental: bool, addReplacement: bool): Label {
    if !incremental then Label(-1, 0, 0, 0)
    else if !addReplacement then Label(0, 1, 0, 0)
    else Label(0, 0, 0, 0)
  }

  /** The padded copy of one feature (lines 474-485). */
  function Pad(x: Feature, d: Dims, sentinel: Label, padId: int): Feature {
    var tokens := d.wordpieces - |x.inputIds|;
    var vars := d.variables - x.numVariables;
    var height := d.height - |x.labels|;
    Feature(
      x.inputIds + Repeat(padId, tokens),
      x.attentionMask + Repeat(0, tokens),
      x.tokenTypeIds + Repeat(0, tokens),
      x.varStarts + Repeat(0, vars),
      x.varEnds + Repeat(0, vars),
      x.numVariables,
      x.varMask + Repeat(0, vars),
      x.labels + Repeat(sentinel, height),
      x.heightMask + Repeat(0, height))
  }

  /**
   * `collate_function` (lines 465-485): the batch sizes and the label sentinel, then every
   * feature padded in place. An empty batch makes `max` raise ValueError before anything
   * changes.
   */
  method CollateBatch(batch: array<Feature>, incremental: bool, addReplacement: bool, padId: int)
    returns (raised: bool)
    modifies batch
    ensures raised <==> batch.Length == 0
    ensures !raised ==> forall i :: 0 <= i < batch.Length ==>
      batch[i] == Pad(old(batch[i]), BatchDims(old(batch[..])), PaddingLabel(incremental, addReplacement), padId)
  {
    if batch.Length == 0 {
      return true;
    }
    raised := false;
    var d := BatchDims(batch[..]);
    var sentinel := if !incremental then Label(-1, 0, 0, 0) else Label(0, 0, 0, 0);
    if incremental && !addReplacement {
      sentinel := Label(0, 1, 0, 0);
    }
    assert sentinel == PaddingLabel(incremental, addReplacement);
    PadInPlace(batch, d, sentinel, padId);
  }

  /** The loop of lines 474-485, overwriting `batch[i]` with its padded copy. */
  method PadInPlace(batch: array<Feature>, d: Dims, sentinel: Label, padId: int)
    modifies batch
    ensures forall i :: 0 <= i < batch.Length ==> batch[i] == Pad(old(batch[i]), d, sentinel, padId)
  {
    for i := 0 to batch.Length
      invariant forall j :: 0 <= j < i ==> batch[j] == Pad(old(batch[j]), d, sentinel, padId)
      invariant forall j :: i <= j < batch.Length ==> batch[j] == old(batch[j])
    {
      batch[i] := Pad(batch[i], d, sentinel, padId);
    }
  }

  /** Every feature of a batch fits the batch's sizes, and each size is some feature's. */
  lemma BatchDimsFit(fs: seq<Feature>)
    requires |fs| > 0
    ensures forall i :: 0 <= i < |fs| ==>
      |fs[i].inputIds| <= BatchDims(fs).wordpieces && fs[i].numVariables <= BatchDims(fs).variables &&
      |fs[i].labels| <= BatchDims(fs).height
    ensures exists i :: 0 <= i < |fs| && |fs[i].inputIds| == BatchDims(fs).wordpieces
    ensures exists i :: 0 <= i < |fs| && fs[i].numVariables == BatchDims(fs).variables
    ensures exists i :: 0 <= i < |fs| && |fs[i].labels| == BatchDims(fs).height
  {
    var d := BatchDims(fs);
    var ls := seq(|fs|, i requires 0 <= i < |fs| => |fs[i].inputIds|);
    var vs := seq(|fs|, i requires 0 <= i < |fs| => fs[i].numVariables);
    var hs := seq(|fs|, i requires 0 <= i < |fs| => |fs[i].labels|);
    assert d.wordpieces in ls && d.variables in vs && d.height in hs;
    forall i | 0 <= i < |fs| ensures |fs[i].inputIds| <= d.wordpieces && fs[i].numVariables <= d.variables && |fs[i].labels| <= d.height {
      assert ls[i] == |fs[i].inputIds| && vs[i] == fs[i].numVariables && hs[i] == |fs[i].labels|;
    }
  }

  predicate Fits(x: Feature, d: Dims) {
    |x.inputIds| <= d.wordpieces && 0 <= x.numVariables <= d.variables && |x.labels| <= d.height
  }

  /**
   * A well-formed feature that fits comes out with every list at the batch's size, its
   * original lists as prefixes, and only padding after them.
   */
  lemma PadShape(x: Feature, d: Dims, sentinel: Label, padId: int)
    requires WellFormed(x) && Fits(x, d)
    ensures var y := Pad(x, d, sentinel, padId);
      y.numVariables == x.numVariables &&
      |y.inputIds| == d.wordpieces && |y.attentionMask| == d.wordpieces && |y.tokenTypeIds| == d.wordpieces &&
      |y.varStarts| == d.variables && |y.varEnds| == d.variables && |y.varMask| == d.variables &&
      |y.labels| == d.height && |y.heightMask| == d.height &&
      y.inputIds[..|x.inputIds|] == x.inputIds && y.attentionMask[..|x.inputIds|] == x.attentionMask &&
      y.tokenTypeIds[..|x.inputIds|] == x.tokenTypeIds &&
      y.varStarts[..x.numVariables] == x.varStarts && y.varEnds[..x.numVariables] == x.varEnds &&
      y.varMask[..x.numVariables] == x.varMask &&
      y.labels[..|x.labels|] == x.labels && y.heightMask[..|x.labels|] == x.heightMask &&
      (forall i :: |x.inputIds| <= i < d.wordpieces ==> y.inputIds[i] == padId && y.attentionMask[i] == 0 && y.tokenTypeIds[i] == 0) &&
      (forall i :: x.numVariables <= i < d.variables ==> y.varStarts[i] == 0 && y.varEnds[i] == 0 && y.varMask[i] == 0) &&
      (forall i :: |x.labels| <= i < d.height ==> y.labels[i] == sentinel && y.heightMask[i] == 0)
  {
  }

  /** An all-ones height mask comes out as ones over the real labels followed by zeros. */
  lemma HeightMaskShape(x: Feature, d: Dims, sentinel: Label, padId: int)
    requires |x.labels| <= d.height && x.heightMask == Repeat(1, |x.labels|)
    ensures var y := Pad(x, d, sentinel, padId);
      |y.heightMask| == d.height &&
      forall i :: 0 <= i < d.height ==> (y.heightMask[i] == 1 <==> i < |x.labels|)
  {
    var y := Pad(x, d, sentinel, padId);
    forall i | 0 <= i < d.height ensures y.heightMask[i] == 1 <==> i < |x.labels| {
      if i < |x.labels| {
        assert y.heightMask[i] == x.heightMask[i];
      } else {
        assert y.heightMask[i] == Repeat(0, d.height - |x.labels|)[i - |x.labels|];
      }
    }
  }

  /** After collation all features of a well-formed batch have the same sizes. */
  lemma CollatedUniform(fs: seq<Feature>, sentinel: Label, padId: int, i: int, j: int)
    requires |fs| > 0 && forall k :: 0 <= k < |fs| ==> WellFormed(fs[k]) && fs[k].numVariables >= 0
    requires 0 <= i < |fs| && 0 <= j < |fs|
    ensures var a := Pad(fs[i], BatchDims(fs), sentinel, padId);
      var b := Pad(fs[j], BatchDims(fs), sentinel, padId);
      |a.inputIds| == |b.inputIds| && |a.attentionMask| == |b.attentionMask| &&
      |a.varStarts| == |b.varStarts| && |a.varMask| == |b.varMask| &&
      |a.labels| == |b.labels| && |a.heightMask| == |b.heightMask|
  {
    BatchDimsFit(fs);
    PadShape(fs[i], BatchDims(fs), sentinel, padId);
    PadShape(fs[j], BatchDims(fs), sentinel, padId);
  }

  /** Incremental padding labels are ordered; the absolute one points at the `#` slot -1. */
  lemma PaddingLabelOrdered(incremental: bool, addReplacement: bool)
    ensures Ordered(PaddingLabel(incremental, addReplacement))
    ensures PaddingLabel(incremental, addReplacement).stop == 0
    ensures PaddingLabel(incremental, addReplacement).lo == (if incremental then 0 else -1)
  {
  }
}
