/**
 * Quantity-span scanning over the tokenizer's output (src/data/universal_dataset.py:97-100,
 * 168-194). The tokenizer splits each " <quant> " into a fixed run of sub-tokens; the scan
 * finds those runs, and in new-token mode replaces each run by a single `<NUM>` token.
 * The token list and the tokenizer family are inputs here.
 */
module Spans {

  datatype Family = Bert | Roberta

  /** The sub-tokens " <quant> " becomes (`quants`, line 174). */
  function Pattern(f: Family): (p: seq<string>)
    ensures |p| == QuantNum(f) && ValidPattern(p)
  {
    match f
    case Bert => ["<", "q", "##uan", "##t", ">"]
    case Roberta => ["\U{120}<", "quant", ">"]
  }

  /** `quant_num`, line 173. */
  function QuantNum(f: Family): nat {
    match f
    case Bert => 5
    case Roberta => 3
  }

  /** The first-token test of lines 180 and 192: `<` or `Ġ<`. */
  predicate IsOpen(tok: string) {
    tok == "<" || tok == "\U{120}<"
  }

  const NumToken: string := "<NUM>"

  /**
   * What the scans rely on in a pattern: it is not empty, only its first sub-token can open
   * a run, and none of its sub-tokens is `<NUM>`. Both patterns of `Pattern` are valid.
   */
  predicate ValidPattern(p: seq<string>) {
    |p| > 0 && IsOpen(p[0]) &&
    (forall j :: 1 <= j < |p| ==> !IsOpen(p[j])) &&
    (forall j :: 0 <= j < |p| ==> p[j] != NumToken)
  }

  function Min(a: int, b: int): int {
    if a < b then a else b
  }

  /** `(tok == "<" or tok == "Ġ<") and tokens[k:k+quant_num] == quants`, with Python's slice cut off at the end of the list. */
  predicate MatchAt(t: seq<string>, k: nat, p: seq<string>)
    requires k < |t|
  {
    IsOpen(t[k]) && t[k..Min(k + |p|, |t|)] == p
  }

  lemma MatchAtMeans(t: seq<string>, k: nat, p: seq<string>)
    requires k < |t|
    ensures MatchAt(t, k, p) <==> IsOpen(t[k]) && k + |p| <= |t| && t[k..k + |p|] == p
  {
  }

  // ----- Plain scan (lines 97-100, 191-194) -----

  /** The positions at or after `k` where a run of pattern `p` starts. */
  function ScanFrom(t: seq<string>, p: seq<string>, k: nat): seq<nat>
    decreases |t| - k
  {
    if k >= |t| then []
    else (if MatchAt(t, k, p) then [k] else []) + ScanFrom(t, p, k + 1)
  }

  /** The `for k, token in enumerate(tokens)` loop: one span per pattern run. */
  method ScanSpans(tokens: seq<string>, f: Family) returns (starts: seq<int>, ends: seq<int>)
    ensures starts == ScanFrom(tokens, Pattern(f), 0)
    ensures |ends| == |starts| && forall i :: 0 <= i < |starts| ==> ends[i] == starts[i] + QuantNum(f) - 1
  {
    var quantNum := QuantNum(f);
    var quants := Pattern(f);
    starts, ends := [], [];
    for k := 0 to |tokens|
      invariant starts + ScanFrom(tokens, quants, k) == ScanFrom(tokens, quants, 0)
      invariant |ends| == |starts| && forall i :: 0 <= i < |starts| ==> ends[i] == starts[i] + quantNum - 1
    {
      ghost var later := ScanFrom(tokens, quants, k + 1);
      if IsOpen(tokens[k]) && tokens[k..Min(k + quantNum, |tokens|)] == quants {
        assert ScanFrom(tokens, quants, k) == [k] + later;
        assert (starts + [k]) + later == starts + ([k] + later);
        starts := starts + [k];
        ends := ends + [k + quantNum - 1];
      } else {
        assert ScanFrom(tokens, quants, k) == later;
      }
    }
  }

  /** A position is recorded exactly when a pattern run starts there. */
  lemma {:induction false} ScanMembers(t: seq<string>, p: seq<string>, k: nat, x: nat)
    ensures x in ScanFrom(t, p, k) <==> k <= x < |t| && MatchAt(t, x, p)
    decreases |t| - k
  {
    if k < |t| {
      ScanMembers(t, p, k + 1, x);
    }
  }

  /** Spans come out left to right: the starts are strictly increasing and at least `k`. */
  lemma {:induction false} ScanIncreasing(t: seq<string>, p: seq<string>, k: nat)
    ensures forall i :: 0 <= i < |ScanFrom(t, p, k)| ==> k <= ScanFrom(t, p, k)[i]
    ensures forall i, j :: 0 <= i < j < |ScanFrom(t, p, k)| ==> ScanFrom(t, p, k)[i] < ScanFrom(t, p, k)[j]
    decreases |t| - k
  {
    if k < |t| {
      ScanIncreasing(t, p, k + 1);
    }
  }

  /** Inside a run of a valid pattern no other run starts: the pattern does not overlap itself. */
  lemma {:induction false} SkipInside(t: seq<string>, p: seq<string>, k: nat, j: nat)
    requires ValidPattern(p) && k < |t| && MatchAt(t, k, p) && k < j <= k + |p|
    ensures ScanFrom(t, p, j) == ScanFrom(t, p, k + |p|)
    decreases k + |p| - j
  {
    if j < k + |p| {
      assert t[j] == t[k..k + |p|][j - k] == p[j - k];
      assert !IsOpen(t[j]);
      SkipInside(t, p, k, j + 1);
    }
  }

  // ----- New-token collapse (lines 175-189) -----

  /** The tokens from position `k` on, each pattern run replaced by one `<NUM>`. */
  function CollapseFrom(t: seq<string>, p: seq<string>, k: nat): seq<string>
    requires |p| > 0
    decreases |t| - k
  {
    if k >= |t| then []
    else if MatchAt(t, k, p) then [NumToken] + CollapseFrom(t, p, k + |p|)
    else [t[k]] + CollapseFrom(t, p, k + 1)
  }

  function Shift(s: seq<int>, d: int): (r: seq<int>)
    ensures |r| == |s| && forall i :: 0 <= i < |s| ==> r[i] == s[i] + d
  {
    seq(|s|, i requires 0 <= i < |s| => s[i] + d)
  }

  /**
   * The positions, within CollapseFrom(t, p, k), of the `<NUM>` tokens that replaced a
   * pattern run: the span a quantity evidently should point at.
   */
  function NumPositions(t: seq<string>, p: seq<string>, k: nat): seq<int>
    requires |p| > 0
    decreases |t| - k
  {
    if k >= |t| then []
    else if MatchAt(t, k, p) then [0] + Shift(NumPositions(t, p, k + |p|), 1)
    else Shift(NumPositions(t, p, k + 1), 1)
  }

  /** Lines 173-187 for the tokenizer family `f`: its `quant_num` and `quants`, then the loop. */
  method CollapseQuantTokens(tokens: seq<string>, f: Family)
    returns (newTokens: seq<string>, starts: seq<int>, ends: seq<int>)
    ensures newTokens == CollapseFrom(tokens, Pattern(f), 0)
    ensures starts == Shift(NumPositions(tokens, Pattern(f), 0), 1) && ends == starts
  {
    var quantNum := QuantNum(f);
    var quants := Pattern(f);
    newTokens, starts, ends := CollapseLoop(tokens, quants, quantNum);
  }

  /**
   * The `while k < len(tokens)` loop of lines 177-187, as written: it records
   * `len(new_tokens)` after appending `<NUM>`, so each span is one past its `<NUM>`.
   */
  method CollapseLoop(tokens: seq<string>, quants: seq<string>, quantNum: nat)
    returns (newTokens: seq<string>, starts: seq<int>, ends: seq<int>)
    requires quantNum == |quants| > 0
    ensures newTokens == CollapseFrom(tokens, quants, 0)
    ensures starts == Shift(NumPositions(tokens, quants, 0), 1) && ends == starts
  {
    newTokens, starts, ends := [], [], [];
    var k := 0;
    while k < |tokens|
      invariant k <= |tokens|
      invariant CollapseInvariant(tokens, quants, k, newTokens, starts)
      invariant ends == starts
      decreases |tokens| - k
    {
      var currTok := tokens[k];
      if IsOpen(currTok) && tokens[k..Min(k + quantNum, |tokens|)] == quants {
        ghost var k0, done0, starts0 := k, newTokens, starts;
        newTokens := newTokens + [NumToken];
        starts := starts + [|newTokens|];
        ends := ends + [|newTokens|];
        k := k + quantNum - 1;
        CollapseMatchStep(tokens, quants, k0, done0, starts0, k + 1, newTokens, starts);
      } else {
        ghost var done0 := newTokens;
        newTokens := newTokens + [currTok];
        CollapseKeepStep(tokens, quants, k, done0, starts, k + 1, newTokens);
      }
      k := k + 1;
    }
  }

  /** What CollapseLoop has produced once it stands at position `k`. */
  predicate CollapseInvariant(t: seq<string>, p: seq<string>, k: nat, done: seq<string>, starts: seq<int>)
    requires |p| > 0
  {
    done + CollapseFrom(t, p, k) == CollapseFrom(t, p, 0) &&
    starts + Shift(NumPositions(t, p, k), |done| + 1) == Shift(NumPositions(t, p, 0), 1)
  }

  /** The loop invariant of CollapseLoop survives a pattern run, which leaves `<NUM>` and moves to `k'`. */
  lemma CollapseMatchStep(t: seq<string>, p: seq<string>, k: nat, done: seq<string>, starts: seq<int>,
                          k': nat, done': seq<string>, starts': seq<int>)
    requires |p| > 0 && k < |t| && MatchAt(t, k, p)
    requires CollapseInvariant(t, p, k, done, starts)
    requires k' == k + |p| && done' == done + [NumToken] && starts' == starts + [|done'|]
    ensures k' <= |t| && CollapseInvariant(t, p, k', done', starts')
  {
    MatchAtMeans(t, k, p);
    CollapseStep(t, p, k, |done| + 1);
    AppendMoves(done, NumToken, CollapseFrom(t, p, k), CollapseFrom(t, p, k'), CollapseFrom(t, p, 0));
    AppendMoves(starts, |done'|, Shift(NumPositions(t, p, k), |done| + 1), Shift(NumPositions(t, p, k'), |done'| + 1),
      Shift(NumPositions(t, p, 0), 1));
  }

  /** The loop invariant of CollapseLoop survives a kept token, which moves to `k'`. */
  lemma CollapseKeepStep(t: seq<string>, p: seq<string>, k: nat, done: seq<string>, starts: seq<int>,
                         k': nat, done': seq<string>)
    requires |p| > 0 && k < |t| && !MatchAt(t, k, p)
    requires CollapseInvariant(t, p, k, done, starts)
    requires k' == k + 1 && done' == done + [t[k]]
    ensures CollapseInvariant(t, p, k', done', starts)
  {
    CollapseStep(t, p, k, |done| + 1);
    AppendMoves(done, t[k], CollapseFrom(t, p, k), CollapseFrom(t, p, k'), CollapseFrom(t, p, 0));
  }

  /** Moving the head of `c` to the end of `a` keeps their concatenation. */
  lemma AppendMoves<T>(a: seq<T>, x: T, c: seq<T>, c': seq<T>, w: seq<T>)
    requires c == [x] + c' && a + c == w
    ensures (a + [x]) + c' == w
  {
    assert (a + [x]) + c' == a + ([x] + c');
  }

  /** One step of the collapse, with the `<NUM>` positions counted from `d`. */
  lemma CollapseStep(t: seq<string>, p: seq<string>, k: nat, d: int)
    requires |p| > 0 && k < |t|
    ensures MatchAt(t, k, p) ==>
      CollapseFrom(t, p, k) == [NumToken] + CollapseFrom(t, p, k + |p|) &&
      Shift(NumPositions(t, p, k), d) == [d] + Shift(NumPositions(t, p, k + |p|), d + 1)
    ensures !MatchAt(t, k, p) ==>
      CollapseFrom(t, p, k) == [t[k]] + CollapseFrom(t, p, k + 1) &&
      Shift(NumPositions(t, p, k), d) == Shift(NumPositions(t, p, k + 1), d + 1)
  {
    if MatchAt(t, k, p) {
      var rest := NumPositions(t, p, k + |p|);
      assert NumPositions(t, p, k) == [0] + Shift(rest, 1);
      ShiftCons(0, Shift(rest, 1), d);
      ShiftShift(rest, 1, d);
    } else {
      var rest := NumPositions(t, p, k + 1);
      assert NumPositions(t, p, k) == Shift(rest, 1);
      ShiftShift(rest, 1, d);
    }
  }

  lemma ShiftCons(x: int, s: seq<int>, d: int)
    ensures Shift([x] + s, d) == [x + d] + Shift(s, d)
  {
  }

  lemma ShiftShift(s: seq<int>, a: int, b: int)
    ensures Shift(Shift(s, a), b) == Shift(s, a + b)
  {
  }

  /** Up to its first `<NUM>`, the collapsed list is the input list. */
  lemma {:induction false} CollapsePrefix(t: seq<string>, p: seq<string>, k: nat, m: nat) returns (j: nat)
    requires |p| > 0 && k <= |t| && m <= |CollapseFrom(t, p, k)|
    ensures j <= m && k + j <= |t| && CollapseFrom(t, p, k)[..j] == t[k..k + j]
    ensures j == m || CollapseFrom(t, p, k)[j] == NumToken
    decreases |t| - k
  {
    if k >= |t| || m == 0 || MatchAt(t, k, p) {
      j := 0;
    } else {
      var j' := CollapsePrefix(t, p, k + 1, m - 1);
      j := j' + 1;
      assert CollapseFrom(t, p, k) == [t[k]] + CollapseFrom(t, p, k + 1);
      PrefixCons(t[k], CollapseFrom(t, p, k + 1), j');
      SliceCons(t, k, k + j);
    }
  }

  lemma SliceCons<T>(s: seq<T>, a: nat, b: nat)
    requires a < b <= |s|
    ensures s[a..b] == [s[a]] + s[a + 1..b]
  {
  }

  lemma PrefixCons<T>(x: T, r: seq<T>, n: nat)
    requires n <= |r|
    ensures ([x] + r)[..n + 1] == [x] + r[..n]
  {
  }

  /** The collapsed list has no run of a valid pattern left. */
  lemma {:induction false} CollapseLeavesNoMatch(t: seq<string>, p: seq<string>, k: nat)
    requires ValidPattern(p)
    ensures forall i :: 0 <= i < |CollapseFrom(t, p, k)| ==> !MatchAt(CollapseFrom(t, p, k), i, p)
    decreases |t| - k
  {
    if k < |t| {
      var q := |p|;
      if MatchAt(t, k, p) {
        CollapseLeavesNoMatch(t, p, k + q);
        ShiftedNoMatch(NumToken, CollapseFrom(t, p, k + q), p);
      } else {
        CollapseLeavesNoMatch(t, p, k + 1);
        var rest := CollapseFrom(t, p, k + 1);
        ShiftedNoMatch(t[k], rest, p);
        NoRunAfterKeep(t, p, k, rest);
        assert CollapseFrom(t, p, k) == [t[k]] + rest;
      }
    }
  }

  /**
   * A kept token does not start a run in the collapsed list either: the list after it agrees
   * with the input up to the next `<NUM>`, which no sub-token of the pattern is.
   */
  lemma NoRunAfterKeep(t: seq<string>, p: seq<string>, k: nat, rest: seq<string>)
    requires ValidPattern(p) && k < |t| && !MatchAt(t, k, p) && rest == CollapseFrom(t, p, k + 1)
    ensures !MatchAt([t[k]] + rest, 0, p)
  {
    var q := |p|;
    if IsOpen(t[k]) && q <= 1 + |rest| {
      var j := CollapsePrefix(t, p, k + 1, q - 1);
      if j == q - 1 {
        MatchAtMeans(t, k, p);
        SameStartBlocks(t, k, rest, p);
      } else {
        NumInsideBlocks(t[k], rest, p, j);
      }
    } else {
      MatchAtMeans([t[k]] + rest, 0, p);
    }
  }

  /** A `<NUM>` inside the first `|p|` tokens rules out a run of `p` there. */
  lemma NumInsideBlocks(x: string, rest: seq<string>, p: seq<string>, j: nat)
    requires j + 1 < |p| && j < |rest| && rest[j] == NumToken && p[j + 1] != NumToken
    ensures !MatchAt([x] + rest, 0, p)
  {
    MatchAtMeans([x] + rest, 0, p);
    if |p| <= 1 + |rest| {
      assert ([x] + rest)[..|p|][j + 1] == NumToken;
    }
  }

  /** Followed by `rest` that agrees with `t` after `k`, `t[k]` starts a run only where `t` has one. */
  lemma SameStartBlocks(t: seq<string>, k: nat, rest: seq<string>, p: seq<string>)
    requires |p| > 0 && k + |p| <= |t| && |p| - 1 <= |rest| && rest[..|p| - 1] == t[k + 1..k + |p|]
    requires t[k..k + |p|] != p
    ensures !MatchAt([t[k]] + rest, 0, p)
  {
    MatchAtMeans([t[k]] + rest, 0, p);
    PrefixCons(t[k], rest, |p| - 1);
    SliceCons(t, k, k + |p|);
  }

  /** A token put in front of a list without pattern runs leaves none after position 0. */
  lemma ShiftedNoMatch(x: string, rest: seq<string>, p: seq<string>)
    requires ValidPattern(p)
    requires forall i :: 0 <= i < |rest| ==> !MatchAt(rest, i, p)
    ensures forall i :: 1 <= i < |[x] + rest| ==> !MatchAt([x] + rest, i, p)
    ensures x == NumToken ==> !MatchAt([x] + rest, 0, p)
  {
    var out := [x] + rest;
    forall i | 1 <= i < |out| ensures !MatchAt(out, i, p) {
      assert out[i..Min(i + |p|, |out|)] == rest[i - 1..Min(i - 1 + |p|, |rest|)];
      assert !MatchAt(rest, i - 1, p);
    }
    assert !IsOpen(NumToken);
  }

  /**
   * Every recorded `<NUM>` position holds `<NUM>`, and the spans are in increasing order.
   */
  lemma {:induction false} NumPositionsPointAtNum(t: seq<string>, p: seq<string>, k: nat)
    requires |p| > 0
    ensures forall i :: 0 <= i < |NumPositions(t, p, k)| ==>
      0 <= NumPositions(t, p, k)[i] < |CollapseFrom(t, p, k)| &&
      CollapseFrom(t, p, k)[NumPositions(t, p, k)[i]] == NumToken
    ensures forall i, j :: 0 <= i < j < |NumPositions(t, p, k)| ==> NumPositions(t, p, k)[i] < NumPositions(t, p, k)[j]
    decreases |t| - k
  {
    if k < |t| {
      if MatchAt(t, k, p) {
        NumPositionsPointAtNum(t, p, k + |p|);
      } else {
        NumPositionsPointAtNum(t, p, k + 1);
      }
    }
  }

  /** How far left the `i`-th `<NUM>` moves: `i * (q - 1)`, one run of `q` tokens to one token each. */
  function Lost(i: nat, q: int): int {
    if i == 0 then 0 else Lost(i - 1, q) + q - 1
  }

  lemma {:induction false} LostIsProduct(i: nat, q: int)
    ensures Lost(i, q) == i * (q - 1)
  {
    if i > 0 {
      LostIsProduct(i - 1, q);
    }
  }

  /**
   * Both modes find the same quantities: the i-th `<NUM>` of the collapsed list stands for
   * the i-th span of the plain scan, moved left by the `quant_num - 1` tokens each earlier
   * run lost (`Lost(i, |p|)`, which is `i * (|p| - 1)` by LostIsProduct).
   */
  lemma {:induction false} CollapseAgreesWithScan(t: seq<string>, p: seq<string>, k: nat)
    requires ValidPattern(p)
    ensures |NumPositions(t, p, k)| == |ScanFrom(t, p, k)|
    ensures forall i {:trigger NumPositions(t, p, k)[i]} :: 0 <= i < |ScanFrom(t, p, k)| ==>
      NumPositions(t, p, k)[i] == ScanFrom(t, p, k)[i] - k - Lost(i, |p|)
    decreases |t| - k
  {
    if k < |t| {
      if MatchAt(t, k, p) {
        RunStep(t, p, k);
        CollapseAgreesWithScan(t, p, k + |p|);
        AgreeAcrossRun(ScanFrom(t, p, k), ScanFrom(t, p, k + |p|),
          NumPositions(t, p, k), NumPositions(t, p, k + |p|), k, |p|);
      } else {
        assert ScanFrom(t, p, k) == ScanFrom(t, p, k + 1);
        assert NumPositions(t, p, k) == Shift(NumPositions(t, p, k + 1), 1);
        CollapseAgreesWithScan(t, p, k + 1);
        AgreeAcrossKeep(ScanFrom(t, p, k), NumPositions(t, p, k), NumPositions(t, p, k + 1), k, |p|);
      }
    }
  }

  /** At a run, the plain scan records `k` and jumps the run; the collapse records one `<NUM>`. */
  lemma RunStep(t: seq<string>, p: seq<string>, k: nat)
    requires ValidPattern(p) && k < |t| && MatchAt(t, k, p)
    ensures ScanFrom(t, p, k) == [k] + ScanFrom(t, p, k + |p|)
    ensures NumPositions(t, p, k) == [0] + Shift(NumPositions(t, p, k + |p|), 1)
  {
    SkipInside(t, p, k, k + 1);
  }

  /** The step of CollapseAgreesWithScan at a run: starts `s = [k] + s'`, positions `n = [0] + (n' + 1)`. */
  lemma AgreeAcrossRun(s: seq<nat>, s': seq<nat>, n: seq<int>, n': seq<int>, k: nat, q: int)
    requires s == [k] + s' && n == [0] + Shift(n', 1) && |n'| == |s'|
    requires forall i {:trigger n'[i]} :: 0 <= i < |s'| ==> n'[i] == s'[i] - (k + q) - Lost(i, q)
    ensures |n| == |s| && forall i {:trigger n[i]} :: 0 <= i < |s| ==> n[i] == s[i] - k - Lost(i, q)
  {
    forall i | 1 <= i < |s|
      ensures n[i] == s[i] - k - Lost(i, q)
    {
      assert n[i] == n'[i - 1] + 1 && s[i] == s'[i - 1];
    }
  }

  /** The step of CollapseAgreesWithScan at a kept token: the same starts, positions one further right. */
  lemma AgreeAcrossKeep(s: seq<nat>, n: seq<int>, n': seq<int>, k: nat, q: int)
    requires n == Shift(n', 1) && |n'| == |s|
    requires forall i {:trigger n'[i]} :: 0 <= i < |s| ==> n'[i] == s[i] - (k + 1) - Lost(i, q)
    ensures |n| == |s| && forall i {:trigger n[i]} :: 0 <= i < |s| ==> n[i] == s[i] - k - Lost(i, q)
  {
  }

  /** The as-written span misses its `<NUM>`: ["[CLS]", " <quant> " pieces, "[SEP]"] records 2, where `<NUM>` sits at 1. */
  lemma RecordedSpanMissesNum()
    ensures var t := ["[CLS]", "<", "q", "##uan", "##t", ">", "[SEP]"];
      CollapseFrom(t, Pattern(Bert), 0) == ["[CLS]", NumToken, "[SEP]"] &&
      Shift(NumPositions(t, Pattern(Bert), 0), 1) == [2] &&
      CollapseFrom(t, Pattern(Bert), 0)[2] != NumToken
  {
    var t := ["[CLS]", "<", "q", "##uan", "##t", ">", "[SEP]"];
    var p := Pattern(Bert);
    assert !MatchAt(t, 6, p);
    assert CollapseFrom(t, p, 6) == ["[SEP]"] && NumPositions(t, p, 6) == [];
    assert MatchAt(t, 1, p) by { assert t[1..6] == p; }
    assert !MatchAt(t, 0, p);
  }

  /** A pattern run at the end of the list makes the as-written span point past the end. */
  lemma RecordedSpanOutOfRange()
    ensures var t := ["\U{120}<", "quant", ">"];
      CollapseFrom(t, Pattern(Roberta), 0) == [NumToken] &&
      Shift(NumPositions(t, Pattern(Roberta), 0), 1) == [1]
  {
    var t := ["\U{120}<", "quant", ">"];
    assert MatchAt(t, 0, Pattern(Roberta)) by { assert t[0..3] == Pattern(Roberta); }
  }
}
