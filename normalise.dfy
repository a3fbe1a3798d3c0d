/**
 * Placeholder text normalisation of read_math23k_file (src/data/universal_dataset.py:152-163):
 * every `temp_a` .. `temp_z` becomes " <quant> ", the text is split on whitespace and
 * rebuilt with a space on both sides of each `<quant>`, a space after each comma
 * ("," or the full-width "，"), and every other word glued to its neighbours.
 */
module Normalise {

  /** The characters Python's `str.split()` and `str.strip()` treat as whitespace. */
  predicate IsSpace(c: char) {
    ('\t' <= c <= '\r') || ('\U{1C}' <= c <= ' ') || c == '\U{85}' || c == '\U{A0}' ||
    c == '\U{1680}' || ('\U{2000}' <= c <= '\U{200A}') || c == '\U{2028}' || c == '\U{2029}' ||
    c == '\U{202F}' || c == '\U{205F}' || c == '\U{3000}'
  }

  predicate NoSpace(s: string) {
    forall i :: 0 <= i < |s| ==> !IsSpace(s[i])
  }

  /** The text a placeholder is replaced by. */
  const Quant: string := " <quant> "

  /** `f"temp_{chr(ord('a') + k)}"`. */
  function Placeholder(k: nat): string
    requires k < 26
  {
    "temp_" + [('a' as int + k) as char]
  }

  /** `s.replace(pat, rep)`: every non-overlapping occurrence of `pat`, left to right. */
  function Replace(s: string, pat: string, rep: string): string
    requires |pat| > 0
    decreases |s|
  {
    if |s| < |pat| then s
    else if s[..|pat|] == pat then rep + Replace(s[|pat|..], pat, rep)
    else [s[0]] + Replace(s[1..], pat, rep)
  }

  /** The text after the first `k` rounds of the replacement loop (lines 153-154). */
  function ReplaceLetters(s: string, k: nat): string
    requires k <= 26
  {
    if k == 0 then s else Replace(ReplaceLetters(s, k - 1), Placeholder(k - 1), Quant)
  }

  /** The length of the run of non-whitespace characters that starts `s`. */
  function WordLength(s: string): (n: nat)
    ensures n <= |s| && NoSpace(s[..n]) && (n == |s| || IsSpace(s[n]))
    ensures |s| > 0 && !IsSpace(s[0]) ==> n > 0
  {
    if |s| == 0 || IsSpace(s[0]) then 0
    else
      var n := 1 + WordLength(s[1..]);
      assert s[..n] == [s[0]] + s[1..][..n - 1];
      n
  }

  /** `s.split()`: the maximal runs of non-whitespace characters, in order. */
  function Split(s: string): seq<string>
    decreases |s|
  {
    if |s| == 0 then []
    else if IsSpace(s[0]) then Split(s[1..])
    else
      var n := WordLength(s);
      [s[..n]] + Split(s[n..])
  }

  function TrimStart(s: string): string {
    if |s| > 0 && IsSpace(s[0]) then TrimStart(s[1..]) else s
  }

  function TrimEnd(s: string): string {
    if |s| > 0 && IsSpace(s[|s| - 1]) then TrimEnd(s[..|s| - 1]) else s
  }

  /** `s.strip()`. */
  function Strip(s: string): string {
    TrimEnd(TrimStart(s))
  }

  /** What one word adds to `input_text` (lines 158-163). */
  function Piece(w: string): string {
    if Strip(w) == "<quant>" then Quant
    else if w == "," || w == "\U{FF0C}" then w + " "
    else w
  }

  /** `input_text` after the words `ws`. */
  function Rebuild(ws: seq<string>): string {
    if |ws| == 0 then "" else Rebuild(ws[..|ws| - 1]) + Piece(ws[|ws| - 1])
  }

  /** The whole normalisation of a problem text. */
  function Normalised(text: string): string {
    Rebuild(Split(ReplaceLetters(text, 26)))
  }

  /** The two loops of lines 153-163. */
  method NormaliseText(text: string) returns (inputText: string)
    ensures inputText == Normalised(text)
  {
    var mapped := text;
    for k := 0 to 26
      invariant mapped == ReplaceLetters(text, k)
    {
      mapped := Replace(mapped, "temp_" + [('a' as int + k) as char], Quant);
    }
    var words := Split(mapped);
    inputText := "";
    for i := 0 to |words|
      invariant inputText == Rebuild(words[..i])
    {
      var word := words[i];
      if Strip(word) == "<quant>" {
        inputText := inputText + " <quant> ";
      } else if word == "," || word == "\U{FF0C}" {
        inputText := inputText + word + " ";
      } else {
        inputText := inputText + word;
      }
      assert words[..i + 1][..i] == words[..i];
    }
    assert words[..|words|] == words;
  }

  // ----- Every placeholder is replaced -----

  ghost predicate OccursAt(s: string, t: string, i: nat) {
    i + |t| <= |s| && s[i..i + |t|] == t
  }

  ghost predicate Occurs(s: string, t: string) {
    exists i: nat :: OccursAt(s, t, i)
  }

  /**
   * The output of a replacement agrees with its input up to the first place where a
   * replacement text starts.
   */
  lemma {:induction false} ReplacePrefix(u: string, pat: string, rep: string, m: nat) returns (j: nat)
    requires |pat| > 0 && |rep| > 0 && m <= |Replace(u, pat, rep)|
    ensures j <= m && j <= |u| && Replace(u, pat, rep)[..j] == u[..j]
    ensures j == m || Replace(u, pat, rep)[j] == rep[0]
    decreases |u|
  {
    var r := Replace(u, pat, rep);
    if |u| < |pat| {
      j := m;
    } else if u[..|pat|] == pat || m == 0 {
      j := 0;
    } else {
      var r' := Replace(u[1..], pat, rep);
      assert r == [u[0]] + r';
      var j' := ReplacePrefix(u[1..], pat, rep, m - 1);
      j := j' + 1;
      assert r[..j] == [u[0]] + r'[..j'];
      assert u[..j] == [u[0]] + u[1..][..j'];
    }
  }

  /** An occurrence in `rep + r` lies in `r` when `t` has no space and `rep` ends with one without containing `t`. */
  lemma AfterReplacement(rep: string, r: string, t: string)
    requires |t| > 0 && |rep| > 0 && rep[|rep| - 1] == ' ' && ' ' !in t
    requires !Occurs(rep, t) && !Occurs(r, t)
    ensures !Occurs(rep + r, t)
  {
    var x := rep + r;
    forall i: nat ensures !OccursAt(x, t, i) {
      if i + |t| > |x| {
      } else if i + |t| <= |rep| {
        assert x[i..i + |t|] == rep[i..i + |t|];
        assert !OccursAt(rep, t, i);
      } else if i >= |rep| {
        assert x[i..i + |t|] == r[i - |rep|..i - |rep| + |t|];
        assert !OccursAt(r, t, i - |rep|);
      } else {
        var k := |rep| - 1 - i;
        assert x[i..i + |t|][k] == ' ';
        assert t[k] != ' ';
      }
    }
  }

  /** An occurrence of `t` in a suffix of `s` is one in `s`. */
  lemma SuffixOccurs(s: string, n: nat, t: string)
    requires n <= |s| && !Occurs(s, t)
    ensures !Occurs(s[n..], t)
  {
    forall i: nat | OccursAt(s[n..], t, i) ensures OccursAt(s, t, i + n) {
      assert s[i + n..i + n + |t|] == s[n..][i..i + |t|];
    }
  }

  /**
   * Replacing `pat` by a text that starts and ends with a space leaves no occurrence of
   * a space-free target `t` that the replacement text does not contain itself: neither
   * of `pat` (when `t` is `pat`) nor of a `t` that did not occur before.
   */
  lemma {:induction false} ReplaceLeavesNone(s: string, pat: string, rep: string, t: string)
    requires |pat| > 0 && |t| > 0 && |rep| > 0 && rep[0] == ' ' && rep[|rep| - 1] == ' '
    requires ' ' !in t && !Occurs(rep, t)
    requires t == pat || !Occurs(s, t)
    ensures !Occurs(Replace(s, pat, rep), t)
    decreases |s|
  {
    if |s| < |pat| {
      if t == pat {
        forall i: nat ensures !OccursAt(s, t, i) {}
      }
    } else if s[..|pat|] == pat {
      if t != pat {
        SuffixOccurs(s, |pat|, t);
      }
      ReplaceLeavesNone(s[|pat|..], pat, rep, t);
      AfterReplacement(rep, Replace(s[|pat|..], pat, rep), t);
    } else {
      if t != pat {
        SuffixOccurs(s, 1, t);
      }
      ReplaceLeavesNone(s[1..], pat, rep, t);
      KeptFirst(s, pat, rep, t);
    }
  }

  /** The step of ReplaceLeavesNone where the first character of `s` is kept. */
  lemma KeptFirst(s: string, pat: string, rep: string, t: string)
    requires |pat| > 0 && |t| > 0 && |rep| > 0 && rep[0] == ' ' && ' ' !in t
    requires |s| >= |pat| && s[..|pat|] != pat
    requires t == pat || !Occurs(s, t)
    requires !Occurs(Replace(s[1..], pat, rep), t)
    ensures !Occurs(Replace(s, pat, rep), t)
  {
    FirstKept(s, pat, rep);
    AfterFirst(s[0], Replace(s[1..], pat, rep), t);
    NoMatchAtZero(s, pat, t);
    assert s == [s[0]] + s[1..];
    NotAtStart(s[0], s[1..], pat, rep, t);
  }

  /** An occurrence in `[x] + r` that does not start at `x` lies in `r`. */
  lemma AfterFirst(x: char, r: string, t: string)
    requires !Occurs(r, t)
    ensures forall i: nat :: 1 <= i ==> !OccursAt([x] + r, t, i)
  {
    forall i: nat | 1 <= i ensures !OccursAt([x] + r, t, i) {
      if i + |t| <= |[x] + r| {
        assert ([x] + r)[i..i + |t|] == r[i - 1..i - 1 + |t|];
        assert !OccursAt(r, t, i - 1);
      }
    }
  }

  /**
   * In the same step no occurrence starts at the kept character `x`: replacing inside
   * `u` keeps its first characters up to a space, which `t` does not contain.
   */
  lemma NotAtStart(x: char, u: string, pat: string, rep: string, t: string)
    requires |pat| > 0 && |t| > 0 && |rep| > 0 && rep[0] == ' ' && ' ' !in t
    requires !OccursAt([x] + u, t, 0)
    ensures !OccursAt([x] + Replace(u, pat, rep), t, 0)
  {
    var r := Replace(u, pat, rep);
    if |t| <= 1 + |r| {
      var j := ReplacePrefix(u, pat, rep, |t| - 1);
      if j < |t| - 1 {
        GapBlocks(x, r, t, j);
      } else {
        SamePrefixBlocks(x, r, u, t);
      }
    }
  }

  lemma FirstKept(s: string, pat: string, rep: string)
    requires |pat| > 0 && |s| >= |pat| && s[..|pat|] != pat
    ensures Replace(s, pat, rep) == [s[0]] + Replace(s[1..], pat, rep)
  {
  }

  lemma NoMatchAtZero(s: string, pat: string, t: string)
    requires |s| >= |pat| && s[..|pat|] != pat
    requires t == pat || !Occurs(s, t)
    ensures !OccursAt(s, t, 0)
  {
  }

  /** A space inside the first `|t|` characters rules out a space-free `t` there. */
  lemma GapBlocks(x: char, r: string, t: string, j: nat)
    requires j + 1 < |t| && j < |r| && r[j] == ' ' && ' ' !in t
    ensures !OccursAt([x] + r, t, 0)
  {
    if |t| <= 1 + |r| {
      assert ([x] + r)[..|t|][j + 1] == ' ';
    }
  }

  /** Agreeing on the first `|t| - 1` characters, `r` and `u` behind `x` match `t` alike. */
  lemma SamePrefixBlocks(x: char, r: string, u: string, t: string)
    requires 0 < |t| <= 1 + |r| && |t| - 1 <= |u| && r[..|t| - 1] == u[..|t| - 1]
    requires !OccursAt([x] + u, t, 0)
    ensures !OccursAt([x] + r, t, 0)
  {
    assert ([x] + r)[..|t|] == [x] + r[..|t| - 1];
    assert ([x] + u)[..|t|] == [x] + u[..|t| - 1];
  }

  lemma PlaceholderFacts(c: nat, d: nat)
    requires c < 26 && d < 26
    ensures |Placeholder(c)| == 6 && ' ' !in Placeholder(c) && !Occurs(Quant, Placeholder(c))
    ensures c != d ==> Placeholder(c) != Placeholder(d)
  {
    var p := Placeholder(c);
    assert p[0] == 't';
    forall i: nat ensures !OccursAt(Quant, p, i) {}
    if c != d {
      assert Placeholder(c)[5] != Placeholder(d)[5];
    }
  }

  /** After k rounds of the replacement loop none of `temp_a` .. the k-th placeholder occurs. */
  lemma {:induction false} ReplaceLettersRemoves(s: string, k: nat)
    requires k <= 26
    ensures forall c :: 0 <= c < k ==> !Occurs(ReplaceLetters(s, k), Placeholder(c))
  {
    if k > 0 {
      ReplaceLettersRemoves(s, k - 1);
      var prev := ReplaceLetters(s, k - 1);
      forall c | 0 <= c < k ensures !Occurs(ReplaceLetters(s, k), Placeholder(c)) {
        PlaceholderFacts(c, k - 1);
        ReplaceLeavesNone(prev, Placeholder(k - 1), Quant, Placeholder(c));
      }
    }
  }

  /** After the replacement loop no `temp_a` .. `temp_z` is left in the text. */
  lemma PlaceholdersReplaced(text: string)
    ensures forall c :: 0 <= c < 26 ==> !Occurs(ReplaceLetters(text, 26), Placeholder(c))
  {
    ReplaceLettersRemoves(text, 26);
  }

  // ----- Rebuilding only moves whitespace -----

  /** `s` without its whitespace characters. */
  function NonSpace(s: string): string {
    if |s| == 0 then "" else (if IsSpace(s[0]) then "" else [s[0]]) + NonSpace(s[1..])
  }

  /** The words glued together. */
  function Concat(ws: seq<string>): string {
    if |ws| == 0 then "" else Concat(ws[..|ws| - 1]) + ws[|ws| - 1]
  }

  lemma {:induction false} NonSpaceAppend(a: string, b: string)
    ensures NonSpace(a + b) == NonSpace(a) + NonSpace(b)
  {
    if |a| > 0 {
      assert (a + b)[1..] == a[1..] + b;
      NonSpaceAppend(a[1..], b);
    } else {
      assert a + b == b;
    }
  }

  lemma {:induction false} NonSpaceOfWord(w: string)
    requires NoSpace(w)
    ensures NonSpace(w) == w
  {
    if |w| > 0 {
      NonSpaceOfWord(w[1..]);
    }
  }

  lemma {:induction false} ConcatCons(w: string, ws: seq<string>)
    ensures Concat([w] + ws) == w + Concat(ws)
  {
    if |ws| > 0 {
      assert ([w] + ws)[..|ws|] == [w] + ws[..|ws| - 1];
      ConcatCons(w, ws[..|ws| - 1]);
    } else {
      assert ([w] + ws)[..0] == [];
    }
  }

  /** Every word of `s.split()` is non-empty and free of whitespace, and gluing them gives `s` without its whitespace. */
  lemma {:induction false} SplitWords(s: string)
    ensures forall i :: 0 <= i < |Split(s)| ==> |Split(s)[i]| > 0 && NoSpace(Split(s)[i])
    ensures Concat(Split(s)) == NonSpace(s)
    decreases |s|
  {
    if |s| > 0 {
      if IsSpace(s[0]) {
        SplitWords(s[1..]);
      } else {
        var n := WordLength(s);
        SplitWords(s[n..]);
        ConcatCons(s[..n], Split(s[n..]));
        assert s == s[..n] + s[n..];
        NonSpaceAppend(s[..n], s[n..]);
        NonSpaceOfWord(s[..n]);
      }
    }
  }

  /** A word without whitespace is its own `strip()`. */
  lemma StripWord(w: string)
    requires NoSpace(w)
    ensures Strip(w) == w
  {
    if |w| > 0 {
      assert !IsSpace(w[0]) && !IsSpace(w[|w| - 1]);
    }
  }

  /** The non-space text of a word's piece is the word itself. */
  lemma PieceKeepsText(w: string)
    requires NoSpace(w)
    ensures NonSpace(Piece(w)) == w
  {
    StripWord(w);
    if w == "<quant>" {
      QuantKeepsText();
    } else if w == "," || w == "\U{FF0C}" {
      SpaceAfterKeepsText(w);
    } else {
      NonSpaceOfWord(w);
    }
  }

  lemma QuantKeepsText()
    ensures NonSpace(Quant) == "<quant>"
  {
    var word := "<quant>";
    assert Quant == " " + (word + " ");
    assert NoSpace(word);
    NonSpaceAppend(" ", word + " ");
    SpaceAfterKeepsText(word);
    assert NonSpace(" ") == "";
  }

  /** A word followed by one space keeps the word as its non-space text. */
  lemma SpaceAfterKeepsText(w: string)
    requires NoSpace(w)
    ensures NonSpace(w + " ") == w
  {
    NonSpaceOfWord(w);
    NonSpaceAppend(w, " ");
    assert NonSpace(" ") == "";
  }

  /** For whitespace-free words, rebuilding only adds whitespace: its non-space text is the words glued. */
  lemma {:induction false} RebuildKeepsText(ws: seq<string>)
    requires forall i :: 0 <= i < |ws| ==> NoSpace(ws[i])
    ensures NonSpace(Rebuild(ws)) == Concat(ws)
  {
    if |ws| > 0 {
      var init := ws[..|ws| - 1];
      var w := ws[|ws| - 1];
      assert forall i :: 0 <= i < |init| ==> init[i] == ws[i];
      RebuildKeepsText(init);
      NonSpaceAppend(Rebuild(init), Piece(w));
      PieceKeepsText(w);
    }
  }

  /**
   * Normalisation changes nothing but whitespace once the placeholders are replaced:
   * the normalised text and the replaced text have the same non-whitespace characters.
   */
  lemma NormaliseKeepsText(text: string)
    ensures NonSpace(Normalised(text)) == NonSpace(ReplaceLetters(text, 26))
  {
    var s := ReplaceLetters(text, 26);
    SplitWords(s);
    RebuildKeepsText(Split(s));
  }

  /** Each placeholder word comes out as " <quant> ", and each comma word with one space after it. */
  lemma PieceRule(w: string)
    requires NoSpace(w)
    ensures w == "<quant>" ==> Piece(w) == " <quant> "
    ensures w == "," || w == "\U{FF0C}" ==> Piece(w) == w + " "
    ensures w != "<quant>" && w != "," && w != "\U{FF0C}" ==> Piece(w) == w
  {
    StripWord(w);
  }
}
