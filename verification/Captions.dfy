/**
 The caption splitter of video/make_captions.py: every way of cutting a narration line at
 word boundaries is scored, and a dynamic program picks the cheapest.
 */
module Captions {
  import opened Wrappers

  const MAX_LINE := 42

  // ----- words -----

  /** `text.split(" ")`. */
  function Words(t: string): (ws: seq<string>)
    ensures ws != []
  {
    if t == [] then [[]]
    else if t[0] == ' ' then [[]] + Words(t[1..])
    else
      var r := Words(t[1..]);
      [[t[0]] + r[0]] + r[1..]
  }

  /** `" ".join(ws)`. */
  function Join(ws: seq<string>): string {
    if ws == [] then [] else if |ws| == 1 then ws[0] else ws[0] + " " + Join(ws[1..])
  }

  lemma {:induction false} JoinWords(t: string)
    ensures Join(Words(t)) == t
  {
    if t != [] {
      var r := Words(t[1..]);
      JoinWords(t[1..]);
      if t[0] == ' ' {
        assert ([[]] + r)[1..] == r;
      } else {
        assert ([[t[0]] + r[0]] + r[1..])[1..] == r[1..];
      }
    }
  }

  /** No word has a space in it, so splitting has gone as far as it can. */
  lemma {:induction false} WordsHaveNoSpaces(t: string)
    ensures forall w :: w in Words(t) ==> ' ' !in w
  {
    if t != [] {
      var r := Words(t[1..]);
      WordsHaveNoSpaces(t[1..]);
      forall w | w in Words(t) ensures ' ' !in w {
        if w != Words(t)[0] { assert w in r; }
      }
      assert r[0] in r;
    }
  }

  lemma {:induction false} JoinConcat(a: seq<string>, b: seq<string>)
    requires a != [] && b != []
    ensures Join(a + b) == Join(a) + " " + Join(b)
  {
    assert (a + b)[0] == a[0];
    if |a| == 1 {
      assert (a + b)[1..] == b;
    } else {
      assert (a + b)[1..] == a[1..] + b;
      JoinConcat(a[1..], b);
      var u, v, w := a[0] + " ", Join(a[1..]), " " + Join(b);
      assert u + (v + w) == (u + v) + w;
    }
  }

  // ----- laying a cue out -----

  /** `str.replace`, every occurrence from the left. */
  function Replace(t: string, a: string, b: string): string
    requires a != []
  {
    if |t| < |a| then t
    else if t[..|a|] == a then b + Replace(t[|a|..], a, b)
    else [t[0]] + Replace(t[1..], a, b)
  }

  function Display(t: string): string {
    Replace(Replace(Replace(t, "D Twin", "DTwin"), "Lang Graph", "LangGraph"), "level three", "Level\U{a0}3")
  }

  /** A space at which both lines come out short enough. */
  predicate SplitsAt(t: string, i: int) {
    0 <= i < |t| && t[i] == ' ' && i <= MAX_LINE && |t| - i - 1 <= MAX_LINE
  }

  function SplitsFrom(t: string, i: nat): seq<nat>
    requires i <= |t|
    decreases |t| - i
  {
    if i == |t| then [] else (if SplitsAt(t, i) then [i] else []) + SplitsFrom(t, i + 1)
  }

  function Splits(t: string): seq<nat> { SplitsFrom(t, 0) }

  lemma {:induction false} SplitsFromAre(t: string, i: nat, k: int)
    requires i <= |t|
    ensures k in SplitsFrom(t, i) <==> i <= k && SplitsAt(t, k)
    decreases |t| - i
  {
    if i < |t| { SplitsFromAre(t, i + 1, k); }
  }

  predicate Fits(t: string) { |t| <= MAX_LINE || Splits(t) != [] }

  /** Broken at this space both lines are at most 42 characters long. */
  predicate BreaksAt(t: string, i: int) { 0 <= i < |t| && t[i] == ' ' && |t[..i]| <= 42 && |t[i + 1..]| <= 42 }

  lemma SplitsAreBreaks(t: string, i: int)
    ensures SplitsAt(t, i) <==> BreaksAt(t, i)
  {}

  /** A text fits exactly when it can be shown as at most two lines of 42 characters. */
  lemma FitsMeansTwoLines(t: string)
    ensures Fits(t) <==> |t| <= 42 || exists i :: BreaksAt(t, i)
  {
    forall i ensures SplitsAt(t, i) <==> BreaksAt(t, i) { SplitsAreBreaks(t, i); }
    FitsMeansSplits(t);
    if i :| BreaksAt(t, i) { assert SplitsAt(t, i); }
  }

  lemma FitsMeansSplits(t: string)
    ensures Fits(t) <==> |t| <= MAX_LINE || exists i :: SplitsAt(t, i)
  {
    var s := Splits(t);
    if s != [] { SplitsFromAre(t, 0, s[0]); assert s[0] in s; }
    forall i | SplitsAt(t, i) ensures s != [] { SplitsFromAre(t, 0, i); }
  }

  const DANGLING := {"a", "an", "the", "of", "to", "in", "on", "at", "and", "by", "for", "from"}

  /** `t.rsplit(" ", 1)[-1]`. */
  function LastWord(t: string): string {
    if t == [] || t[|t| - 1] == ' ' then [] else LastWord(t[..|t| - 1]) + [t[|t| - 1]]
  }

  function Lower(t: string): string {
    if t == [] then [] else [if 'A' <= t[0] <= 'Z' then t[0] - 'A' + 'a' else t[0]] + Lower(t[1..])
  }

  function Imbalance(t: string, i: int): int
    requires 0 <= i < |t|
  {
    var d := i - (|t| - i - 1);
    (if d < 0 then -d else d) + (if Lower(LastWord(t[..i])) in DANGLING then 40 else 0)
  }

  predicate Ascending(s: seq<nat>) { forall m, n :: 0 <= m < n < |s| ==> s[m] < s[n] }

  lemma {:induction false} SplitsAscend(t: string, i: nat)
    requires i <= |t|
    ensures Ascending(SplitsFrom(t, i))
    decreases |t| - i
  {
    if i < |t| {
      SplitsAscend(t, i + 1);
      var s := SplitsFrom(t, i + 1);
      forall m | 0 <= m < |s| ensures s[m] > i { assert s[m] in s; SplitsFromAre(t, i + 1, s[m]); }
      if SplitsAt(t, i) { assert SplitsFrom(t, i) == [i] + s; }
    }
  }

  /** `i` comes out before `k`: more balanced, or as balanced and earlier. */
  predicate Better(t: string, i: nat, k: nat)
    requires i < |t| && k < |t|
  {
    Imbalance(t, i) < Imbalance(t, k) || (Imbalance(t, i) == Imbalance(t, k) && i <= k)
  }

  /** `min(candidates, key=...)`. */
  method MostBalanced(t: string, candidates: seq<nat>) returns (best: nat)
    requires candidates != [] && Ascending(candidates)
    requires forall m :: 0 <= m < |candidates| ==> candidates[m] < |t|
    ensures best < |t| && forall k :: k in candidates ==> k < |t|
    ensures best in candidates && forall k :: k in candidates ==> Better(t, best, k)
  {
    best := candidates[0];
    for n := 1 to |candidates|
      invariant best < |t| && exists m :: 0 <= m < n && candidates[m] == best
      invariant forall m :: 0 <= m < n ==> Better(t, best, candidates[m])
    {
      hide Imbalance;
      assert candidates[n] in candidates;
      assert forall m :: 0 <= m < n ==> candidates[m] < candidates[n];
      if Imbalance(t, candidates[n]) < Imbalance(t, best) { best := candidates[n]; }
    }
  }

  /** `shown` is `t` on one line of at most 42 characters, or on two with a newline in place of one space. */
  ghost predicate LaidOut(t: string, shown: string) {
    (|t| <= 42 && shown == t) || exists i :: BreaksAt(t, i) && shown == t[..i] + "\n" + t[i + 1..]
  }

  /** At most two lines; None where Python's `min` would raise on an empty list. */
  method TwoLines(t: string) returns (shown: Option<string>)
    ensures shown.Some? <==> Fits(t)
    ensures shown.Some? ==> LaidOut(t, shown.value)
    ensures |t| <= 42 ==> shown == Some(t)
    ensures |t| > 42 && shown.Some? ==>
      exists i :: BreaksAt(t, i) && shown.value == t[..i] + "\n" + t[i + 1..]
        && forall k :: BreaksAt(t, k) ==> Better(t, i, k)
  {
    forall i ensures SplitsAt(t, i) <==> BreaksAt(t, i) { SplitsAreBreaks(t, i); }
    if |t| <= MAX_LINE { return Some(t); }
    var candidates := Splits(t);
    if candidates == [] { return None; }
    forall k ensures k in candidates <==> SplitsAt(t, k) { SplitsFromAre(t, 0, k); }
    forall m | 0 <= m < |candidates| ensures candidates[m] < |t| { assert candidates[m] in candidates; }
    SplitsAscend(t, 0);
    var best := MostBalanced(t, candidates);
    assert SplitsAt(t, best);
    shown := Some(t[..best] + "\n" + t[best + 1..]);
  }

  // ----- segmentations -----

  type Cost = (nat, nat) -> Option<real>

  /** Cut positions from 0 to `n`. */
  predicate Cuts(p: seq<nat>, n: nat) {
    p != [] && p[0] == 0 && p[|p| - 1] == n && forall k :: 0 <= k < |p| - 1 ==> p[k] < p[k + 1]
  }

  predicate Allowed(cost: Cost, p: seq<nat>) {
    forall k :: 0 <= k < |p| - 1 ==> cost(p[k], p[k + 1]).Some?
  }

  function Total(cost: Cost, p: seq<nat>): real
    requires Allowed(cost, p)
  {
    if |p| <= 1 then 0.0 else Total(cost, p[..|p| - 1]) + cost(p[|p| - 2], p[|p| - 1]).value
  }

  lemma CutsPrefix(cost: Cost, p: seq<nat>, n: nat)
    requires Cuts(p, n) && Allowed(cost, p) && n > 0
    ensures var i := p[|p| - 2];
            |p| >= 2 && i < n && Cuts(p[..|p| - 1], i) && Allowed(cost, p[..|p| - 1])
            && cost(i, n).Some? && Total(cost, p) == Total(cost, p[..|p| - 1]) + cost(i, n).value
  {
    var q := p[..|p| - 1];
    forall k | 0 <= k < |q| - 1 ensures q[k] < q[k + 1] && cost(q[k], q[k + 1]).Some? {
      assert q[k] == p[k] && q[k + 1] == p[k + 1];
    }
  }

  lemma CutsExtend(cost: Cost, p: seq<nat>, i: nat, n: nat)
    requires Cuts(p, i) && i < n
    ensures Cuts(p + [n], n)
    ensures Allowed(cost, p) && cost(i, n).Some? ==>
      Allowed(cost, p + [n]) && Total(cost, p + [n]) == Total(cost, p) + cost(i, n).value
  {
    assert (p + [n])[..|p|] == p;
  }

  /** `b` is what the cheapest allowed segmentation up to `n` costs, and `p` is one; None when nothing is allowed. */
  ghost predicate Optimal(cost: Cost, n: nat, b: Option<real>, p: seq<nat>) {
    Cuts(p, n)
    && (b.Some? ==> Allowed(cost, p) && Total(cost, p) == b.value)
    && forall q :: Cuts(q, n) && Allowed(cost, q) ==> b.Some? && b.value <= Total(cost, q)
  }

  /** The same for segmentations whose last piece starts in front of `i`. */
  ghost predicate OptimalBelow(cost: Cost, n: nat, i: nat, b: Option<real>, p: seq<nat>)
    requires n > 0
  {
    Cuts(p, n)
    && (b.Some? ==> Allowed(cost, p) && Total(cost, p) == b.value)
    && forall q :: Cuts(q, n) && Allowed(cost, q) && q[|q| - 2] < i ==> b.Some? && b.value <= Total(cost, q)
  }

  /** The sum tried for a last piece from `i`; None where Python adds to infinity or skips. */
  function Candidate(cost: Cost, i: nat, n: nat, b: Option<real>): Option<real> {
    if b.Some? && cost(i, n).Some? then Some(b.value + cost(i, n).value) else None
  }

  predicate Improves(c: Option<real>, b: Option<real>) {
    c.Some? && (b.None? || c.value < b.value)
  }

  lemma TryLastPiece(cost: Cost, n: nat, i: nat, bi: Option<real>, pi: seq<nat>, b: Option<real>, p: seq<nat>)
    requires i < n && Optimal(cost, i, bi, pi) && OptimalBelow(cost, n, i, b, p)
    ensures var c := Candidate(cost, i, n, bi);
            if Improves(c, b) then OptimalBelow(cost, n, i + 1, c, pi + [n]) else OptimalBelow(cost, n, i + 1, b, p)
  {
    CutsExtend(cost, pi, i, n);
    var c := Candidate(cost, i, n, bi);
    var r := if Improves(c, b) then c else b;
    forall q | Cuts(q, n) && Allowed(cost, q) && q[|q| - 2] < i + 1 ensures r.Some? && r.value <= Total(cost, q) {
      CutsPrefix(cost, q, n);
      if q[|q| - 2] == i {
        assert bi.Some? && bi.value <= Total(cost, q[..|q| - 1]);
      }
    }
  }

  lemma AllLastPiecesTried(cost: Cost, n: nat, b: Option<real>, p: seq<nat>)
    requires n > 0 && OptimalBelow(cost, n, n, b, p)
    ensures Optimal(cost, n, b, p)
  {
    forall q | Cuts(q, n) && Allowed(cost, q) ensures b.Some? && b.value <= Total(cost, q) { CutsPrefix(cost, q, n); }
  }

  lemma NothingBelowZero(cost: Cost, n: nat)
    requires n > 0
    ensures OptimalBelow(cost, n, 0, None, [0, n])
  {}

  lemma EmptyIsOptimal(cost: Cost)
    ensures Optimal(cost, 0, Some(0.0), [0])
  {
    forall q | Cuts(q, 0) && Allowed(cost, q) ensures 0.0 <= Total(cost, q) {
      if |q| > 1 { LongCutsAscend(q, 0); }
    }
  }

  lemma {:induction false} LongCutsAscend(p: seq<nat>, n: nat)
    requires Cuts(p, n)
    ensures n >= |p| - 1
  {
    if |p| > 1 {
      var q := p[..|p| - 1];
      assert Cuts(q, p[|p| - 2]);
      LongCutsAscend(q, p[|p| - 2]);
      assert p[|p| - 2] < p[|p| - 2 + 1];
    }
  }

  /** What the two tables say of the positions up to `n`, with the segmentation each entry stands for. */
  ghost predicate Table(cost: Cost, best: seq<Option<real>>, back: seq<nat>, paths: seq<seq<nat>>, n: nat) {
    |best| == |back| && n < |paths| <= |best| && paths[0] == [0]
    && (forall j :: 0 <= j <= n ==> Optimal(cost, j, best[j], paths[j]))
    && (forall j :: 0 < j <= n ==> back[j] < j && paths[j] == paths[back[j]] + [j])
  }

  /** The inner loop of `chunks`: the cheapest way to end at `j`. */
  method BestEnd(cost: Cost, j: nat, best: seq<Option<real>>, back: seq<nat>, ghost paths: seq<seq<nat>>)
    returns (b: Option<real>, from: nat, ghost path: seq<nat>)
    requires 0 < j < |best| && |paths| == j && Table(cost, best, back, paths, j - 1)
    ensures Optimal(cost, j, b, path) && from < j && path == paths[from] + [j]
    ensures b.None? ==> path == [0, j]
  {
    b, from, path := None, 0, [0, j];
    NothingBelowZero(cost, j);
    for i := 0 to j
      invariant from < j && path == paths[from] + [j]
      invariant b.None? ==> path == [0, j]
      invariant OptimalBelow(cost, j, i, b, path)
    {
      TryLastPiece(cost, j, i, best[i], paths[i], b, path);
      var c := Candidate(cost, i, j, best[i]);
      if Improves(c, b) { b, from, path := c, i, paths[i] + [j]; }
    }
    AllLastPiecesTried(cost, j, b, path);
  }

  /** The loop that follows the back pointers. */
  method WalkBack(n: nat, back: seq<nat>, ghost paths: seq<seq<nat>>) returns (cuts: seq<nat>)
    requires n < |back| && n < |paths| && paths[0] == [0]
    requires forall j :: 0 < j <= n ==> back[j] < j && paths[j] == paths[back[j]] + [j]
    ensures cuts == paths[n]
  {
    var j: nat := n;
    var tail: seq<nat> := [];
    while j > 0
      invariant j <= n
      invariant paths[n] == paths[j] + tail
    {
      assert paths[back[j]] + [j] + tail == paths[back[j]] + ([j] + tail);
      tail := [j] + tail;
      j := back[j];
    }
    cuts := [0] + tail;
  }

  /**
   The dynamic program. When some segmentation is allowed the result is one, and none is
   cheaper, whatever the signs of the costs; otherwise the result is a single piece.
   */
  method CheapestCuts(n: nat, cost: Cost) returns (cuts: seq<nat>)
    ensures Cuts(cuts, n)
    ensures forall q :: Cuts(q, n) && Allowed(cost, q) ==> Allowed(cost, cuts) && Total(cost, cuts) <= Total(cost, q)
    ensures !Allowed(cost, cuts) ==> cuts == [0, n]
  {
    var best: seq<Option<real>> := [Some(0.0)] + seq(n, _ => None);
    var back: seq<nat> := seq(n + 1, _ => 0);
    ghost var paths: seq<seq<nat>> := [[0]];
    EmptyIsOptimal(cost);
    for j := 1 to n + 1
      invariant |best| == |back| == n + 1 && |paths| == j
      invariant Table(cost, best, back, paths, j - 1)
      invariant forall k :: 0 < k < j && best[k].None? ==> paths[k] == [0, k]
    {
      var b, from;
      ghost var path;
      b, from, path := BestEnd(cost, j, best, back, paths);
      TableGrows(cost, best, back, paths, j, b, from, path);
      best, back := best[j := b], back[j := from];
      paths := paths + [path];
    }
    cuts := WalkBack(n, back, paths);
    assert Optimal(cost, n, best[n], paths[n]);
  }

  lemma TableGrows(cost: Cost, best: seq<Option<real>>, back: seq<nat>, paths: seq<seq<nat>>, j: nat,
                   b: Option<real>, from: nat, path: seq<nat>)
    requires 0 < j < |best| && |paths| == j && Table(cost, best, back, paths, j - 1)
    requires Optimal(cost, j, b, path) && from < j && path == paths[from] + [j]
    ensures Table(cost, best[j := b], back[j := from], paths + [path], j)
  {}

  // ----- cues -----

  /** The pieces that the cut positions stand for. */
  function Pieces(ws: seq<string>, p: seq<nat>): seq<string>
    requires p != [] && forall k :: 0 <= k < |p| - 1 ==> p[k] < p[k + 1]
    requires p[|p| - 1] <= |ws|
  {
    if |p| == 1 then []
    else
      assert p[..|p| - 1][|p| - 2] == p[|p| - 2] < p[|p| - 2 + 1];
      Pieces(ws, p[..|p| - 1]) + [Join(ws[p[|p| - 2]..p[|p| - 1]])]
  }

  /** Joining the pieces with spaces joins the words. */
  lemma {:induction false} PiecesRejoin(ws: seq<string>, p: seq<nat>, n: nat)
    requires Cuts(p, n) && 0 < n <= |ws|
    ensures Pieces(ws, p) != [] && Join(Pieces(ws, p)) == Join(ws[..n])
  {
    var q, i := p[..|p| - 1], p[|p| - 2];
    assert p[|p| - 2] < p[|p| - 2 + 1];
    assert Cuts(q, i);
    var piece := Join(ws[i..n]);
    if i == 0 {
      LongCutsAscend(q, 0);
      assert Pieces(ws, q) == [] && ws[0..n] == ws[..n];
    } else {
      PiecesRejoin(ws, q, i);
      JoinConcat(Pieces(ws, q), [piece]);
      JoinConcat(ws[..i], ws[i..n]);
      assert ws[..i] + ws[i..n] == ws[..n];
    }
  }

  predicate EndsWith(t: string, cs: set<char>) { t != [] && t[|t| - 1] in cs }

  /** What a piece that fits costs: near 62 characters, ending at a stop, not a fragment. */
  function Score(piece: string): real {
    var size := |piece| as real;
    var off := (size - 62.0) / 10.0;
    off * off
    + (if EndsWith(piece, {'.', '!', '?'}) then -40.0 else if EndsWith(piece, {',', ':', ';'}) then -15.0 else 30.0)
    + (if size < 25.0 then (25.0 - size) * 6.0 else 0.0)
  }

  /** `cost(i, j)`; total, for the sake of its type, on positions the program never asks about. */
  function PieceCost(ws: seq<string>, i: nat, j: nat): Option<real> {
    if i < j <= |ws| then
      var piece := Display(Join(ws[i..j]));
      if Fits(piece) then Some(Score(piece)) else None
    else None
  }

  function CostOf(ws: seq<string>): Cost { (i: nat, j: nat) => PieceCost(ws, i, j) }

  /** All cues that the cuts make can be shown. */
  predicate AllFit(pieces: seq<string>) { forall c :: c in pieces ==> Fits(Display(c)) }

  lemma AllowedLast(cost: Cost, p: seq<nat>, n: nat)
    requires Cuts(p, n) && |p| > 1
    ensures p[|p| - 2] < n && Cuts(p[..|p| - 1], p[|p| - 2])
    ensures Allowed(cost, p) <==> Allowed(cost, p[..|p| - 1]) && cost(p[|p| - 2], n).Some?
  {
    var q := p[..|p| - 1];
    assert p[|p| - 2] < p[|p| - 2 + 1];
    if Allowed(cost, q) && cost(p[|p| - 2], n).Some? {
      forall k | 0 <= k < |p| - 1 ensures cost(p[k], p[k + 1]).Some? {
        if k < |q| - 1 { assert cost(q[k], q[k + 1]).Some?; }
      }
    }
  }

  /** The dynamic program's costs are defined for a segmentation exactly when each of its cues fits. */
  lemma {:induction false} AllowedPiecesFit(ws: seq<string>, p: seq<nat>, n: nat)
    requires Cuts(p, n) && n <= |ws|
    ensures Allowed(CostOf(ws), p) <==> AllFit(Pieces(ws, p))
  {
    hide Display, Fits, Score, Join;
    if |p| > 1 {
      var q, i := p[..|p| - 1], p[|p| - 2];
      AllowedLast(CostOf(ws), p, n);
      AllowedPiecesFit(ws, q, i);
      assert Pieces(ws, p) == Pieces(ws, q) + [Join(ws[i..n])];
    }
  }

  /** Some way of cutting the line makes every cue fit. */
  ghost predicate Cuttable(text: string) { exists q :: Cuts(q, |Words(text)|) && AllFit(Pieces(Words(text), q)) }

  /**
   One narration line as cues. Joined by spaces they always give the line back; if any way of
   cutting the line makes every cue fit then every cue fits, and no such way scores lower.
   */
  method Chunks(text: string) returns (cues: seq<string>, cuts: seq<nat>)
    ensures Join(cues) == text
    ensures Cuts(cuts, |Words(text)|) && cues == Pieces(Words(text), cuts)
    ensures forall q :: Cuts(q, |Words(text)|) && AllFit(Pieces(Words(text), q)) ==>
      AllFit(cues) && Allowed(CostOf(Words(text)), q) && Allowed(CostOf(Words(text)), cuts)
      && Total(CostOf(Words(text)), cuts) <= Total(CostOf(Words(text)), q)
    ensures (Cuttable(text) ==> AllFit(cues)) && (!AllFit(cues) ==> cues == [text])
  {
    hide Words;
    hide Join;
    hide Total;
    hide Allowed;
    hide CostOf;
    hide Display;
    hide Fits;
    var words := Words(text);
    var n := |words|;
    cuts := CheapestCuts(n, CostOf(words));
    cues := Pieces(words, cuts);
    PiecesRejoin(words, cuts, n);
    JoinWords(text);
    assert words[..n] == words;
    AllowedPiecesFit(words, cuts, n);
    forall q | Cuts(q, n) && AllFit(Pieces(words, q)) ensures Allowed(CostOf(words), q) { AllowedPiecesFit(words, q, n); }
    if !AllFit(cues) {
      assert cuts == [0, n] && cuts[..1] == [0] && words[0..n] == words;
      assert Pieces(words, [0]) == [];
    }
  }

  /** Every cue of a line that can be cut into fitting pieces is shown, as at most two lines of 42 characters. */
  method ShowLine(text: string) returns (cues: seq<string>, shown: seq<Option<string>>)
    ensures Join(cues) == text && |shown| == |cues|
    ensures forall k :: 0 <= k < |cues| && shown[k].Some? ==> LaidOut(Display(cues[k]), shown[k].value)
    ensures Cuttable(text) ==> forall k :: 0 <= k < |shown| ==> shown[k].Some?
  {
    hide Cuttable;
    hide Cuts;
    hide Words;
    hide Pieces;
    hide Join;
    hide Total;
    hide Allowed;
    hide CostOf;
    hide Display;
    hide Fits;
    hide LaidOut;
    var cuts;
    cues, cuts := Chunks(text);
    shown := [];
    for k := 0 to |cues|
      invariant |shown| == k
      invariant forall m :: 0 <= m < k && shown[m].Some? ==> LaidOut(Display(cues[m]), shown[m].value)
      invariant AllFit(cues) ==> forall m :: 0 <= m < k ==> shown[m].Some?
    {
      var s := TwoLines(Display(cues[k]));
      assert cues[k] in cues;
      shown := shown + [s];
    }
  }
}
