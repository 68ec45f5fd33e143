/**
 The SQL statement splitter of packages/db/src/sql-split.ts.

 The lexer is specified on the text that is left: `TokenLen` says how much of it the next
 token takes, `Raw` cuts the text at the semicolons that are tokens of their own.
 */
module SqlSplit {
  // ----- characters -----

  /** What String.prototype.trim removes. */
  predicate IsSpace(c: char) {
    var n := c as int;
    9 <= n <= 13 || n == 0x20 || n == 0xa0 || n == 0x1680 || 0x2000 <= n <= 0x200a
    || n == 0x2028 || n == 0x2029 || n == 0x202f || n == 0x205f || n == 0x3000 || n == 0xfeff
  }

  predicate AllSpace(s: string) { forall i :: 0 <= i < |s| ==> IsSpace(s[i]) }

  predicate TagStart(c: char) { 'A' <= c <= 'Z' || 'a' <= c <= 'z' || c == '_' }

  predicate TagPart(c: char) { TagStart(c) || '0' <= c <= '9' }

  function TrimLeft(s: string): string {
    if s != [] && IsSpace(s[0]) then TrimLeft(s[1..]) else s
  }

  function TrimRight(s: string): string {
    if s != [] && IsSpace(s[|s| - 1]) then TrimRight(s[..|s| - 1]) else s
  }

  function Trim(s: string): string { TrimRight(TrimLeft(s)) }

  // ----- tokens -----

  predicate Starts(t: string, p: string) { |p| <= |t| && t[..|p|] == p }

  /** How far it is through the first occurrence of `p`; all of `t` when there is none. */
  function Through(t: string, p: string): (n: nat)
    requires p != []
    ensures n <= |t|
  {
    if |t| < |p| then |t| else if t[..|p|] == p then |p| else 1 + Through(t[1..], p)
  }

  /** Block comments nest; `depth` of them are open in front of `t`. */
  function BlockLen(t: string, depth: nat): (n: nat)
    ensures n <= |t|
  {
    if t == [] || depth == 0 then 0
    else if Starts(t, "/*") then 2 + BlockLen(t[2..], depth + 1)
    else if Starts(t, "*/") then 2 + BlockLen(t[2..], depth - 1)
    else 1 + BlockLen(t[1..], depth)
  }

  /** The rest of a literal whose opening quote is in front of `t`; a doubled quote is an escaped one. */
  function QuoteLen(t: string): (n: nat)
    ensures n <= |t|
  {
    if t == [] then 0
    else if t[0] == '\'' then (if |t| > 1 && t[1] == '\'' then 2 + QuoteLen(t[2..]) else 1)
    else 1 + QuoteLen(t[1..])
  }

  function PartLen(t: string): (n: nat)
    ensures n <= |t|
  {
    if t == [] || !TagPart(t[0]) then 0 else 1 + PartLen(t[1..])
  }

  /** The length of the dollar tag in front of `t`, both dollars included; 0 when there is none. */
  function TagLen(t: string): (n: nat)
    ensures n == 0 || 2 <= n <= |t|
  {
    if |t| < 2 || t[0] != '$' then 0
    else if t[1] == '$' then 2
    else
      var k := PartLen(t[1..]);
      if TagStart(t[1]) && 1 + k < |t| && t[1 + k] == '$' then k + 2 else 0
  }

  function TokenLen(t: string): (n: nat)
    requires t != []
    ensures 0 < n <= |t|
  {
    if Starts(t, "--") then Through(t, "\n")
    else if Starts(t, "/*") then 2 + BlockLen(t[2..], 1)
    else if t[0] == '\'' then 1 + QuoteLen(t[1..])
    else if t[0] == '"' then 1 + Through(t[1..], "\"")
    else if TagLen(t) > 0 then TagLen(t) + Through(t[TagLen(t)..], t[..TagLen(t)])
    else 1
  }

  /** The raw slices between top-level semicolons. */
  function Raw(t: string): (r: seq<string>)
    ensures r != []
  {
    if t == [] then [[]]
    else if t[0] == ';' then [[]] + Raw(t[1..])
    else
      var n := TokenLen(t);
      var r := Raw(t[n..]);
      [t[..n] + r[0]] + r[1..]
  }

  /** Trimmed, and empty statements dropped. */
  function Keep(pieces: seq<string>): seq<string> {
    if pieces == [] then []
    else (if Trim(pieces[0]) == [] then [] else [Trim(pieces[0])]) + Keep(pieces[1..])
  }

  function Split(t: string): seq<string> { Keep(Raw(t)) }

  function JoinWith(pieces: seq<string>, sep: string): string {
    if pieces == [] then []
    else if |pieces| == 1 then pieces[0]
    else pieces[0] + sep + JoinWith(pieces[1..], sep)
  }

  // ----- the raw slices give the text back -----

  lemma JoinFirst(first: string, rest: seq<string>, sep: string)
    ensures JoinWith([first] + rest, sep) == if rest == [] then first else first + sep + JoinWith(rest, sep)
  {
    assert ([first] + rest)[1..] == rest;
  }

  /** Nothing is lost or moved: the raw slices joined by semicolons are the text. */
  lemma {:induction false} RawRejoins(t: string)
    ensures JoinWith(Raw(t), ";") == t
  {
    hide TokenLen;
    hide JoinWith;
    if t == [] {
      JoinFirst([], [], ";");
      assert [[]] + [] == Raw(t);
    } else if t[0] == ';' {
      RawRejoins(t[1..]);
      JoinFirst([], Raw(t[1..]), ";");
      assert [] + ";" + t[1..] == t;
    } else {
      var n := TokenLen(t);
      RawRejoins(t[n..]);
      var r := Raw(t[n..]);
      assert Raw(t) == [t[..n] + r[0]] + r[1..];
      hide Raw;
      JoinFirst(r[0], r[1..], ";");
      JoinFirst(t[..n] + r[0], r[1..], ";");
      assert [r[0]] + r[1..] == r;
      assert t == t[..n] + t[n..];
    }
  }

  /** `r` starts with the first slice of `t`, and goes on with those of what follows it. */
  predicate SlicesOff(t: string, r: seq<string>) {
    && r != [] && |r[0]| <= |t| && t[..|r[0]|] == r[0] && (|r| == 1 ==> r[0] == t)
    && (|r| > 1 ==> |r[0]| < |t| && t[|r[0]|] == ';' && r[1..] == Raw(t[|r[0]| + 1..]))
  }

  lemma SlicesOffAfter(t: string, n: nat, r: seq<string>)
    requires n <= |t| && SlicesOff(t[n..], r)
    ensures SlicesOff(t, [t[..n] + r[0]] + r[1..])
  {
    hide Raw;
    var h := r[0];
    assert t[..n] + h == t[..n + |h|];
    if |r| > 1 { assert t[n..][|h| + 1..] == t[n + |h| + 1..]; }
  }

  /**
   Where there is more than one slice, the first ends in front of a semicolon and the rest come from what follows
   it.
   */
  lemma {:induction false} FirstSlice(t: string)
    ensures SlicesOff(t, Raw(t))
  {
    hide TokenLen;
    if t != [] && t[0] != ';' {
      FirstSlice(t[TokenLen(t)..]);
      SlicesOffAfter(t, TokenLen(t), Raw(t[TokenLen(t)..]));
    }
  }

  // ----- tokens are local -----

  predicate Delim(c: char) { c == ';' || IsSpace(c) }

  /**
   The texts agree on their first `m` characters, and after those no token can run on: `u` goes on with a
   delimiter, `v` does or ends.
   */
  predicate Agree(u: string, v: string, m: nat) {
    m < |u| && m <= |v| && u[..m] == v[..m] && Delim(u[m]) && (m == |v| || Delim(v[m]))
  }

  lemma AgreeAt(u: string, v: string, m: nat, i: nat)
    requires Agree(u, v, m) && i < m
    ensures u[i] == v[i]
  {
    assert u[..m][i] == v[..m][i];
  }

  lemma AgreeAfter(u: string, v: string, m: nat, k: nat)
    requires Agree(u, v, m) && k <= m
    ensures Agree(u[k..], v[k..], m - k) && u[..k] == v[..k]
  {
    assert u[k..][..m - k] == u[..m][k..] && v[k..][..m - k] == v[..m][k..];
    assert u[..k] == u[..m][..k] && v[..k] == v[..m][..k];
  }

  lemma {:induction false} ThroughLocal(u: string, v: string, m: nat, p: string)
    requires p != [] && Agree(u, v, m) && Through(u, p) <= m
    ensures Through(v, p) == Through(u, p)
  {
    ThroughAtLeast(u, p);
    AgreeAfter(u, v, m, |p|);
    if u[..|p|] != p {
      ThroughAtLeast(u[1..], p);
      AgreeAfter(u, v, m, 1);
      ThroughLocal(u[1..], v[1..], m - 1, p);
    }
  }

  lemma ThroughAtLeast(t: string, p: string)
    requires p != []
    ensures |p| <= |t| ==> |p| <= Through(t, p)
  {}

  lemma {:induction false} BlockLocal(u: string, v: string, m: nat, depth: nat)
    requires Agree(u, v, m) && depth > 0 && BlockLen(u, depth) <= m
    ensures BlockLen(v, depth) == BlockLen(u, depth)
  {
    BlockAtLeast(u, depth);
    AgreeAfter(u, v, m, 2);
    BlockMarks(u, depth);
    BlockMarks(v, depth);
    BlockEnd(u[2..], 0);
    BlockEnd(v[2..], 0);
    hide BlockLen;
    assert u[..2] == v[..2];
    assert Starts(u, "/*") == Starts(v, "/*") && Starts(u, "*/") == Starts(v, "*/") && !(Starts(u, "/*") && Starts(u, "*/"));
    hide Starts;
    if Starts(u, "/*") {
      BlockLocal(u[2..], v[2..], m - 2, depth + 1);
    } else if Starts(u, "*/") {
      if depth > 1 { BlockLocal(u[2..], v[2..], m - 2, depth - 1); }
    } else {
      AgreeAfter(u, v, m, 1);
      BlockLocal(u[1..], v[1..], m - 1, depth);
    }
  }

  /** Closing a comment takes two characters. */
  lemma BlockAtLeast(t: string, depth: nat)
    requires depth > 0 && BlockLen(t, depth) < |t|
    ensures 2 <= BlockLen(t, depth)
  {}

  lemma {:induction false} QuoteLocal(u: string, v: string, m: nat)
    requires Agree(u, v, m) && QuoteLen(u) <= m
    ensures QuoteLen(v) == QuoteLen(u)
  {
    AgreeAt(u, v, m, 0);
    if u[0] == '\'' {
      if m > 1 { AgreeAt(u, v, m, 1); }
      if u[1] == '\'' {
        AgreeAfter(u, v, m, 2);
        QuoteLocal(u[2..], v[2..], m - 2);
      }
    } else {
      AgreeAfter(u, v, m, 1);
      QuoteLocal(u[1..], v[1..], m - 1);
    }
  }

  /** Two dollars around letters, digits and underscores that do not start with a digit, or around nothing. */
  predicate IsTag(t: string, k: nat) {
    2 <= k <= |t| && t[0] == '$' && t[k - 1] == '$'
    && forall i :: 1 <= i < k - 1 ==>
         t[i] == '_' || 'a' <= t[i] <= 'z' || 'A' <= t[i] <= 'Z' || ('0' <= t[i] <= '9' && i > 1)
  }

  lemma {:induction false} PartLenStops(t: string)
    ensures forall i :: 0 <= i < PartLen(t) ==> TagPart(t[i])
    ensures PartLen(t) < |t| ==> !TagPart(t[PartLen(t)])
  {
    if t != [] && TagPart(t[0]) {
      PartLenStops(t[1..]);
      forall i | 0 <= i < PartLen(t) ensures TagPart(t[i]) { if i > 0 { assert t[i] == t[1..][i - 1]; } }
    }
  }

  lemma {:induction false} PartLenIs(t: string, n: nat)
    requires n < |t| && !TagPart(t[n]) && forall i :: 0 <= i < n ==> TagPart(t[i])
    ensures PartLen(t) == n
  {
    if n > 0 {
      assert forall i :: 0 <= i < n - 1 ==> t[1..][i] == t[i + 1];
      PartLenIs(t[1..], n - 1);
    }
  }

  /** A text starts with at most one tag. */
  lemma TagLenIsTheTag(t: string, k: nat)
    ensures TagLen(t) == k && k > 0 <==> IsTag(t, k)
  {
    if |t| >= 2 {
      PartLenStops(t[1..]);
      if TagLen(t) == k && k > 2 {
        forall i | 1 <= i < k - 1 ensures TagPart(t[i]) { assert t[i] == t[1..][i - 1]; }
      }
      if IsTag(t, k) && t[1] != '$' {
        forall i | 0 <= i < k - 2 ensures TagPart(t[1..][i]) { assert t[1..][i] == t[i + 1]; }
        assert t[1..][k - 2] == t[k - 1] == '$';
        PartLenIs(t[1..], k - 2);
      }
    }
  }

  lemma TagLocal(u: string, v: string, m: nat)
    requires Agree(u, v, m) && 0 < m && TagLen(u) <= m
    ensures TagLen(v) == TagLen(u)
  {
    var k, l := TagLen(u), TagLen(v);
    forall i | 0 <= i < m ensures u[i] == v[i] { AgreeAt(u, v, m, i); }
    TagLenIsTheTag(u, k);
    TagLenIsTheTag(v, l);
    if k > 0 {
      TagLenIsTheTag(v, k);
    } else if l > 0 {
      if l <= m { TagLenIsTheTag(u, l); }
    }
  }

  lemma MarksLocal(u: string, v: string, m: nat)
    requires Agree(u, v, m) && 0 < m
    ensures |u| > 0 && |v| > 0 && u[0] == v[0]
    ensures Starts(v, "--") == Starts(u, "--") && Starts(v, "/*") == Starts(u, "/*")
  {
    AgreeAt(u, v, m, 0);
    if m > 1 { AgreeAt(u, v, m, 1); }
    assert Starts(u, "--") <==> |u| >= 2 && u[0] == '-' && u[1] == '-';
    assert Starts(v, "--") <==> |v| >= 2 && v[0] == '-' && v[1] == '-';
    assert Starts(u, "/*") <==> |u| >= 2 && u[0] == '/' && u[1] == '*';
    assert Starts(v, "/*") <==> |v| >= 2 && v[0] == '/' && v[1] == '*';
  }

  /** A token that ends within the common part is a token of both texts. */
  lemma TokenLocal(u: string, v: string, m: nat)
    requires Agree(u, v, m) && 0 < m && TokenLen(u) <= m
    ensures TokenLen(v) == TokenLen(u)
  {
    hide Through;
    hide BlockLen;
    hide QuoteLen;
    hide TagLen;
    hide Starts;
    MarksLocal(u, v, m);
    StartsFits(u);
    if Starts(u, "--") {
      ThroughLocal(u, v, m, "\n");
    } else if Starts(u, "/*") {
      AgreeAfter(u, v, m, 2);
      BlockLocal(u[2..], v[2..], m - 2, 1);
    } else if u[0] == '\'' {
      AgreeAfter(u, v, m, 1);
      QuoteLocal(u[1..], v[1..], m - 1);
    } else if u[0] == '"' {
      AgreeAfter(u, v, m, 1);
      ThroughLocal(u[1..], v[1..], m - 1, "\"");
    } else {
      TagLocal(u, v, m);
      var k := TagLen(u);
      if k > 0 {
        AgreeAfter(u, v, m, k);
        ThroughLocal(u[k..], v[k..], m - k, u[..k]);
      }
    }
  }

  // ----- tokens that swallow the white space after them -----

  /** `n` characters of `x + z` reach past `x`, but only over white space. */
  predicate RunsOver(x: string, z: string, n: nat) {
    |x| < n <= |x + z| && forall i :: |x| <= i < n ==> IsSpace((x + z)[i])
  }

  lemma {:induction false} ThroughSwallows(x: string, z: string, p: string)
    requires p != [] && !IsSpace(p[|p| - 1]) && RunsOver(x, z, Through(x + z, p))
    ensures Through(x + z, p) == |x + z| && Through(x, p) == |x|
  {
    var u := x + z;
    if |p| <= |u| {
      if u[..|p|] == p {
        assert false;
      } else if x == [] {
        ThroughEndsInPattern(u, p);
      } else {
        assert u[1..] == x[1..] + z;
        if |p| <= |x| { assert x[..|p|] == u[..|p|]; }
        ThroughSwallows(x[1..], z, p);
      }
    }
  }

  lemma {:induction false} ThroughEndsInPattern(t: string, p: string)
    requires p != [] && |p| <= |t|
    ensures Through(t, p) < |t| ==> t[Through(t, p) - 1] == p[|p| - 1]
    ensures Through(t, p) >= 1
  {
    if t[..|p|] == p {
      assert t[|p| - 1] == p[|p| - 1];
    } else if |p| <= |t[1..]| {
      ThroughEndsInPattern(t[1..], p);
    }
  }

  lemma {:induction false} NewlineSwallows(x: string, z: string, y: string)
    requires |x| < Through(x + z, "\n")
    ensures Through(x, "\n") == |x| && Through(x + "\n" + y, "\n") == |x| + 1
  {
    if x == [] {
      assert ([] + "\n" + y)[..1] == "\n";
    } else {
      assert (x + z)[1..] == x[1..] + z && (x + "\n" + y)[1..] == x[1..] + "\n" + y;
      assert (x + z)[..1] == x[..1] == (x + "\n" + y)[..1];
      NewlineSwallows(x[1..], z, y);
    }
  }

  function MarkLen(t: string): (k: nat)
    ensures 1 <= k <= 2
  {
    if Starts(t, "/*") || Starts(t, "*/") then 2 else 1
  }

  function MarkDepth(t: string, depth: nat): int {
    if Starts(t, "/*") then depth + 1 else if Starts(t, "*/") then depth - 1 else depth
  }

  lemma BlockStep(t: string, depth: nat)
    requires t != [] && depth > 0
    ensures MarkLen(t) <= |t| && MarkDepth(t, depth) >= 0
    ensures BlockLen(t, depth) == MarkLen(t) + BlockLen(t[MarkLen(t)..], MarkDepth(t, depth))
  {}

  lemma BlockEnd(t: string, depth: nat)
    requires t == [] || depth == 0
    ensures BlockLen(t, depth) == 0
  {}

  /** White space and a first character leave no mark across the seam. */
  lemma MarkAtSeam(x: string, z: string)
    requires x + z != [] && (|x| <= 1 ==> |x| < |x + z| && IsSpace((x + z)[|x|]))
    ensures |x| <= 1 ==> MarkLen(x + z) == 1 && MarkLen(x) == 1
    ensures |x| > 1 ==> MarkLen(x + z) == MarkLen(x) && forall d: nat :: MarkDepth(x + z, d) == MarkDepth(x, d)
    ensures |x| <= 1 ==> forall d: nat :: MarkDepth(x + z, d) == MarkDepth(x, d) == d
  {
    if |x| > 1 { assert (x + z)[..2] == x[..2]; }
  }

  lemma RunsOverShorter(x: string, z: string, n: nat, k: nat)
    requires RunsOver(x, z, n) && k <= |x|
    ensures n >= k && RunsOver(x[k..], z, n - k) && (x + z)[k..] == x[k..] + z
  {
    hide IsSpace;
    forall i | |x[k..]| <= i < n - k ensures IsSpace((x[k..] + z)[i]) { assert (x[k..] + z)[i] == (x + z)[i + k]; }
  }

  lemma RunsOverFirst(z: string, n: nat)
    requires RunsOver([], z, n) && n > 1
    ensures RunsOver([], z[1..], n - 1) && [] + z == z && [] + z[1..] == z[1..]
  {
    hide IsSpace;
    forall i | 0 <= i < n - 1 ensures IsSpace(([] + z[1..])[i]) { assert ([] + z[1..])[i] == ([] + z)[i + 1]; }
  }

  lemma {:induction false} BlockSwallows(x: string, z: string, depth: nat)
    requires depth > 0 && RunsOver(x, z, BlockLen(x + z, depth))
    ensures BlockLen(x + z, depth) == |x + z| && BlockLen(x, depth) == |x|
    decreases |x + z|
  {
    hide BlockLen;
    hide MarkLen;
    hide MarkDepth;
    hide IsSpace;
    var u := x + z;
    var n := BlockLen(u, depth);
    MarkAtSeam(x, z);
    BlockStep(u, depth);
    BlockEnd([], depth);
    if x == [] {
      assert u == z;
      if n > 1 {
        RunsOverFirst(z, n);
        BlockSwallows([], z[1..], depth);
      } else if |z| > 1 {
        BlockAtLeast(u, depth);
      }
    } else {
      var k, d := MarkLen(x), MarkDepth(x, depth);
      BlockStep(x, depth);
      RunsOverShorter(x, z, n, k);
      if d == 0 {
        BlockEnd(x[k..] + z, d);
      } else {
        BlockSwallows(x[k..], z, d);
      }
    }
  }

  lemma {:induction false} QuoteSwallows(x: string, z: string)
    requires RunsOver(x, z, QuoteLen(x + z))
    ensures QuoteLen(x + z) == |x + z| && QuoteLen(x) == |x|
    decreases |x + z|
  {
    var u := x + z;
    var n := QuoteLen(u);
    if x == [] {
      assert u == z && IsSpace(u[0]);
      if n > 1 {
        forall i | 0 <= i < n - 1 ensures IsSpace(([] + u[1..])[i]) { assert ([] + u[1..])[i] == u[i + 1]; }
        assert [] + u[1..] == u[1..];
        QuoteSwallows([], u[1..]);
      } else {
        assert QuoteLen(u[1..]) == 0;
      }
    } else {
      assert u[0] == x[0];
      if |x| > 1 { assert u[1] == x[1]; } else { assert IsSpace(u[1]); }
      var k := if x[0] == '\'' then 2 else 1;
      assert u[k..] == x[k..] + z;
      forall i | |x[k..]| <= i < n - k ensures IsSpace((x[k..] + z)[i]) { assert (x[k..] + z)[i] == u[i + k]; }
      QuoteSwallows(x[k..], z);
    }
  }

  /** What starts a token stays in front of white space that the token runs over. */
  lemma StartsInside(x: string, z: string, p: string)
    requires x != [] && |p| == 2 && !IsSpace(p[1]) && (z != [] ==> IsSpace(z[0]))
    ensures Starts(x + z, p) <==> Starts(x, p)
    ensures Starts(x, p) ==> (x + z)[2..] == x[2..] + z
  {
    var u := x + z;
    if |x| >= 2 {
      assert u[..2] == x[..2] && u[2..] == x[2..] + z;
    } else if |u| >= 2 {
      assert u[..2][1] == u[1] == z[0];
    }
  }

  lemma TagInside(x: string, z: string)
    requires x != [] && RunsOver(x, z, TokenLen(x + z)) && TagLen(x + z) > 0
    requires TokenLen(x + z) == TagLen(x + z) + Through((x + z)[TagLen(x + z)..], (x + z)[..TagLen(x + z)])
    ensures var k := TagLen(x + z);
            k <= |x| && TagLen(x) == k && (x + z)[..k] == x[..k] && (x + z)[k..] == x[k..] + z && !IsSpace(x[k - 1])
  {
    var u, k := x + z, TagLen(x + z);
    TagLenIsTheTag(u, k);
    assert u[k - 1] == '$' && k <= TokenLen(u);
    assert k <= |x|;
    forall i | 0 <= i < k ensures x[i] == u[i] {}
    TagLenIsTheTag(x, k);
  }

  lemma RunsOverAfter(x: string, z: string, n: nat, k: nat)
    requires RunsOver(x, z, n) && k <= |x|
    ensures RunsOver(x[k..], z, n - k)
  {
    forall i | |x[k..]| <= i < n - k ensures IsSpace((x[k..] + z)[i]) { assert (x[k..] + z)[i] == (x + z)[i + k]; }
  }

  /**
   Only two kinds of token run over the white space after them: one that never ends, which
   then takes all of the text, and a line comment, which a newline would have ended.
   */
  lemma TokenSwallows(x: string, z: string, y: string)
    requires x != [] && RunsOver(x, z, TokenLen(x + z))
    ensures TokenLen(x) == |x|
    ensures TokenLen(x + z) < |x + z| ==> TokenLen(x + "\n;" + y) == |x| + 1
  {
    hide Through;
    hide BlockLen;
    hide QuoteLen;
    hide TagLen;
    var u, v := x + z, x + "\n;" + y;
    var n := TokenLen(u);
    assert IsSpace(u[|x|]) && u[|x|] == z[0] && u[0] == x[0] == v[0];
    StartsInside(x, z, "--");
    StartsInside(x, z, "/*");
    if Starts(u, "--") {
      assert v == x + "\n" + (";" + y) && v[..2] == x[..2];
      NewlineSwallows(x, z, ";" + y);
    } else if Starts(u, "/*") {
      RunsOverAfter(x, z, n, 2);
      BlockSwallows(x[2..], z, 1);
    } else if u[0] == '\'' {
      RunsOverAfter(x, z, n, 1);
      assert u[1..] == x[1..] + z;
      QuoteSwallows(x[1..], z);
    } else if u[0] == '"' {
      RunsOverAfter(x, z, n, 1);
      assert u[1..] == x[1..] + z;
      ThroughSwallows(x[1..], z, "\"");
    } else if TagLen(u) > 0 {
      TagInside(x, z);
      RunsOverAfter(x, z, n, TagLen(u));
      ThroughSwallows(x[TagLen(u)..], z, x[..TagLen(u)]);
    }
  }

  // ----- trimmed statements split as they did -----

  /** White space at the end of an uncut text can go. */
  lemma {:induction false} StripTail(x: string, w: string)
    requires AllSpace(w) && |Raw(x + w)| == 1
    ensures |Raw(x)| == 1
    decreases |x|
  {
    if x != [] && w != [] {
      var u := x + w;
      var n := TokenLen(u);
      assert u[0] == x[0] != ';';
      if n <= |x| {
        assert u[|x|] == w[0] && u[..|x|] == x[..|x|];
        TokenLocal(u, x, |x|);
        assert u[n..] == x[n..] + w;
        StripTail(x[n..], w);
      } else {
        forall i | |x| <= i < n ensures IsSpace(u[i]) { assert u[i] == w[i - |x|]; }
        TokenSwallows(x, w, []);
        assert x[|x|..] == [];
      }
    } else if w == [] {
      assert x + w == x;
    }
  }

  /** The first cut of `p + ";" + y` falls behind `p`. */
  predicate CutBehind(p: string, y: string) {
    |Raw(p + ";" + y)| > 1 && Raw(p + ";" + y)[0] == p
  }

  lemma NewlineSlice(y: string)
    ensures Raw("\n;" + y) == ["\n"] + Raw(y)
  {
    var u := "\n;" + y;
    assert u[0] == '\n' && u[1..] == ";" + y && (";" + y)[1..] == y;
    assert !Starts(u, "--") && !Starts(u, "/*");
    assert Raw(";" + y) == [[]] + Raw(y);
    assert u[..1] == "\n" && "\n" + [] == "\n";
  }

  lemma SliceAfterToken(v: string, n: nat, x: string, rest: seq<string>)
    requires v != [] && v[0] != ';' && n == TokenLen(v) && n <= |x| && v[..n] == x[..n]
    requires Raw(v[n..]) == [x[n..]] + rest
    ensures Raw(v) == [x] + rest
  {
    hide TokenLen;
    assert x[..n] + x[n..] == x;
    assert ([x[n..]] + rest)[1..] == rest;
  }

  lemma SemicolonSlice(y: string)
    ensures Raw(";" + y) == [[]] + Raw(y)
  {
    assert (";" + y)[1..] == y;
  }

  /** The first token of a slice that is cut behind `w`, and what is left after it. */
  lemma TokenOfSlice(x: string, w: string, y: string)
    requires x != [] && CutBehind(x + w, y)
    ensures var u := x + w + ";" + y;
            var n := TokenLen(u);
            u[0] == x[0] != ';' && n <= |x + w| && (n <= |x| ==> CutBehind(x[n..] + w, y))
  {
    hide TokenLen;
    var u := x + w + ";" + y;
    var n := TokenLen(u);
    assert u[0] == x[0];
    assert x[0] != ';';
    var h := Raw(u[n..])[0];
    assert u[..n] + h == x + w;
    assert |u[..n] + h| == n + |h|;
    if n <= |x| {
      assert u[n..] == x[n..] + w + ";" + y;
      assert h == (u[..n] + h)[n..] == (x + w)[n..] == x[n..] + w;
    }
  }

  lemma RecloseWithin(x: string, w: string, y: string, y': string)
    requires x != [] && AllSpace(w) && TokenLen(x + w + ";" + y) <= |x|
    ensures var n := TokenLen(x + w + ";" + y);
            TokenLen(x) == n && TokenLen(x + "\n;" + y') == n && (x + "\n;" + y')[n..] == x[n..] + "\n;" + y'
  {
    var u, v := x + w + ";" + y, x + "\n;" + y';
    assert u[|x|] == (w + ";" + y)[0];
    assert u[..|x|] == x == x[..|x|] == v[..|x|];
    TokenLocal(u, v, |x|);
    TokenLocal(u, x, |x|);
  }

  lemma RecloseOver(x: string, w: string, y: string, y': string)
    requires x != [] && AllSpace(w) && |x| < TokenLen(x + w + ";" + y) <= |x + w|
    ensures TokenLen(x) == |x| && TokenLen(x + "\n;" + y') == |x| + 1 && (x + "\n;" + y')[|x| + 1..] == ";" + y'
  {
    var u, z := x + w + ";" + y, w + ";" + y;
    assert u == x + z;
    forall i | |x| <= i < TokenLen(u) ensures IsSpace((x + z)[i]) { assert (x + z)[i] == w[i - |x|]; }
    TokenSwallows(x, z, y');
  }

  /** `x` is not cut on its own, and is closed by a newline and a semicolon whatever follows. */
  predicate Recloses(x: string, y: string) {
    Raw(x + "\n;" + y) == [x + "\n"] + Raw(y) && |Raw(x)| == 1
  }

  lemma ReclosesAfterToken(x: string, n: nat, y: string)
    requires x != [] && x[0] != ';' && n == TokenLen(x) == TokenLen(x + "\n;" + y) && Recloses(x[n..], y)
    ensures Recloses(x, y)
  {
    hide TokenLen;
    var v, closed := x + "\n;" + y, x + "\n";
    assert v[n..] == x[n..] + "\n;" + y && closed[n..] == x[n..] + "\n" && v[..n] == closed[..n];
    SliceAfterToken(v, n, closed, Raw(y));
  }

  lemma ReclosesAtOnce(x: string, y: string)
    requires x != [] && x[0] != ';' && TokenLen(x) == |x| && TokenLen(x + "\n;" + y) == |x| + 1
    ensures Recloses(x, y)
  {
    var v, closed := x + "\n;" + y, x + "\n";
    SemicolonSlice(y);
    assert v[|x| + 1..] == ";" + y && closed[|x| + 1..] == [] && v[..|x| + 1] == closed == closed[..|x| + 1];
    SliceAfterToken(v, |x| + 1, closed, Raw(y));
    assert x[|x|..] == [];
  }

  /**
   A slice that ended in front of a semicolon ends there too once the white space at its end
   is replaced by a newline, whatever follows the semicolon.
   */
  lemma {:induction false} Reclose(x: string, w: string, y: string, y': string)
    requires AllSpace(w) && CutBehind(x + w, y)
    ensures Recloses(x, y')
    decreases |x|
  {
    hide TokenLen;
    if x == [] {
      assert x + "\n;" + y' == "\n;" + y' && x + "\n" == "\n";
      NewlineSlice(y');
    } else {
      var n := TokenLen(x + w + ";" + y);
      TokenOfSlice(x, w, y);
      if n <= |x| {
        RecloseWithin(x, w, y, y');
        Reclose(x[n..], w, y, y');
        ReclosesAfterToken(x, n, y');
      } else {
        RecloseOver(x, w, y, y');
        ReclosesAtOnce(x, y');
      }
    }
  }

  /** White space at the start belongs to the first slice. */
  lemma SpaceInFront(c: char, y: string)
    requires IsSpace(c)
    ensures Raw([c] + y) == [[c] + Raw(y)[0]] + Raw(y)[1..]
  {
    var u := [c] + y;
    assert u[0] == c && u[1..] == y && u[..1] == [c];
    assert !Starts(u, "--") && !Starts(u, "/*") by { assert u[..1][0] == c; if |u| >= 2 { assert u[..2][0] == c; } }
  }

  lemma {:induction false} TrimLeftParts(s: string)
    ensures |TrimLeft(s)| <= |s| && s[|s| - |TrimLeft(s)|..] == TrimLeft(s)
    ensures TrimLeft(s) != [] ==> !IsSpace(TrimLeft(s)[0])
  {
    if s != [] && IsSpace(s[0]) {
      TrimLeftParts(s[1..]);
      assert s[|s| - |TrimLeft(s)|..] == s[1..][|s[1..]| - |TrimLeft(s)|..];
    }
  }

  lemma {:induction false} TrimRightParts(s: string)
    ensures var r := TrimRight(s); |r| <= |s| && s[..|r|] == r && AllSpace(s[|r|..])
    ensures TrimRight(s) != [] ==> !IsSpace(TrimRight(s)[|TrimRight(s)| - 1])
  {
    if s != [] && IsSpace(s[|s| - 1]) {
      var t := s[..|s| - 1];
      TrimRightParts(t);
      var r := TrimRight(s);
      assert s[..|r|] == t[..|r|];
      forall i | 0 <= i < |s[|r|..]| ensures IsSpace(s[|r|..][i]) { if i < |t[|r|..]| { assert s[|r|..][i] == t[|r|..][i]; } }
    }
  }

  /**
   A non-empty statement starts and ends with something visible, so trimming it again, or with a newline behind,
   gives itself.
   */
  lemma TrimAgain(s: string)
    ensures var st := Trim(s); st != [] ==> Trim(st) == st && Trim(st + "\n") == st
  {
    var l, st := TrimLeft(s), Trim(s);
    TrimLeftParts(s);
    TrimRightParts(l);
    if st != [] {
      assert st[0] == l[0];
      assert (st + "\n")[0] == st[0] && (st + "\n")[..|st|] == st;
      assert TrimLeft(st) == st && TrimLeft(st + "\n") == st + "\n";
      assert (st + "\n")[|st + "\n"| - 1] == '\n';
    }
  }

  /** Leading white space moves no cut. */
  lemma {:induction false} TrimLeftKeepsCount(s: string)
    ensures |Raw(s)| == |Raw(TrimLeft(s))|
  {
    hide TokenLen;
    if s != [] && IsSpace(s[0]) {
      assert s == [s[0]] + s[1..];
      SpaceInFront(s[0], s[1..]);
      TrimLeftKeepsCount(s[1..]);
    }
  }

  lemma {:induction false} TrimLeftKeepsCuts(s: string, y: string)
    requires CutBehind(s, y)
    ensures CutBehind(TrimLeft(s), y)
  {
    hide TokenLen;
    if s != [] && IsSpace(s[0]) {
      var rest := s[1..] + ";" + y;
      assert s + ";" + y == [s[0]] + rest;
      SpaceInFront(s[0], rest);
      assert s[1..] == ([s[0]] + Raw(rest)[0])[1..] == Raw(rest)[0];
      TrimLeftKeepsCuts(s[1..], y);
    }
  }

  /** A slice that was cut off: its statement is uncut on its own, and closes in front of newline and semicolon. */
  lemma CutSlice(r: string, y: string, y': string)
    requires CutBehind(r, y)
    ensures Recloses(Trim(r), y')
  {
    hide TokenLen;
    TrimLeftKeepsCuts(r, y);
    var l := TrimLeft(r);
    TrimRightParts(l);
    var st := TrimRight(l);
    assert l == st + l[|st|..];
    Reclose(st, l[|st|..], y, y');
  }

  /** The last slice: its statement is uncut on its own. */
  lemma LastSlice(r: string)
    requires |Raw(r)| == 1
    ensures |Raw(Trim(r))| == 1
  {
    hide TokenLen;
    TrimLeftKeepsCount(r);
    var l := TrimLeft(r);
    TrimRightParts(l);
    assert l == TrimRight(l) + l[|TrimRight(l)|..];
    StripTail(TrimRight(l), l[|TrimRight(l)|..]);
  }

  lemma KeepFirst(pieces: seq<string>)
    requires pieces != []
    ensures Keep(pieces) == Keep([pieces[0]]) + Keep(pieces[1..])
    ensures Keep([pieces[0]]) == if Trim(pieces[0]) == [] then [] else [Trim(pieces[0])]
  {
    assert [pieces[0]][1..] == [];
  }

  /** One slice off the front. */
  lemma FirstCut(t: string)
    requires |Raw(t)| > 1
    ensures var r := Raw(t)[0];
            |r| < |t| && CutBehind(r, t[|r| + 1..])
            && Split(t) == (if Trim(r) == [] then [] else [Trim(r)]) + Split(t[|r| + 1..])
  {
    hide Raw;
    hide Trim;
    hide Keep;
    FirstSlice(t);
    var r := Raw(t)[0];
    var rest := t[|r| + 1..];
    assert r + ";" + rest == t;
    assert CutBehind(r, rest);
    KeepFirst(Raw(t));
    assert Split(rest) == Keep(Raw(t)[1..]);
  }

  lemma UncutSplit(t: string)
    requires |Raw(t)| == 1
    ensures Split(t) == if Trim(t) == [] then [] else [Trim(t)]
  {
    hide TokenLen;
    FirstSlice(t);
    KeepFirst(Raw(t));
  }

  /** Splitting a statement again gives just itself. */
  lemma {:induction false} StatementsSplitToThemselves(t: string, st: string)
    requires st in Split(t)
    ensures Split(st) == [st]
    decreases |t|
  {
    hide Raw;
    hide Keep;
    hide Trim;
    hide Split;
    hide CutBehind;
    if |Raw(t)| == 1 {
      UncutSplit(t);
      LastSlice(t);
      TrimAgain(t);
      UncutSplit(st);
    } else {
      FirstCut(t);
      var r := Raw(t)[0];
      if st in Split(t[|r| + 1..]) {
        StatementsSplitToThemselves(t[|r| + 1..], st);
      } else {
        CutSlice(r, t[|r| + 1..], []);
        TrimAgain(r);
        assert Recloses(st, []);
        UncutSplit(st);
      }
    }
  }

  lemma NewlineFirstSplit(y: string)
    ensures Split("\n" + y) == Split(y)
  {
    SpaceInFront('\n', y);
    var r := Raw(y);
    assert ("\n" + r[0])[1..] == r[0];
    assert Trim("\n" + r[0]) == Trim(r[0]);
    KeepFirst(r);
    KeepFirst(["\n" + r[0]] + r[1..]);
  }

  const SEPARATOR := "\n;\n"

  /** A slice that was cut off, in front of other statements. */
  lemma CutSliceInFront(r: string, y: string, joined: string)
    requires CutBehind(r, y) && Trim(r) != []
    ensures Split(Trim(r) + SEPARATOR + joined) == [Trim(r)] + Split(joined)
  {
    hide Raw;
    hide Keep;
    hide Trim;
    hide CutBehind;
    var st := Trim(r);
    assert st + SEPARATOR + joined == st + "\n;" + ("\n" + joined);
    CutSlice(r, y, "\n" + joined);
    TrimAgain(r);
    NewlineFirstSplit(joined);
    var pieces := [st + "\n"] + Raw("\n" + joined);
    KeepFirst(pieces);
    assert pieces[1..] == Raw("\n" + joined);
  }

  lemma NothingSplits()
    ensures Split([]) == []
  {
    assert Raw([]) == [[]] && Raw([])[1..] == [];
  }

  /** Joining the statements with newline, semicolon, newline and splitting again gives the same statements. */
  lemma {:induction false} SplitIsStable(t: string)
    ensures Split(JoinWith(Split(t), SEPARATOR)) == Split(t)
    decreases |t|
  {
    hide Raw;
    hide Keep;
    hide Trim;
    hide Split;
    hide CutBehind;
    NothingSplits();
    if |Raw(t)| == 1 {
      UncutSplit(t);
      if Trim(t) != [] { StatementsSplitToThemselves(t, Trim(t)); }
    } else {
      FirstCut(t);
      var r := Raw(t)[0];
      var rest := t[|r| + 1..];
      SplitIsStable(rest);
      var st := Trim(r);
      if st != [] && Split(rest) == [] {
        assert Split(t) == [st];
        StatementsSplitToThemselves(t, st);
      } else if st != [] {
        hide JoinWith;
        JoinFirst(st, Split(rest), SEPARATOR);
        CutSliceInFront(r, rest, JoinWith(Split(rest), SEPARATOR));
      } else {
        assert Split(t) == Split(rest);
      }
    }
  }

  // ----- a declarative lexer -----

  predicate Occurs(t: string, p: string, i: nat) { i + |p| <= |t| && t[i..i + |p|] == p }

  /** Ends with the first occurrence of `p`, or with the text when there is none. */
  ghost predicate EndsThrough(t: string, p: string, n: int) {
    (exists i: nat :: Occurs(t, p, i) && n == i + |p| && forall k: nat :: k < i ==> !Occurs(t, p, k))
    || (n == |t| && forall k: nat :: !Occurs(t, p, k))
  }

  /** The grammar of what follows an opened comment: text and whole comments, then the closing mark. */
  ghost predicate CommentBody(t: string, n: int)
    decreases n
  {
    2 <= n <= |t|
    && if Starts(t, "*/") then n == 2
       else if Starts(t, "/*") then exists k: nat :: k + 2 < n && CommentBody(t[2..], k) && CommentBody(t[2 + k..], n - 2 - k)
       else CommentBody(t[1..], n - 1)
  }

  ghost predicate CommentEnds(t: string, n: int) {
    CommentBody(t, n) || (n == |t| && forall k: nat :: !CommentBody(t, k))
  }

  function Quotes(t: string): nat {
    if t == [] then 0 else (if t[0] == '\'' then 1 else 0) + Quotes(t[1..])
  }

  /** A quote that no other follows, after an odd number of them, counting itself. */
  predicate QuoteCloses(t: string, n: int) {
    1 <= n <= |t| && t[n - 1] == '\'' && (n == |t| || t[n] != '\'') && Quotes(t[..n]) % 2 == 1
  }

  ghost predicate LiteralEnds(t: string, n: int) {
    (QuoteCloses(t, n) && forall k: nat :: k < n ==> !QuoteCloses(t, k))
    || (n == |t| && forall k: nat :: !QuoteCloses(t, k))
  }

  ghost predicate IsToken(t: string, n: int)
    requires t != []
  {
    if Starts(t, "--") then EndsThrough(t, "\n", n)
    else if Starts(t, "/*") then CommentEnds(t[2..], n - 2)
    else if t[0] == '\'' then LiteralEnds(t[1..], n - 1)
    else if t[0] == '"' then EndsThrough(t[1..], "\"", n - 1)
    else if exists k: nat :: IsTag(t, k) then exists k: nat :: IsTag(t, k) && EndsThrough(t[k..], t[..k], n - k)
    else n == 1
  }

  /** Whole tokens lead up to position `p`. */
  ghost predicate TopLevel(t: string, p: nat)
    decreases p
  {
    p == 0 || (t != [] && exists n: nat :: 0 < n <= p && n <= |t| && IsToken(t, n) && TopLevel(t[n..], p - n))
  }

  lemma {:induction false} ThroughIsFirst(t: string, p: string, n: int)
    requires p != []
    ensures EndsThrough(t, p, n) <==> n == Through(t, p)
  {
    if |t| < |p| {
      assert forall k: nat :: !Occurs(t, p, k);
    } else if t[..|p|] == p {
      assert t[0..0 + |p|] == t[..|p|];
      assert Occurs(t, p, 0);
    } else {
      assert t[0..0 + |p|] == t[..|p|];
      assert !Occurs(t, p, 0);
      var u := t[1..];
      ThroughIsFirst(u, p, n - 1);
      forall k: nat ensures Occurs(u, p, k) <==> Occurs(t, p, k + 1) {
        if k + |p| <= |u| { assert u[k..k + |p|] == t[k + 1..k + 1 + |p|]; }
      }
      if EndsThrough(t, p, n) {
        if i: nat :| Occurs(t, p, i) && n == i + |p| && forall k: nat :: k < i ==> !Occurs(t, p, k) {
          assert Occurs(u, p, i - 1) && forall k: nat :: k < i - 1 ==> !Occurs(u, p, k);
        }
      }
      if EndsThrough(u, p, n - 1) {
        if i: nat :| Occurs(u, p, i) && n - 1 == i + |p| && forall k: nat :: k < i ==> !Occurs(u, p, k) {
          assert Occurs(t, p, i + 1);
          forall k: nat | k < i + 1 ensures !Occurs(t, p, k) { if k > 0 { assert !Occurs(u, p, k - 1); } }
        } else {
          forall k: nat ensures !Occurs(t, p, k) { if k > 0 { assert !Occurs(u, p, k - 1); } }
        }
      }
    }
  }

  lemma StartsFits(t: string)
    ensures Starts(t, "/*") || Starts(t, "*/") ==> |t| >= 2
  {}

  lemma OpensOrCloses(t: string)
    ensures !(Starts(t, "/*") && Starts(t, "*/"))
  {}

  lemma ScansOpened(t: string, n: nat, k: nat, depth: nat)
    requires Starts(t, "/*") && k + 2 <= n <= |t| && depth > 0
    requires BlockLen(t[2..], depth + 1) == k + BlockLen(t[2..][k..], depth)
    requires BlockLen(t[2 + k..], depth) == n - 2 - k + BlockLen(t[2 + k..][n - 2 - k..], depth - 1)
    ensures BlockLen(t, depth) == n + BlockLen(t[n..], depth - 1)
  {
    assert t[2..][k..] == t[2 + k..] && t[2 + k..][n - 2 - k..] == t[n..];
    assert BlockLen(t, depth) == 2 + BlockLen(t[2..], depth + 1);
    hide BlockLen;
  }

  lemma BlockMarks(t: string, depth: nat)
    requires |t| >= 2 && depth > 0
    ensures BlockLen(t, depth)
            == if Starts(t, "/*") then 2 + BlockLen(t[2..], depth + 1) else if Starts(t, "*/") then 2 + BlockLen(t[2..], depth - 1)
               else 1 + BlockLen(t[1..], depth)
  {}

  /** Counting depth gets through a body of the grammar exactly at its end. */
  lemma {:induction false} BodyScans(t: string, n: nat, depth: nat)
    requires CommentBody(t, n) && depth > 0
    ensures BlockLen(t, depth) == n + BlockLen(t[n..], depth - 1)
    decreases n
  {
    hide Starts;
    hide BlockLen;
    OpensOrCloses(t);
    BlockMarks(t, depth);
    if Starts(t, "*/") {
    } else if Starts(t, "/*") {
      var k: nat :| k + 2 < n && CommentBody(t[2..], k) && CommentBody(t[2 + k..], n - 2 - k);
      BodyScans(t[2..], k, depth + 1);
      BodyScans(t[2 + k..], n - 2 - k, depth);
      ScansOpened(t, n, k, depth);
    } else {
      assert t[1..][n - 1..] == t[n..];
      BodyScans(t[1..], n - 1, depth);
    }
  }

  /** The depth count reaches zero before the text ends. */
  predicate ScanCloses(t: string, depth: nat) {
    if depth == 0 then true
    else if t == [] then false
    else if Starts(t, "/*") then ScanCloses(t[2..], depth + 1)
    else if Starts(t, "*/") then ScanCloses(t[2..], depth - 1)
    else ScanCloses(t[1..], depth)
  }

  lemma {:induction false} ClosedScanHasBody(t: string, depth: nat) returns (n: nat)
    requires ScanCloses(t, depth) && depth > 0
    ensures CommentBody(t, n) && ScanCloses(t[n..], depth - 1)
    decreases |t|
  {
    OpensOrCloses(t);
    StartsFits(t);
    hide Starts;
    if Starts(t, "/*") {
      var k := ClosedScanHasBody(t[2..], depth + 1);
      assert t[2..][k..] == t[2 + k..];
      var m := ClosedScanHasBody(t[2 + k..], depth);
      assert t[2 + k..][m..] == t[2 + k + m..];
      n := 2 + k + m;
    } else if Starts(t, "*/") {
      n := 2;
    } else {
      var k := ClosedScanHasBody(t[1..], depth);
      assert t[1..][k..] == t[k + 1..];
      n := k + 1;
    }
  }

  lemma {:induction false} BodyCloses(t: string, n: nat, depth: nat)
    requires CommentBody(t, n) && depth > 0
    ensures ScanCloses(t, depth) == ScanCloses(t[n..], depth - 1)
    decreases n
  {
    hide Starts;
    OpensOrCloses(t);
    if Starts(t, "*/") {
    } else if Starts(t, "/*") {
      var k: nat :| k + 2 < n && CommentBody(t[2..], k) && CommentBody(t[2 + k..], n - 2 - k);
      BodyCloses(t[2..], k, depth + 1);
      assert t[2..][k..] == t[2 + k..] && t[2 + k..][n - 2 - k..] == t[n..];
      BodyCloses(t[2 + k..], n - 2 - k, depth);
    } else {
      assert t[1..][n - 1..] == t[n..];
      BodyCloses(t[1..], n - 1, depth);
    }
  }

  lemma OpenScanTakesAll(t: string, depth: nat)
    requires !ScanCloses(t, depth)
    ensures BlockLen(t, depth) == |t|
  {}

  /** Counting depth recognises the nested grammar. */
  lemma CommentScan(t: string, n: int)
    ensures CommentEnds(t, n) <==> n == BlockLen(t, 1)
  {
    if ScanCloses(t, 1) {
      var k := ClosedScanHasBody(t, 1);
      BodyScans(t, k, 1);
      if CommentBody(t, n) { BodyScans(t, n, 1); }
    } else {
      OpenScanTakesAll(t, 1);
      forall k: nat ensures !CommentBody(t, k) { if CommentBody(t, k) { BodyCloses(t, k, 1); } }
    }
  }

  lemma QuotesAfterOne(t: string, n: nat)
    requires 1 <= n <= |t|
    ensures Quotes(t[..n]) == (if t[0] == '\'' then 1 else 0) + Quotes(t[1..][..n - 1])
  {
    assert t[..n][1..] == t[1..][..n - 1];
  }

  lemma QuotesAfter(t: string, n: nat, k: nat)
    requires k <= n <= |t| && 1 <= k <= 2
    ensures Quotes(t[..n]) == (if t[0] == '\'' then 1 else 0) + (if k == 2 && t[1] == '\'' then 1 else 0) + Quotes(t[k..][..n - k])
  {
    QuotesAfterOne(t, n);
    if k == 2 {
      QuotesAfterOne(t[1..], n - 1);
      assert t[1..][1..] == t[2..];
    }
  }

  /** A quote closes the literal of `t` exactly where it closes that of `t` without its first `k` characters. */
  lemma ClosesAfter(t: string, n: int, k: nat)
    requires 1 <= k <= 2 && k <= |t|
    requires if k == 1 then t[0] != '\'' else t[0] == '\'' && t[1] == '\''
    ensures QuoteCloses(t, n) <==> QuoteCloses(t[k..], n - k)
  {
    if k <= n <= |t| {
      QuotesAfter(t, n, k);
      if k < n { assert t[k..][n - k - 1] == t[n - 1]; }
      if n < |t| { assert t[k..][n - k] == t[n]; }
      assert t[k..][..0] == [];
    }
  }

  lemma EndsAfter(t: string, n: int, k: nat)
    requires 1 <= k <= 2 && k <= |t|
    requires if k == 1 then t[0] != '\'' else t[0] == '\'' && t[1] == '\''
    requires LiteralEnds(t[k..], n - k)
    ensures LiteralEnds(t, n)
  {
    forall m: int ensures QuoteCloses(t, m) <==> QuoteCloses(t[k..], m - k) { ClosesAfter(t, m, k); }
    if QuoteCloses(t[k..], n - k) {
      forall m: nat | m < n ensures !QuoteCloses(t, m) { if m >= k { var q: nat := m - k; assert !QuoteCloses(t[k..], q); } }
    } else {
      forall m: nat ensures !QuoteCloses(t, m) { if m >= k { var q: nat := m - k; assert !QuoteCloses(t[k..], q); } }
    }
  }

  lemma {:induction false} QuoteLenEnds(t: string)
    ensures LiteralEnds(t, QuoteLen(t))
  {
    if t != [] {
      if t[0] != '\'' {
        QuoteLenEnds(t[1..]);
        EndsAfter(t, QuoteLen(t), 1);
      } else if |t| > 1 && t[1] == '\'' {
        QuoteLenEnds(t[2..]);
        EndsAfter(t, QuoteLen(t), 2);
      } else {
        assert t[..1][1..] == [];
        assert QuoteCloses(t, 1);
      }
    }
  }

  /** Skipping doubled quotes finds the first quote that closes by parity. */
  lemma QuoteScan(t: string, n: int)
    ensures LiteralEnds(t, n) <==> n == QuoteLen(t)
  {
    QuoteLenEnds(t);
  }

  /** The lexer's token is the only token of the declarative one. */
  lemma TokenLenIsToken(t: string, n: int)
    requires t != []
    ensures IsToken(t, n) <==> n == TokenLen(t)
  {
    hide Through;
    hide BlockLen;
    hide QuoteLen;
    hide EndsThrough;
    hide CommentEnds;
    hide LiteralEnds;
    StartsFits(t);
    hide Starts;
    hide TagLen;
    if Starts(t, "--") {
      ThroughIsFirst(t, "\n", n);
    } else if Starts(t, "/*") {
      CommentScan(t[2..], n - 2);
    } else if t[0] == '\'' {
      QuoteScan(t[1..], n - 1);
    } else if t[0] == '"' {
      ThroughIsFirst(t[1..], "\"", n - 1);
    } else {
      var k := TagLen(t);
      forall j: nat ensures IsTag(t, j) <==> j == k && k > 0 { TagLenIsTheTag(t, j); }
      hide IsTag;
      if k > 0 {
        assert IsTag(t, k);
        ThroughIsFirst(t[k..], t[..k], n - k);
        if j: nat :| IsTag(t, j) && EndsThrough(t[j..], t[..j], n - j) { assert j == k; }
      }
    }
  }

  /** Whether the lexer, token by token, meets a semicolon of its own at `p`. */
  predicate CutAt(t: string, p: nat)
    decreases |t|
  {
    t != [] &&
    if t[0] == ';' then p == 0 || CutAt(t[1..], p - 1)
    else p >= TokenLen(t) && CutAt(t[TokenLen(t)..], p - TokenLen(t))
  }

  lemma TopLevelAfterToken(t: string, p: nat)
    requires t != [] && p > 0
    ensures TopLevel(t, p) <==> p >= TokenLen(t) && TopLevel(t[TokenLen(t)..], p - TokenLen(t))
  {
    hide TokenLen;
    hide IsToken;
    forall n: nat ensures IsToken(t, n) <==> n == TokenLen(t) { TokenLenIsToken(t, n); }
  }

  lemma SliceToken(t: string, p: nat) returns (n: nat)
    requires t != [] && t[0] != ';'
    ensures 0 < n <= |t|
    ensures Raw(t) == [t[..n] + Raw(t[n..])[0]] + Raw(t[n..])[1..]
    ensures CutAt(t, p) <==> p >= n && CutAt(t[n..], p - n)
    ensures p > 0 ==> (TopLevel(t, p) <==> p >= n && TopLevel(t[n..], p - n))
  {
    hide TokenLen;
    hide TopLevel;
    n := TokenLen(t);
    if p > 0 { TopLevelAfterToken(t, p); }
  }

  lemma TopLevelStart(t: string)
    ensures TopLevel(t, 0)
  {}

  lemma SemicolonLen(t: string)
    requires t != [] && t[0] == ';'
    ensures TokenLen(t) == 1
  {}

  lemma SemicolonToken(t: string, p: nat)
    requires t != [] && t[0] == ';' && p > 0
    ensures TopLevel(t, p) <==> TopLevel(t[1..], p - 1)
  {
    hide TokenLen;
    hide TopLevel;
    SemicolonLen(t);
    TopLevelAfterToken(t, p);
  }

  /** What `Raw(t)` being `r` says about the cuts of `t` at `p`. */
  predicate EndsAtCuts(t: string, r: seq<string>, p: nat) {
    r != [] && |r[0]| <= |t|
    && if |r| == 1 then r[0] == t && !CutAt(t, p)
       else |r[0]| < |t| && t[..|r[0]|] == r[0] && r[1..] == Raw(t[|r[0]| + 1..])
            && (CutAt(t, p) <==> p == |r[0]| || (p > |r[0]| && CutAt(t[|r[0]| + 1..], p - |r[0]| - 1)))
  }

  lemma EndsAtCutsAfter(t: string, n: nat, r: seq<string>, p: nat)
    requires 0 < n <= |t| && (CutAt(t, p) <==> p >= n && CutAt(t[n..], p - n))
    requires r != [] && (if p >= n then EndsAtCuts(t[n..], r, p - n) else EndsAtCuts(t[n..], r, 0))
    ensures EndsAtCuts(t, [t[..n] + r[0]] + r[1..], p)
  {
    hide TokenLen;
    var u, h := t[n..], r[0];
    assert |t[..n] + h| == n + |h|;
    if |r| > 1 { assert u[|h| + 1..] == t[n + |h| + 1..]; }
  }

  /** `Raw` ends its slices at these positions and no others. */
  lemma {:induction false} SlicesEndAtCuts(t: string, p: nat)
    ensures EndsAtCuts(t, Raw(t), p)
    decreases |t|
  {
    hide TokenLen;
    if t != [] && t[0] != ';' {
      var n := SliceToken(t, p);
      SlicesEndAtCuts(t[n..], if p >= n then p - n else 0);
      EndsAtCutsAfter(t, n, Raw(t[n..]), p);
    }
  }

  /** The cuts are exactly the semicolons that the declarative lexer calls top level. */
  lemma {:induction false} CutsAreTheTopLevelSemicolons(t: string, p: nat)
    requires p < |t|
    ensures CutAt(t, p) <==> t[p] == ';' && TopLevel(t, p)
    decreases |t|
  {
    TopLevelStart(t);
    hide TokenLen;
    hide TopLevel;
    if t[0] == ';' {
      if p > 0 {
        SemicolonToken(t, p);
        CutsAreTheTopLevelSemicolons(t[1..], p - 1);
      }
    } else {
      var n := SliceToken(t, p);
      if p >= n { CutsAreTheTopLevelSemicolons(t[n..], p - n); }
    }
  }

  // ----- the program -----

  lemma StartsTwo(s: string, i: nat, a: char, b: char)
    requires i < |s|
    ensures Starts(s[i..], [a, b]) <==> i + 1 < |s| && s[i] == a && s[i + 1] == b
    ensures s[i..][1..] == s[i + 1..] && (i + 1 < |s| ==> s[i..][2..] == s[i + 2..])
  {
    if i + 1 < |s| { assert s[i..][..2] == [s[i], s[i + 1]]; }
  }

  /** String.prototype.indexOf. */
  method IndexOf(s: string, p: string, from: nat) returns (r: int)
    requires p != [] && from <= |s|
    ensures r == -1 || from <= r <= |s| - |p|
    ensures (if r == -1 then |s| else r + |p|) == from + Through(s[from..], p)
    ensures r != -1 ==> Occurs(s, p, r)
  {
    r := from;
    while r + |p| <= |s|
      invariant from <= r <= |s|
      invariant from + Through(s[from..], p) == r + Through(s[r..], p)
    {
      assert s[r..][..|p|] == s[r..r + |p|];
      if s[r..r + |p|] == p { return; }
      assert s[r..][1..] == s[r + 1..];
      r := r + 1;
    }
    r := -1;
  }

  /** What is still to be pushed when slice `start` is open and the lexer stands at `i`. */
  function Pending(s: string, start: nat, i: nat): seq<string>
    requires start <= i <= |s|
  {
    var r := Raw(s[i..]);
    Keep([s[start..i] + r[0]] + r[1..])
  }

  lemma PendingStart(s: string)
    ensures Pending(s, 0, 0) == Split(s)
  {
    var r := Raw(s);
    assert s[0..] == s && s[0..0] + r[0] == r[0] && [r[0]] + r[1..] == r;
  }

  lemma PendingToken(s: string, start: nat, i: nat)
    requires start <= i < |s| && s[i] != ';'
    ensures i + TokenLen(s[i..]) <= |s|
    ensures Pending(s, start, i) == Pending(s, start, i + TokenLen(s[i..]))
  {
    hide TokenLen;
    var n := TokenLen(s[i..]);
    var r := Raw(s[i + n..]);
    assert s[i..][n..] == s[i + n..] && s[i..][..n] == s[i..i + n];
    assert s[start..i] + (s[i..i + n] + r[0]) == s[start..i + n] + r[0];
    assert ([s[i..i + n] + r[0]] + r[1..])[1..] == r[1..];
  }

  lemma PendingSemicolon(s: string, start: nat, i: nat)
    requires start <= i < |s| && s[i] == ';'
    ensures Pending(s, start, i) == (if Trim(s[start..i]) == [] then [] else [Trim(s[start..i])]) + Pending(s, i + 1, i + 1)
  {
    hide TokenLen;
    var r := Raw(s[i + 1..]);
    assert s[i..][1..] == s[i + 1..];
    assert Raw(s[i..]) == [[]] + r && ([[]] + r)[1..] == r;
    assert s[start..i] + [] == s[start..i];
    KeepFirst([s[start..i]] + r);
    assert ([s[start..i]] + r)[1..] == r;
    assert s[i + 1..i + 1] + r[0] == r[0];
    assert [r[0]] + r[1..] == r;
  }

  lemma PendingTail(s: string, start: nat)
    requires start <= |s|
    ensures Pending(s, start, |s|) == if Trim(s[start..]) == [] then [] else [Trim(s[start..])]
  {
    hide TokenLen;
    assert s[|s|..] == [] && s[start..|s|] + [] == s[start..] && [s[start..]] + [] == [s[start..]];
    KeepFirst([s[start..]]);
  }

  method SkipBlockComment(s: string, from: nat) returns (i: nat)
    requires from <= |s|
    ensures i == from + BlockLen(s[from..], 1)
  {
    hide BlockLen;
    var depth: nat := 1;
    i := from;
    while i < |s| && depth > 0
      invariant from <= i <= |s|
      invariant i + BlockLen(s[i..], depth) == from + BlockLen(s[from..], 1)
    {
      StartsTwo(s, i, '/', '*');
      StartsTwo(s, i, '*', '/');
      BlockStep(s[i..], depth);
      assert s[i..][MarkLen(s[i..])..] == s[i + MarkLen(s[i..])..];
      if s[i] == '/' && i + 1 < |s| && s[i + 1] == '*' {
        depth, i := depth + 1, i + 2;
      } else if s[i] == '*' && i + 1 < |s| && s[i + 1] == '/' {
        depth, i := depth - 1, i + 2;
      } else {
        i := i + 1;
      }
    }
    BlockEnd(s[i..], depth);
  }

  method SkipLiteral(s: string, from: nat) returns (i: nat)
    requires from <= |s|
    ensures i == from + QuoteLen(s[from..])
  {
    i := from;
    while i < |s|
      invariant from <= i <= |s|
      invariant i + QuoteLen(s[i..]) == from + QuoteLen(s[from..])
    {
      assert s[i..][1..] == s[i + 1..] && (i + 1 < |s| ==> s[i..][2..] == s[i + 2..] && s[i..][1] == s[i + 1]);
      if s[i] == '\'' {
        if i + 1 < |s| && s[i + 1] == '\'' {
          i := i + 2;
          continue;
        }
        i := i + 1;
        return;
      }
      i := i + 1;
    }
  }

  method SkipIdentifier(s: string, from: nat) returns (i: nat)
    requires from <= |s|
    ensures i == from + Through(s[from..], "\"") || (i == |s| + 1 && from + Through(s[from..], "\"") == |s|)
  {
    i := from;
    while i < |s| && s[i] != '"'
      invariant from <= i <= |s|
      invariant i + Through(s[i..], "\"") == from + Through(s[from..], "\"")
    {
      assert s[i..][1..] == s[i + 1..] && s[i..][..1] == [s[i]];
      i := i + 1;
    }
    if i < |s| { assert s[i..][..1] == "\""; }
    i := i + 1;
  }

  lemma TagStarts(t: string)
    ensures TagLen(t) > 0 ==> t[0] == '$'
  {}

  /** Past the token at `i`; one past the end of the text when it is an identifier that never closes. */
  method SkipToken(sql: string, i: nat) returns (j: nat)
    requires i < |sql|
    ensures i < j && (j == i + TokenLen(sql[i..]) || (j == |sql| + 1 && i + TokenLen(sql[i..]) == |sql|))
  {
    hide Through;
    hide BlockLen;
    hide QuoteLen;
    hide TagLen;
    hide Occurs;
    var ch := sql[i];
    ghost var t := sql[i..];
    TagStarts(t);
    StartsTwo(sql, i, '-', '-');
    StartsTwo(sql, i, '/', '*');
    hide Starts;
    if ch == '-' && i + 1 < |sql| && sql[i + 1] == '-' {
      var nl := IndexOf(sql, "\n", i);
      return if nl == -1 then |sql| else nl + 1;
    }
    if ch == '/' && i + 1 < |sql| && sql[i + 1] == '*' {
      j := SkipBlockComment(sql, i + 2);
      return;
    }
    if ch == '\'' {
      j := SkipLiteral(sql, i + 1);
      return;
    }
    if ch == '"' {
      j := SkipIdentifier(sql, i + 1);
      return;
    }
    if ch == '$' {
      var tag := TagLen(sql[i..]);
      if tag > 0 {
        var marker := sql[i..i + tag];
        assert t[tag..] == sql[i + tag..] && t[..tag] == marker;
        var end := IndexOf(sql, marker, i + tag);
        return if end == -1 then |sql| else end + |marker|;
      }
    }
    j := i + 1;
  }

  /** `SkipToken`, and what it means for the statements still to come. */
  method Advance(sql: string, i: nat, ghost start: nat) returns (j: nat)
    requires start <= i < |sql| && sql[i] != ';'
    ensures i < j <= |sql| + 1
    ensures Pending(sql, start, i) == Pending(sql, start, if j <= |sql| then j else |sql|)
  {
    hide TokenLen;
    PendingToken(sql, start, i);
    j := SkipToken(sql, i);
  }

  lemma PendingPushed(sql: string, statements: seq<string>, start: nat, i: nat, stmt: string)
    requires start <= i < |sql| && sql[i] == ';' && stmt == Trim(sql[start..i])
    ensures statements + Pending(sql, start, i)
            == (if |stmt| > 0 then statements + [stmt] else statements) + Pending(sql, i + 1, i + 1)
  {
    hide TokenLen;
    PendingSemicolon(sql, start, i);
  }

  /** The splitter: one pass over the text with two indices. */
  method SplitStatements(sql: string) returns (statements: seq<string>)
    ensures statements == Split(sql)
  {
    hide TokenLen;
    statements := [];
    var start, i := 0, 0;
    PendingStart(sql);
    while i < |sql|
      invariant start <= i <= |sql| + 1 && start <= |sql|
      invariant statements + Pending(sql, start, if i <= |sql| then i else |sql|) == Split(sql)
      decreases |sql| + 1 - i
    {
      if sql[i] != ';' {
        i := Advance(sql, i, start);
        continue;
      }
      var stmt := Trim(sql[start..i]);
      PendingPushed(sql, statements, start, i, stmt);
      if |stmt| > 0 { statements := statements + [stmt]; }
      start := i + 1;
      i := i + 1;
    }
    PendingTail(sql, start);
    var tail := Trim(sql[start..]);
    if |tail| > 0 { statements := statements + [tail]; }
  }
}
