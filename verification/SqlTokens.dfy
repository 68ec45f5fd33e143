/**
 What the splitter does with the texts people write: dollar-quoted blocks go through whole, and
 statements come out without the white space around them.
 */
module SqlTokens {
  import opened SqlSplit

  /** Letters, digits and underscores, not starting with a digit; or nothing. */
  predicate IsWord(w: string) {
    forall i :: 0 <= i < |w| ==>
      w[i] == '_' || 'a' <= w[i] <= 'z' || 'A' <= w[i] <= 'Z' || ('0' <= w[i] <= '9' && i > 0)
  }

  function Tag(w: string): string { "$" + w + "$" }

  /** The closing tag is the first tag after the opening one. */
  predicate ClosesFirst(body: string, tag: string) {
    forall i: nat :: i < |body| ==> !Occurs(body + tag, tag, i)
  }

  lemma TagOfWord(w: string, rest: string)
    requires IsWord(w)
    ensures TagLen(Tag(w) + rest) == |w| + 2 && (Tag(w) + rest)[..|w| + 2] == Tag(w) && (Tag(w) + rest)[|w| + 2..] == rest
  {
    var t, k := Tag(w) + rest, |w| + 2;
    assert forall i :: 1 <= i < k - 1 ==> t[i] == w[i - 1];
    TagLenIsTheTag(t, k);
  }

  lemma ThroughBody(body: string, tag: string, rest: string)
    requires tag != []
    ensures ClosesFirst(body, tag) <==> Through(body + tag + rest, tag) == |body| + |tag|
  {
    var t := body + tag + rest;
    forall i: nat | i <= |body| ensures Occurs(t, tag, i) <==> Occurs(body + tag, tag, i) {
      assert t[i..i + |tag|] == (body + tag)[i..i + |tag|];
    }
    assert (body + tag)[|body|..|body| + |tag|] == tag;
    assert Occurs(t, tag, |body|);
    ThroughIsFirst(t, tag, |body| + |tag|);
    if Through(t, tag) == |body| + |tag| {
      assert EndsThrough(t, tag, |body| + |tag|);
      var i: nat :| Occurs(t, tag, i) && |body| + |tag| == i + |tag| && forall k: nat :: k < i ==> !Occurs(t, tag, k);
      assert i == |body|;
    }
  }

  /**
   A block between two equal dollar tags is one token, whatever follows it, exactly when its closing tag is the first
   after the opening one; so semicolons, quotes and comments inside it cut nothing.
   */
  lemma DollarBlockIsOneTokenExactly(w: string, body: string, rest: string)
    requires IsWord(w)
    ensures TokenLen(Tag(w) + body + Tag(w) + rest) == |Tag(w) + body + Tag(w)| <==> ClosesFirst(body, Tag(w))
  {
    var t := Tag(w) + body + Tag(w) + rest;
    assert t == Tag(w) + (body + Tag(w) + rest);
    TagOfWord(w, body + Tag(w) + rest);
    assert t[0] == '$';
    ThroughBody(body, Tag(w), rest);
    assert !Starts(t, "--") && !Starts(t, "/*") by { assert |t| >= 2 ==> t[..2][0] == '$'; }
  }

  lemma OccursStarts(t: string, p: string, i: nat)
    requires p != [] && i < |t|
    ensures Occurs(t, p, i) ==> t[i] == p[0]
  {}

  /** A body without a dollar closes first; two tags in a row do not, when the outer dollars are shared. */
  lemma DollarFreeClosesFirst(w: string, body: string)
    requires '$' !in body
    ensures ClosesFirst(body, Tag(w))
  {
    forall i: nat | i < |body| ensures !Occurs(body + Tag(w), Tag(w), i) {
      assert body[i] in body;
      OccursStarts(body + Tag(w), Tag(w), i);
    }
  }

  lemma OverlappingTagClosesEarly()
    ensures !ClosesFirst("$a", Tag("a"))
  {
    var t := "$a" + Tag("a");
    assert t == "$a$a$" && Tag("a") == "$a$" && t[0..0 + 3] == "$a$";
    assert Occurs(t, Tag("a"), 0);
  }

  /** No position of such a block is a cut. */
  lemma NoCutInABlock(w: string, body: string, rest: string, p: nat)
    requires IsWord(w) && ClosesFirst(body, Tag(w)) && p < |Tag(w) + body + Tag(w)|
    ensures !CutAt(Tag(w) + body + Tag(w) + rest, p)
  {
    DollarBlockIsOneTokenExactly(w, body, rest);
  }

  /** A text that is one such block and nothing else is one statement. */
  lemma BlockIsOneStatement(w: string, body: string)
    requires IsWord(w) && ClosesFirst(body, Tag(w))
    ensures Split(Tag(w) + body + Tag(w)) == [Tag(w) + body + Tag(w)]
  {
    var t := Tag(w) + body + Tag(w);
    assert t + [] == t;
    DollarBlockIsOneTokenExactly(w, body, []);
    assert Raw([]) == [[]];
    assert t[|t|..] == [] && t[..|t|] + [] == t && Raw(t) == [t];
    UncutSplit(t);
    assert t[0] == '$' && t[|t| - 1] == '$';
    assert Trim(t) == t;
  }

  // ----- white space -----

  /** The white space and line ends of ECMAScript, by code point. */
  const WHITE: set<int> := {
    0x09, 0x0a, 0x0b, 0x0c, 0x0d, 0x20, 0xa0, 0x1680, 0x2000, 0x2001, 0x2002, 0x2003, 0x2004, 0x2005, 0x2006, 0x2007, 0x2008,
    0x2009, 0x200a, 0x2028, 0x2029, 0x202f, 0x205f, 0x3000, 0xfeff}

  predicate AllWhite(s: string) { forall i :: 0 <= i < |s| ==> s[i] as int in WHITE }

  /** `u` is `s` without the white space around it, and starts and ends with something else. */
  predicate Trimmed(s: string, u: string) {
    && (exists i: nat, j: nat :: i <= j <= |s| && u == s[i..j] && AllWhite(s[..i]) && AllWhite(s[j..]))
    && (u != [] ==> u[0] as int !in WHITE && u[|u| - 1] as int !in WHITE)
  }

  lemma SpaceIsWhite(c: char)
    ensures IsSpace(c) <==> c as int in WHITE
  {}

  lemma {:induction false} LeftIsWhite(s: string)
    ensures |TrimLeft(s)| <= |s| && AllWhite(s[..|s| - |TrimLeft(s)|])
  {
    if s != [] && IsSpace(s[0]) {
      LeftIsWhite(s[1..]);
      SpaceIsWhite(s[0]);
      var n := |s| - |TrimLeft(s)|;
      assert s[..n] == [s[0]] + s[1..][..n - 1];
    }
  }

  /** Statements lose exactly the white space around them. */
  lemma TrimIsExact(s: string)
    ensures Trimmed(s, Trim(s))
  {
    var l, u := TrimLeft(s), Trim(s);
    LeftIsWhite(s);
    TrimLeftParts(s);
    TrimRightParts(l);
    var i: nat := |s| - |l|;
    var j: nat := i + |u|;
    assert u == l[..|u|] == s[i..j];
    assert s[j..] == l[|u|..];
    forall k | 0 <= k < |s[j..]| ensures s[j..][k] as int in WHITE { SpaceIsWhite(s[j..][k]); }
    if u != [] {
      assert u[0] == l[0];
      SpaceIsWhite(u[0]);
      SpaceIsWhite(u[|u| - 1]);
    }
  }
}
