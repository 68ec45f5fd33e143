/**
 What the caption splitter prefers, written out: the price of a cue by its length and its last
 character, the price of a line break by its balance and the word it leaves hanging, and the phrases
 that are shown other than they are spoken.
 */
module CaptionPrices {
  import opened Captions

  // ----- the price of a cue -----

  predicate Ends(piece: string, marks: string) { piece != "" && piece[|piece| - 1] in marks }

  /** What the length alone costs, in hundredths: its distance from 62 characters squared, and 6 for each one short of 25. */
  function LengthPrice(n: nat): int { (n - 62) * (n - 62) + (if n < 25 then 600 * (25 - n) else 0) }

  /** A cue costs what its length costs, 40 less when it ends a sentence, 15 less at a comma, colon or semicolon, and 30 more otherwise. */
  lemma ScoreWrittenOut(piece: string)
    ensures Score(piece) == LengthPrice(|piece|) as real / 100.0
                            + (if Ends(piece, ".!?") then -40.0 else if Ends(piece, ",:;") then -15.0 else 30.0)
  {
    assert EndsWith(piece, {'.', '!', '?'}) <==> Ends(piece, ".!?");
    assert EndsWith(piece, {',', ':', ';'}) <==> Ends(piece, ",:;");
    var n := |piece|;
    var d := (n - 62) as real;
    assert (d / 10.0) * (d / 10.0) == d * d / 100.0;
    assert d * d == ((n - 62) * (n - 62)) as real;
  }

  /** So of two cues of one length the one that ends a sentence is preferred to a comma, and a comma to neither. */
  lemma StopsArePreferred(a: string, b: string)
    requires |a| == |b|
    ensures Ends(a, ".!?") && Ends(b, ",:;") ==> Score(a) == Score(b) - 25.0
    ensures Ends(a, ",:;") && !Ends(b, ".!?,:;") ==> Score(a) == Score(b) - 45.0
  {
    ScoreWrittenOut(a);
    ScoreWrittenOut(b);
  }

  // ----- the price of a line break -----

  /** The word in front of position `i`: what stands between it and the last space before it. */
  predicate WordBefore(t: string, i: nat, word: string) {
    i <= |t| && |word| <= i && t[i - |word|..i] == word && ' ' !in word && (|word| < i ==> t[i - |word| - 1] == ' ')
  }

  /** The same letters, small. */
  predicate Small(word: string, low: string) {
    |low| == |word| && forall k :: 0 <= k < |word| ==>
      low[k] == if 'A' <= word[k] <= 'Z' then word[k] as int as char + 32 as char else word[k]
  }

  lemma {:induction false} LastWordIsBefore(s: string)
    ensures var w := LastWord(s); |w| <= |s| && s[|s| - |w|..] == w && ' ' !in w && (|w| < |s| ==> s[|s| - |w| - 1] == ' ')
  {
    if s != [] && s[|s| - 1] != ' ' {
      var init, c := s[..|s| - 1], s[|s| - 1];
      LastWordIsBefore(init);
      var w := LastWord(init);
      assert LastWord(s) == w + [c];
      hide LastWord;
      assert s == init + [c];
      assert s[|s| - |w| - 1..] == init[|init| - |w|..] + [c];
    }
  }

  lemma {:induction false} LowerIsSmall(s: string)
    ensures Small(s, Lower(s))
  {
    if s != [] {
      LowerIsSmall(s[1..]);
      var l := Lower(s[1..]);
      forall k | 0 <= k < |s| ensures Lower(s)[k] == if 'A' <= s[k] <= 'Z' then s[k] as int as char + 32 as char else s[k] {
        if k > 0 { assert s[k] == s[1..][k - 1] && Lower(s)[k] == l[k - 1]; }
      }
    }
  }

  /**
   A break at a space costs the difference of the two lines' lengths, and 40 more when the first line would end in an
   article, a preposition or "and", however written.
   */
  lemma ImbalanceWrittenOut(t: string, i: nat) returns (word: string, low: string)
    requires i < |t|
    ensures WordBefore(t, i, word) && Small(word, low)
    ensures Imbalance(t, i)
            == (if i > |t| - i - 1 then i - (|t| - i - 1) else |t| - i - 1 - i)
               + (if low in ["a", "an", "the", "of", "to", "in", "on", "at", "and", "by", "for", "from"] then 40 else 0)
  {
    var s := t[..i];
    word, low := LastWord(s), Lower(LastWord(s));
    LastWordIsBefore(s);
    LowerIsSmall(word);
    assert t[i - |word|..i] == s[|s| - |word|..];
    assert low in DANGLING <==> low in ["a", "an", "the", "of", "to", "in", "on", "at", "and", "by", "for", "from"];
  }

  // ----- what is shown -----

  predicate At(t: string, p: string, i: nat) { i + |p| <= |t| && t[i..i + |p|] == p }

  /** Where the phrase does not occur, nothing changes. */
  lemma {:induction false} ReplaceNothing(t: string, a: string, b: string)
    requires a != [] && forall i: nat :: !At(t, a, i)
    ensures Replace(t, a, b) == t
  {
    if |a| <= |t| {
      assert !At(t, a, 0);
      assert t[0..0 + |a|] == t[..|a|];
      forall i: nat ensures !At(t[1..], a, i) {
        AtTail(t, a, i);
        assert !At(t, a, i + 1);
      }
      ReplaceNothing(t[1..], a, b);
    }
  }

  lemma Joins(whole: string, tail: string, x: string, y: string, b: string, z: string)
    requires whole == x + tail && tail == y + b + z
    ensures whole == (x + y) + b + z
  {
    assert x + (y + b) == (x + y) + b;
  }

  lemma FirstOfAll(t: string, n: nat)
    requires 0 < n <= |t|
    ensures [t[0]] + t[1..][..n - 1] == t[..n]
  {}

  /** Otherwise its first occurrence is replaced, what is in front of it stays, and what follows is treated alike. */
  lemma {:induction false} ReplaceFirst(t: string, a: string, b: string, n: nat)
    requires a != [] && At(t, a, n) && forall i: nat :: i < n ==> !At(t, a, i)
    ensures Replace(t, a, b) == t[..n] + b + Replace(t[n + |a|..], a, b)
  {
    hide Replace;
    ReplaceStep(t, a, b);
    if n == 0 {
      assert t[..0] + b == b;
    } else {
      assert !At(t, a, 0);
      TailAt(t, a, n);
      var u := t[1..];
      hide At;
      ReplaceFirst(u, a, b, n - 1);
      Joins(Replace(t, a, b), Replace(u, a, b), [t[0]], u[..n - 1], b, Replace(t[n + |a|..], a, b));
      FirstOfAll(t, n);
    }
  }

  lemma TailAt(t: string, a: string, n: nat)
    requires a != [] && n > 0 && At(t, a, n) && forall i: nat :: i < n ==> !At(t, a, i)
    ensures At(t[1..], a, n - 1) && (forall i: nat :: i < n - 1 ==> !At(t[1..], a, i)) && t[1..][n - 1 + |a|..] == t[n + |a|..]
  {
    AtTail(t, a, n - 1);
    forall i: nat | i < n - 1 ensures !At(t[1..], a, i) { AtTail(t, a, i); }
  }

  lemma AtTail(t: string, a: string, i: nat)
    requires t != []
    ensures At(t[1..], a, i) <==> At(t, a, i + 1)
  {
    if i + 1 + |a| <= |t| { assert t[1..][i..i + |a|] == t[i + 1..i + 1 + |a|]; }
  }

  lemma ReplaceStep(t: string, a: string, b: string)
    requires a != [] && |a| <= |t|
    ensures Replace(t, a, b) == if At(t, a, 0) then b + Replace(t[|a|..], a, b) else [t[0]] + Replace(t[1..], a, b)
  {
    assert t[0..0 + |a|] == t[..|a|];
  }

  ghost predicate Lacks(t: string, phrase: string) { forall i: nat :: !At(t, phrase, i) }

  ghost predicate Plain(t: string) { Lacks(t, "D Twin") && Lacks(t, "Lang Graph") && Lacks(t, "level three") }

  /** A text without the three phrases is shown as it is spoken. */
  lemma PlainIsShownAsIs(t: string)
    requires Plain(t)
    ensures Display(t) == t
  {
    ReplaceNothing(t, "D Twin", "DTwin");
    ReplaceNothing(t, "Lang Graph", "LangGraph");
    ReplaceNothing(t, "level three", "Level\U{a0}3");
  }

  /** How a phrase is written on the screen; the no-break space keeps the level's number with it. */
  function Written(phrase: string): string {
    if phrase == "D Twin" then "DTwin" else if phrase == "Lang Graph" then "LangGraph" else "Level\U{a0}3"
  }

  lemma {:induction false} OnlyOneReplaced(t: string, a: string, b: string, n: nat)
    requires a != [] && At(t, a, n) && (forall i: nat :: i < n ==> !At(t, a, i)) && Lacks(t[n + |a|..], a)
    ensures Replace(t, a, b) == t[..n] + b + t[n + |a|..]
  {
    ReplaceFirst(t, a, b, n);
    ReplaceNothing(t[n + |a|..], a, b);
  }

  /** A text with one of the three phrases, once, is shown with that phrase as it is written, and nothing else changed. */
  lemma PhraseIsShownAsWritten(t: string, phrase: string, n: nat)
    requires phrase in ["D Twin", "Lang Graph", "level three"]
    requires At(t, phrase, n) && (forall i: nat :: i < n ==> !At(t, phrase, i)) && Lacks(t[n + |phrase|..], phrase)
    requires var shown := t[..n] + Written(phrase) + t[n + |phrase|..];
             && (phrase != "D Twin" ==> Lacks(t, "D Twin")) && (phrase == "level three" ==> Lacks(t, "Lang Graph"))
             && (phrase != "level three" ==> Lacks(shown, "level three")) && (phrase == "D Twin" ==> Lacks(shown, "Lang Graph"))
    ensures Display(t) == t[..n] + Written(phrase) + t[n + |phrase|..]
  {
    hide Replace;
    var shown := t[..n] + Written(phrase) + t[n + |phrase|..];
    OnlyOneReplaced(t, phrase, Written(phrase), n);
    if phrase == "D Twin" {
      ReplaceNothing(shown, "Lang Graph", "LangGraph");
      ReplaceNothing(shown, "level three", "Level\U{a0}3");
    } else if phrase == "Lang Graph" {
      ReplaceNothing(t, "D Twin", "DTwin");
      ReplaceNothing(shown, "level three", "Level\U{a0}3");
    } else {
      ReplaceNothing(t, "D Twin", "DTwin");
      ReplaceNothing(t, "Lang Graph", "LangGraph");
    }
  }
}
