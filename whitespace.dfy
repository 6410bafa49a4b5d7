/**
 * `str.split()` and `str.strip()` without arguments, for a given whitespace predicate `sp`. Python 3
 * text and Python 2 byte strings differ only in which characters count as whitespace.
 */
module Whitespace {
  predicate AllSpace(sp: char -> bool, s: string) { forall i :: 0 <= i < |s| ==> sp(s[i]) }

  /** A non-empty run of non-whitespace characters: what `split()` returns each element as. */
  predicate IsWord(sp: char -> bool, s: string) { s != [] && forall i :: 0 <= i < |s| ==> !sp(s[i]) }

  /** `s.split()`: the maximal runs of non-whitespace characters, in order. */
  function Tokens(sp: char -> bool, s: string): (r: seq<string>)
    ensures s != [] && !sp(s[0]) ==> r != [] && r[0] != [] && r[0][0] == s[0]
    ensures forall j :: 0 <= j < |r| ==> IsWord(sp, r[j])
  {
    if s == [] then []
    else if sp(s[0]) then Tokens(sp, s[1..])
    else if |s| > 1 && !sp(s[1]) then
      var t := Tokens(sp, s[1..]);
      [[s[0]] + t[0]] + t[1..]
    else [[s[0]]] + Tokens(sp, s[1..])
  }

  /** `s.lstrip()` */
  function LStrip(sp: char -> bool, s: string): (r: string)
    ensures |r| <= |s| && r == s[|s| - |r|..]
    ensures AllSpace(sp, s[..|s| - |r|])
    ensures r == [] || !sp(r[0])
  {
    if s != [] && sp(s[0]) then LStrip(sp, s[1..]) else s
  }

  /** `s.rstrip()` */
  function RStrip(sp: char -> bool, s: string): (r: string)
    ensures |r| <= |s| && r == s[..|r|]
    ensures AllSpace(sp, s[|r|..])
    ensures r == [] || !sp(r[|r| - 1])
  {
    if s != [] && sp(s[|s| - 1]) then RStrip(sp, s[..|s| - 1]) else s
  }

  /** `s.strip()` */
  function Strip(sp: char -> bool, s: string): string
  {
    RStrip(sp, LStrip(sp, s))
  }

  /** Two whitespace predicates that classify every character of `s` alike. */
  predicate AgreeOn(sp: char -> bool, sq: char -> bool, s: string)
  {
    forall i :: 0 <= i < |s| ==> sp(s[i]) == sq(s[i])
  }

  lemma AgreeOnSlice(sp: char -> bool, sq: char -> bool, s: string, lo: nat, hi: nat)
    requires AgreeOn(sp, sq, s) && lo <= hi <= |s|
    ensures AgreeOn(sp, sq, s[lo..hi])
  {
    forall i | 0 <= i < hi - lo
      ensures sp(s[lo..hi][i]) == sq(s[lo..hi][i])
    {
      assert s[lo..hi][i] == s[lo + i];
    }
  }

  /** Predicates that agree on `s` split it alike. */
  lemma {:induction false} TokensAgree(sp: char -> bool, sq: char -> bool, s: string)
    requires AgreeOn(sp, sq, s)
    ensures Tokens(sp, s) == Tokens(sq, s)
    decreases |s|
  {
    if s != [] {
      AgreeOnSlice(sp, sq, s, 1, |s|);
      TokensAgree(sp, sq, s[1..]);
    }
  }

  /** Predicates that agree on `s` left-strip it alike. */
  lemma {:induction false} LStripAgree(sp: char -> bool, sq: char -> bool, s: string)
    requires AgreeOn(sp, sq, s)
    ensures LStrip(sp, s) == LStrip(sq, s)
    decreases |s|
  {
    if s != [] && sp(s[0]) {
      AgreeOnSlice(sp, sq, s, 1, |s|);
      LStripAgree(sp, sq, s[1..]);
    }
  }

  /** Predicates that agree on `s` right-strip it alike. */
  lemma {:induction false} RStripAgree(sp: char -> bool, sq: char -> bool, s: string)
    requires AgreeOn(sp, sq, s)
    ensures RStrip(sp, s) == RStrip(sq, s)
    decreases |s|
  {
    if s != [] && sp(s[|s| - 1]) {
      AgreeOnSlice(sp, sq, s, 0, |s| - 1);
      RStripAgree(sp, sq, s[..|s| - 1]);
    }
  }

  /**
   * `split()` and `strip()` depend only on how the characters actually present are classified:
   * predicates that agree on `s` give the same tokens and the same stripped text.
   */
  lemma Agree(sp: char -> bool, sq: char -> bool, s: string)
    requires AgreeOn(sp, sq, s)
    ensures Tokens(sp, s) == Tokens(sq, s)
    ensures Strip(sp, s) == Strip(sq, s)
  {
    TokensAgree(sp, sq, s);
    LStripAgree(sp, sq, s);
    var l := LStrip(sp, s);
    AgreeOnSlice(sp, sq, s, |s| - |l|, |s|);
    RStripAgree(sp, sq, l);
  }
}
