/**
 * The Python string operations the parsers rely on: `str.split()` on whitespace, `str.split(sep)`,
 * `str.strip()`, `sep.join(parts)`, right-aligned padding and `str(int)`.
 */
module PyStr {
  import opened Seqs
  import Whitespace

  /** Python's `str.isspace` for one character: the characters `split()` and `strip()` remove. */
  predicate IsSpace(c: char)
  {
    || c == ' ' || c == '\t' || c == '\n' || c == '\r' || c == '\U{0b}' || c == '\U{0c}'
    || c == '\U{1c}' || c == '\U{1d}' || c == '\U{1e}' || c == '\U{1f}'
    || c == '\U{85}' || c == '\U{a0}' || c == '\U{1680}'
    || ('\U{2000}' <= c <= '\U{200a}')
    || c == '\U{2028}' || c == '\U{2029}' || c == '\U{202f}' || c == '\U{205f}' || c == '\U{3000}'
  }

  predicate AllSpace(s: string) { forall i :: 0 <= i < |s| ==> IsSpace(s[i]) }

  /** A non-empty run of non-whitespace characters: what `split()` returns each element as. */
  predicate IsWord(s: string) { s != [] && forall i :: 0 <= i < |s| ==> !IsSpace(s[i]) }

  /** `s.split()`: the maximal runs of non-whitespace characters, in order. */
  function Tokens(s: string): (r: seq<string>)
    ensures s != [] && !IsSpace(s[0]) ==> r != [] && r[0] != [] && r[0][0] == s[0]
    ensures forall j :: 0 <= j < |r| ==> IsWord(r[j])
  {
    Whitespace.Tokens(IsSpace, s)
  }

  /** Splitting a concatenation at whitespace splits the parts. */
  lemma {:induction false} TokensAppend(a: string, b: string)
    requires a == [] || b == [] || IsSpace(a[|a| - 1]) || IsSpace(b[0])
    ensures Tokens(a + b) == Tokens(a) + Tokens(b)
    decreases |a|
  {
    if a == [] {
      assert a + b == b;
    } else {
      assert a[1..] == [] || b == [] || IsSpace(a[1..][|a[1..]| - 1]) || IsSpace(b[0]);
      TokensAppend(a[1..], b);
      TokensCons(a, b);
    }
  }

  /** The step of `TokensAppend`: the first character joins or starts the first word on both sides. */
  lemma TokensCons(a: string, b: string)
    requires a != [] && (b == [] || IsSpace(a[|a| - 1]) || IsSpace(b[0]))
    requires Tokens(a[1..] + b) == Tokens(a[1..]) + Tokens(b)
    ensures Tokens(a + b) == Tokens(a) + Tokens(b)
  {
    TailOfAppend(a, b);
    if IsSpace(a[0]) {
      TokensConsSpace(a, b);
    } else if |a| == 1 {
      TokensConsSingle(a, b);
    } else {
      assert (a + b)[1] == a[1];
      TokensConsWord(a, b);
    }
  }

  /** Leading whitespace is dropped on both sides. */
  lemma TokensConsSpace(a: string, b: string)
    requires a != [] && IsSpace(a[0]) && (a + b)[0] == a[0] && (a + b)[1..] == a[1..] + b
    requires Tokens(a[1..] + b) == Tokens(a[1..]) + Tokens(b)
    ensures Tokens(a + b) == Tokens(a) + Tokens(b)
  {
  }

  /** A one-character `a` is a word of its own, as `b` is empty or starts with whitespace. */
  lemma TokensConsSingle(a: string, b: string)
    requires |a| == 1 && !IsSpace(a[0]) && (b == [] || IsSpace(b[0]))
    ensures Tokens(a + b) == Tokens(a) + Tokens(b)
  {
    var s := a + b;
    TailOfAppend(a, b);
    assert a[1..] == [] && s[1..] == b;
    assert b != [] ==> s[1] == b[0];
    assert a == [a[0]];
    assert Tokens(s) == [[a[0]]] + Tokens(b);
    assert Tokens(a) == [[a[0]]] + Tokens([]);
  }

  /** The first character of `a` starts its first word, which may go on into the second character. */
  lemma TokensConsWord(a: string, b: string)
    requires |a| >= 2 && !IsSpace(a[0]) && (a + b)[1] == a[1] && (a + b)[1..] == a[1..] + b
    requires Tokens(a[1..] + b) == Tokens(a[1..]) + Tokens(b)
    ensures Tokens(a + b) == Tokens(a) + Tokens(b)
  {
    var s, a' := a + b, a[1..];
    var ta, tb := Tokens(a'), Tokens(b);
    if IsSpace(a[1]) {
      assert Tokens(s) == [[a[0]]] + (ta + tb);
      ConsAppend([a[0]], ta, tb);
    } else {
      TailOfAppend(ta, tb);
      assert Tokens(s) == [[a[0]] + ta[0]] + (ta[1..] + tb);
      ConsAppend([a[0]] + ta[0], ta[1..], tb);
    }
  }

  /** A word splits into itself. */
  lemma {:induction false} TokensWord(w: string)
    requires IsWord(w)
    ensures Tokens(w) == [w]
    decreases |w|
  {
    if |w| > 1 {
      TokensWord(w[1..]);
      assert Tokens(w) == [[w[0]] + w[1..]];
      assert w == [w[0]] + w[1..];
    } else {
      assert w[1..] == [] && w == [w[0]];
    }
  }

  /** Whitespace alone splits into nothing. */
  lemma {:induction false} TokensSpace(s: string)
    requires AllSpace(s)
    ensures Tokens(s) == []
  {
    if s != [] {
      TokensSpace(s[1..]);
    }
  }

  /** `s.lstrip()` */
  function LStrip(s: string): (r: string)
    ensures |r| <= |s| && r == s[|s| - |r|..]
    ensures AllSpace(s[..|s| - |r|])
    ensures r == [] || !IsSpace(r[0])
  {
    Whitespace.LStrip(IsSpace, s)
  }

  /** `s.rstrip()` */
  function RStrip(s: string): (r: string)
    ensures |r| <= |s| && r == s[..|r|]
    ensures AllSpace(s[|r|..])
    ensures r == [] || !IsSpace(r[|r| - 1])
  {
    Whitespace.RStrip(IsSpace, s)
  }

  /** `s.strip()` */
  function Strip(s: string): string
  {
    RStrip(LStrip(s))
  }

  /** Stripping leaves the whitespace split unchanged. */
  lemma TokensStrip(s: string)
    ensures Tokens(Strip(s)) == Tokens(s)
  {
    var l := LStrip(s);
    var r := RStrip(l);
    var lead := s[..|s| - |l|];
    var trail := l[|r|..];
    SplitAt(l, |r|);
    SplitAt(s, |s| - |l|);
    TokensAppend(r, trail);
    TokensAppend(lead, l);
    TokensSpace(lead);
    TokensSpace(trail);
  }

  /** A string that neither starts nor ends with whitespace is its own strip. */
  lemma StripTrimmed(s: string)
    requires s == [] || (!IsSpace(s[0]) && !IsSpace(s[|s| - 1]))
    ensures Strip(s) == s
  {
  }

  /** Leading whitespace is removed by strip. */
  lemma StripLeading(p: string, s: string)
    requires AllSpace(p) && (s == [] || (!IsSpace(s[0]) && !IsSpace(s[|s| - 1])))
    ensures Strip(p + s) == s
    decreases |p|
  {
    if p != [] {
      assert (p + s)[1..] == p[1..] + s;
      StripLeading(p[1..], s);
    }
  }

  /** `n` copies of `c`. */
  function Repeat(c: char, n: nat): (r: string)
    ensures |r| == n && forall i :: 0 <= i < n ==> r[i] == c
  {
    if n == 0 then [] else [c] + Repeat(c, n - 1)
  }

  /** `format(s, "{fill}>{width}")`: right-aligned in a field of at least `width` characters. */
  function PadLeft(s: string, width: nat, fill: char): (r: string)
    ensures |r| == if |s| >= width then |s| else width
    ensures r == Repeat(fill, |r| - |s|) + s
  {
    if |s| >= width then s else Repeat(fill, width - |s|) + s
  }

  /** The position of the first `c` in `s`. */
  function IndexOf(s: string, c: char): (i: nat)
    requires c in s
    ensures i < |s| && s[i] == c && c !in s[..i]
  {
    if s[0] == c then 0 else 1 + IndexOf(s[1..], c)
  }

  /** The first `c` is at `k` when `s[k]` is `c` and no `c` comes before it. */
  lemma {:induction false} IndexOfAt(s: string, c: char, k: nat)
    requires k < |s| && s[k] == c && c !in s[..k]
    ensures IndexOf(s, c) == k
  {
    if k > 0 {
      assert s[0] == s[..k][0];
      assert s[1..][..k - 1] == s[..k][1..];
      IndexOfAt(s[1..], c, k - 1);
    }
  }

  /** `s.split(c)` for a one-character separator: never empty, and no piece contains `c`. */
  function Split(s: string, c: char): (r: seq<string>)
    ensures |r| >= 1
    ensures forall j :: 0 <= j < |r| ==> c !in r[j]
    decreases |s|
  {
    if c !in s then [s]
    else
      var i := IndexOf(s, c);
      [s[..i]] + Split(s[i + 1..], c)
  }

  /** `sep.join(parts)` */
  function Join(sep: string, parts: seq<string>): string
  {
    if parts == [] then ""
    else if |parts| == 1 then parts[0]
    else parts[0] + sep + Join(sep, parts[1..])
  }

  lemma JoinCons(sep: string, head: string, rest: seq<string>)
    requires rest != []
    ensures Join(sep, [head] + rest) == head + sep + Join(sep, rest)
  {
    TailOfAppend([head], rest);
  }

  /** Splitting what was joined on a separator the parts do not contain gives the parts back. */
  lemma {:induction false} SplitJoin(parts: seq<string>, c: char)
    requires |parts| >= 1
    requires forall j :: 0 <= j < |parts| ==> c !in parts[j]
    ensures Split(Join([c], parts), c) == parts
  {
    if |parts| > 1 {
      var s := Join([c], parts);
      var rest := Join([c], parts[1..]);
      assert s == parts[0] + [c] + rest;
      assert c in s by {
        assert s[|parts[0]|] == c;
      }
      var i := IndexOf(s, c);
      assert i == |parts[0]|;
      assert s[..i] == parts[0];
      assert s[i + 1..] == rest;
      SplitJoin(parts[1..], c);
    }
  }

  /** Every piece of a split is a segment of the original, and the pieces joined back give it. */
  lemma {:induction false} JoinSplit(s: string, c: char)
    ensures Join([c], Split(s, c)) == s
    decreases |s|
  {
    if c in s {
      var i := IndexOf(s, c);
      JoinSplit(s[i + 1..], c);
      AroundAt(s, i);
      JoinCons([c], s[..i], Split(s[i + 1..], c));
    }
  }

  /** The text before the first `c`, or all of `s`: `s.split(c)[0]`. */
  lemma SplitHead(s: string, c: char)
    ensures Split(s, c)[0] == if c in s then s[..IndexOf(s, c)] else s
  {
  }

  /** The decimal digits of a natural number, as `str` prints it. */
  function NatDigits(n: nat): (r: string)
    ensures |r| >= 1 && forall i :: 0 <= i < |r| ==> '0' <= r[i] <= '9'
  {
    if n < 10 then [('0' as int + n) as char] else NatDigits(n / 10) + [('0' as int + n % 10) as char]
  }

  /** `str(n)` for an integer. */
  function IntToString(n: int): (r: string)
    ensures r != [] && forall i :: 0 <= i < |r| ==> !IsSpace(r[i])
  {
    if n < 0 then "-" + NatDigits(-n) else NatDigits(n)
  }
}
