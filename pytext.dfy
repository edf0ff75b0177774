/** The pieces of Python's string and path behaviour that the indexer relies on:
    `str.split()` with no argument, `" ".join`, `str(int)`, slicing `s[:n]`
    and `pathlib.Path(p).name` / `.stem`. */
module PyText {

  function Min(a: int, b: int): int
  {
    if a <= b then a else b
  }

  /** Python's `s[:n]` for n >= 0: the first n items, or all of s when it is shorter. */
  function Prefix<T>(s: seq<T>, n: nat): (p: seq<T>)
    ensures |p| == Min(n, |s|)
    ensures p <= s
  {
    s[..Min(n, |s|)]
  }

  /** Concatenation of a sequence of sequences, in order. */
  function Flatten<T>(xss: seq<seq<T>>): seq<T>
  {
    if xss == [] then [] else xss[0] + Flatten(xss[1..])
  }

  lemma {:induction false} FlattenAppend<T>(xss: seq<seq<T>>, yss: seq<seq<T>>)
    ensures Flatten(xss + yss) == Flatten(xss) + Flatten(yss)
    decreases |xss|
  {
    if xss == [] {
      assert xss + yss == yss;
    } else {
      assert (xss + yss)[1..] == xss[1..] + yss;
      FlattenAppend(xss[1..], yss);
    }
  }

  /** The concatenation of f(x) over the items x of xs, in order. */
  function FlatMap<A, B>(xs: seq<A>, f: A -> seq<B>): seq<B>
  {
    Flatten(seq(|xs|, i requires 0 <= i < |xs| => f(xs[i])))
  }

  lemma FlatMapAppend<A, B>(xs: seq<A>, ys: seq<A>, f: A -> seq<B>)
    ensures FlatMap(xs + ys, f) == FlatMap(xs, f) + FlatMap(ys, f)
  {
    var front := seq(|xs|, i requires 0 <= i < |xs| => f(xs[i]));
    var back := seq(|ys|, i requires 0 <= i < |ys| => f(ys[i]));
    assert seq(|xs + ys|, i requires 0 <= i < |xs + ys| => f((xs + ys)[i])) == front + back;
    FlattenAppend(front, back);
  }

  /** An item that maps to nothing can be dropped from a FlatMap. */
  lemma FlatMapSkip<A, B>(before: seq<A>, x: A, after: seq<A>, f: A -> seq<B>)
    requires f(x) == []
    ensures FlatMap(before + [x] + after, f) == FlatMap(before + after, f)
  {
    FlatMapAppend(before + [x], after, f);
    FlatMapSnoc(before, x, f);
    FlatMapAppend(before, after, f);
  }

  lemma FlatMapSnoc<A, B>(xs: seq<A>, x: A, f: A -> seq<B>)
    ensures FlatMap(xs + [x], f) == FlatMap(xs, f) + f(x)
  {
    var front := seq(|xs|, i requires 0 <= i < |xs| => f(xs[i]));
    assert seq(|xs + [x]|, i requires 0 <= i < |xs + [x]| => f((xs + [x])[i])) == front + [f(x)];
    FlattenAppend(front, [f(x)]);
    assert Flatten([f(x)]) == f(x) + Flatten([]);
  }

  // ---------------------------------------------------------------------------
  // str.split() and " ".join(...)
  // ---------------------------------------------------------------------------

  /** The characters for which Python's `str.isspace()` holds; `str.split()` with
      no separator splits on runs of exactly these. */
  predicate IsSpace(c: char)
  {
    ('\t' <= c <= '\r') || ('\U{1C}' <= c <= ' ') || c == '\U{85}' || c == '\U{A0}'
    || c == '\U{1680}' || ('\U{2000}' <= c <= '\U{200A}') || c == '\U{2028}'
    || c == '\U{2029}' || c == '\U{202F}' || c == '\U{205F}' || c == '\U{3000}'
  }

  /** A token `str.split()` can produce: non-empty, with no whitespace in it. */
  predicate IsWord(w: string)
  {
    w != [] && forall i :: 0 <= i < |w| ==> !IsSpace(w[i])
  }

  /** Every item of ws is a word. */
  predicate AllWords(ws: seq<string>)
  {
    forall i :: 0 <= i < |ws| ==> IsWord(ws[i])
  }

  /** Length of the longest whitespace-free prefix of s. */
  function WordLength(s: string): (n: nat)
    ensures n <= |s|
    ensures forall i :: 0 <= i < n ==> !IsSpace(s[i])
    ensures n < |s| ==> IsSpace(s[n])
  {
    if s == [] || IsSpace(s[0]) then 0 else 1 + WordLength(s[1..])
  }

  /** Python's `s.split()`: the maximal whitespace-free runs of s, in order;
      leading and trailing whitespace produce nothing. */
  function Split(s: string): (words: seq<string>)
    ensures AllWords(words)
    decreases |s|
  {
    if s == [] then []
    else if IsSpace(s[0]) then Split(s[1..])
    else
      var n := WordLength(s);
      [s[..n]] + Split(s[n..])
  }

  /** The characters of s that are not whitespace, in order. */
  function NonSpace(s: string): string
  {
    if s == [] then [] else (if IsSpace(s[0]) then [] else [s[0]]) + NonSpace(s[1..])
  }

  lemma {:induction false} NonSpaceAppend(a: string, b: string)
    ensures NonSpace(a + b) == NonSpace(a) + NonSpace(b)
    decreases |a|
  {
    if a == [] {
      assert a + b == b;
    } else {
      var head := if IsSpace(a[0]) then [] else [a[0]];
      assert (a + b)[0] == a[0] && (a + b)[1..] == a[1..] + b;
      NonSpaceAppend(a[1..], b);
      calc {
        NonSpace(a + b);
        head + NonSpace(a[1..] + b);
        head + (NonSpace(a[1..]) + NonSpace(b));
        NonSpace(a) + NonSpace(b);
      }
    }
  }

  lemma {:induction false} NonSpaceOfWord(w: string)
    requires forall i :: 0 <= i < |w| ==> !IsSpace(w[i])
    ensures NonSpace(w) == w
    decreases |w|
  {
    if w != [] {
      NonSpaceOfWord(w[1..]);
    }
  }

  /** Splitting drops only whitespace: the words, glued back together, are
      exactly the non-whitespace characters of s, in their original order. */
  lemma {:induction false} SplitKeepsEveryCharacter(s: string)
    ensures Flatten(Split(s)) == NonSpace(s)
    decreases |s|
  {
    if s == [] {
    } else if IsSpace(s[0]) {
      SplitKeepsEveryCharacter(s[1..]);
    } else {
      var n := WordLength(s);
      assert s == s[..n] + s[n..];
      NonSpaceAppend(s[..n], s[n..]);
      NonSpaceOfWord(s[..n]);
      SplitKeepsEveryCharacter(s[n..]);
      assert Split(s) == [s[..n]] + Split(s[n..]);
      assert ([s[..n]] + Split(s[n..]))[1..] == Split(s[n..]);
    }
  }

  /** Python's `" ".join(words)`. */
  function Join(words: seq<string>): string
  {
    if |words| == 0 then ""
    else if |words| == 1 then words[0]
    else words[0] + " " + Join(words[1..])
  }

  lemma {:induction false} WordLengthOfWord(w: string, rest: string)
    requires forall i :: 0 <= i < |w| ==> !IsSpace(w[i])
    requires rest == [] || IsSpace(rest[0])
    ensures WordLength(w + rest) == |w|
    decreases |w|
  {
    if w == [] {
      assert w + rest == rest;
    } else {
      assert (w + rest)[1..] == w[1..] + rest;
      WordLengthOfWord(w[1..], rest);
    }
  }

  lemma SplitOneWord(w: string)
    requires IsWord(w)
    ensures Split(w) == [w]
  {
    WordLengthOfWord(w, []);
    assert w + [] == w;
    assert w[|w|..] == [];
  }

  /** A word followed by one whitespace character splits off as the first word. */
  lemma SplitWordThenSeparator(w: string, c: char, rest: string)
    requires IsWord(w) && IsSpace(c)
    ensures Split(w + [c] + rest) == [w] + Split(rest)
  {
    var s := w + [c] + rest;
    assert s == w + ([c] + rest);
    WordLengthOfWord(w, [c] + rest);
    assert s[..|w|] == w;
    assert s[|w|..] == [c] + rest;
    assert ([c] + rest)[1..] == rest;
  }

  /** `" ".join` and `str.split()` are inverse on lists of tokens: splitting the
      joined text gives back exactly the same words. */
  lemma {:induction false} SplitJoin(words: seq<string>)
    requires AllWords(words)
    ensures Split(Join(words)) == words
    decreases |words|
  {
    if |words| == 1 {
      SplitOneWord(words[0]);
    } else if |words| > 1 {
      SplitWordThenSeparator(words[0], ' ', Join(words[1..]));
      SplitJoin(words[1..]);
    }
  }

  // ---------------------------------------------------------------------------
  // str(n) for a non-negative int
  // ---------------------------------------------------------------------------

  function DigitChar(d: nat): char
    requires d < 10
  {
    "0123456789"[d]
  }

  /** Python's `str(n)` for n >= 0: decimal digits, no leading zeros. */
  function NatToString(n: nat): (s: string)
    ensures 1 <= |s|
    ensures forall i :: 0 <= i < |s| ==> '0' <= s[i] <= '9'
  {
    if n < 10 then [DigitChar(n)] else NatToString(n / 10) + [DigitChar(n % 10)]
  }

  /** Python's `int(s)` on a string of decimal digits. */
  function ParseNat(s: string): nat
    requires forall i :: 0 <= i < |s| ==> '0' <= s[i] <= '9'
  {
    if s == [] then 0
    else ParseNat(s[..|s| - 1]) * 10 + (s[|s| - 1] as int - '0' as int)
  }

  /** `int(str(n)) == n`. */
  lemma {:induction false} ParseNatToString(n: nat)
    ensures ParseNat(NatToString(n)) == n
    decreases n
  {
    var s := NatToString(n);
    if n >= 10 {
      ParseNatToString(n / 10);
      assert s[..|s| - 1] == NatToString(n / 10);
    }
  }

  /** Distinct numbers print differently. */
  lemma NatToStringInjective(a: nat, b: nat)
    requires NatToString(a) == NatToString(b)
    ensures a == b
  {
    ParseNatToString(a);
    ParseNatToString(b);
  }

  // ---------------------------------------------------------------------------
  // pathlib.Path(p).name and .stem
  // ---------------------------------------------------------------------------

  /** `s.rfind(c)`: the last index holding c, or -1. */
  function RFind(s: string, c: char): (i: int)
    ensures -1 <= i < |s|
    ensures 0 <= i ==> s[i] == c
    ensures forall j :: i < j < |s| ==> s[j] != c
  {
    if s == [] then -1
    else if s[|s| - 1] == c then |s| - 1
    else RFind(s[..|s| - 1], c)
  }

  /** `Path(p).name`: the final component, the text after the last '/'. */
  function FileName(path: string): (name: string)
    ensures '/' !in name
    ensures |name| <= |path| && path == path[..|path| - |name|] + name
  {
    path[RFind(path, '/') + 1..]
  }

  /** `Path(p).stem`: the name without its suffix, where the suffix starts at the
      last '.' of the name unless that dot is the name's first or last character. */
  function FileStem(path: string): (stem: string)
    ensures stem <= FileName(path)
  {
    var name := FileName(path);
    var i := RFind(name, '.');
    if 0 < i < |name| - 1 then name[..i] else name
  }
}
