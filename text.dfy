/**
 * The JavaScript string operations the editor's own logic relies on, over
 * `string` (a sequence of Unicode scalar values): the `\s` character
 * class (which is also what `trim` removes), lower-casing, `includes`,
 * `trim`, `lastIndexOf` and the word list `split(/\s+/).filter(Boolean)`.
 */
module Text {

  /** The characters JavaScript's `\s` matches and `String.prototype.trim` strips. */
  predicate IsSpace(c: char)
  {
    || c == ' ' || c == '\t' || c == '\n' || c == '\U{B}' || c == '\U{C}' || c == '\r'
    || c == '\U{A0}' || c == '\U{1680}' || ('\U{2000}' <= c <= '\U{200A}')
    || c == '\U{2028}' || c == '\U{2029}' || c == '\U{202F}' || c == '\U{205F}'
    || c == '\U{3000}' || c == '\U{FEFF}'
  }

  /** `\s` matches no ASCII letter or digit, and not `/`. */
  lemma SpaceIsNoWordChar(c: char)
    requires IsSpace(c)
    ensures !('a' <= c <= 'z' || 'A' <= c <= 'Z' || '0' <= c <= '9' || c == '/')
  {
  }

  predicate HasSpace(s: string) {
    exists i :: 0 <= i < |s| && IsSpace(s[i])
  }

  predicate AllSpace(s: string) {
    forall i :: 0 <= i < |s| ==> IsSpace(s[i])
  }

  /** A non-empty run of non-white-space characters. */
  predicate IsWord(w: string) {
    w != [] && !HasSpace(w)
  }

  /** `toLowerCase` on one character (A-Z only). */
  function Lower(c: char): (r: char)
    ensures 'A' <= c <= 'Z' ==> r as int == c as int + 32
    ensures !('A' <= c <= 'Z') ==> r == c
  {
    if 'A' <= c <= 'Z' then (c as int + 32) as char else c
  }

  function ToLower(s: string): (r: string)
    ensures |r| == |s|
    ensures forall i :: 0 <= i < |s| ==> r[i] == Lower(s[i])
  {
    seq(|s|, i requires 0 <= i < |s| => Lower(s[i]))
  }

  /** `s.includes(sub)`: `sub` occurs in `s` at some offset. */
  predicate Includes(s: string, sub: string)
    ensures Includes(s, sub) ==> |sub| <= |s|
  {
    exists i :: 0 <= i <= |s| && OccursAt(s, sub, i)
  }

  predicate OccursAt(s: string, sub: string, i: nat) {
    i + |sub| <= |s| && s[i..i + |sub|] == sub
  }

  lemma IncludesEmpty(s: string)
    ensures Includes(s, "")
  {
    assert OccursAt(s, "", 0);
  }

  /** Length of the run of white space that starts `s`. */
  function LeadingSpace(s: string): (n: nat)
    ensures n <= |s|
    ensures forall i :: 0 <= i < n ==> IsSpace(s[i])
    ensures n < |s| ==> !IsSpace(s[n])
  {
    if s == [] || !IsSpace(s[0]) then 0 else 1 + LeadingSpace(s[1..])
  }

  /** Length of the run of white space that ends `s`. */
  function TrailingSpace(s: string): (n: nat)
    ensures n <= |s|
    ensures forall i :: |s| - n <= i < |s| ==> IsSpace(s[i])
    ensures n < |s| ==> !IsSpace(s[|s| - n - 1])
  {
    if s == [] || !IsSpace(s[|s| - 1]) then 0 else 1 + TrailingSpace(s[..|s| - 1])
  }

  /** `trimStart`: drops exactly the leading white space. */
  function TrimStart(s: string): (r: string)
    ensures r == s[LeadingSpace(s)..]
    ensures r != [] ==> !IsSpace(r[0])
  {
    s[LeadingSpace(s)..]
  }

  /** `trimEnd`: drops exactly the trailing white space. */
  function TrimEnd(s: string): (r: string)
    ensures r == s[..|s| - TrailingSpace(s)]
    ensures r != [] ==> !IsSpace(r[|r| - 1])
  {
    s[..|s| - TrailingSpace(s)]
  }

  /** `trim`: white space removed from both ends. */
  function Trim(s: string): (r: string)
    ensures |r| <= |s|
    ensures r != [] ==> !IsSpace(r[0]) && !IsSpace(r[|r| - 1])
  {
    TrimEnd(TrimStart(s))
  }

  /** The text is the white space `trimStart` drops followed by what it keeps. */
  lemma TrimStartIsSuffix(s: string)
    ensures AllSpace(s[..LeadingSpace(s)])
    ensures s == s[..LeadingSpace(s)] + TrimStart(s)
  {
    var a := LeadingSpace(s);
    SplitAt(s, a);
    AllSpaceSlice(s, 0, a);
  }

  /** The text is what `trimEnd` keeps followed by the white space it drops. */
  lemma TrimEndIsPrefix(s: string)
    ensures AllSpace(s[|s| - TrailingSpace(s)..])
    ensures s == TrimEnd(s) + s[|s| - TrailingSpace(s)..]
  {
    var e := |s| - TrailingSpace(s);
    SplitAt(s, e);
    AllSpaceSlice(s, e, |s|);
  }

  lemma SplitAt(s: string, k: nat)
    requires k <= |s|
    ensures s == s[..k] + s[k..]
  {
  }

  lemma AllSpaceSlice(s: string, i: nat, j: nat)
    requires i <= j <= |s|
    requires forall k :: i <= k < j ==> IsSpace(s[k])
    ensures AllSpace(s[i..j])
  {
    forall k | 0 <= k < j - i
      ensures IsSpace(s[i..j][k])
    {
      assert s[i..j][k] == s[i + k];
    }
  }

  /**
   * `trim` keeps a middle slice of the text and drops only white space on
   * either side of it.
   */
  lemma TrimIsInfix(s: string)
    ensures exists a, b :: 0 <= a <= b <= |s| && Trim(s) == s[a..b] && AllSpace(s[..a]) && AllSpace(s[b..])
  {
    var a := LeadingSpace(s);
    var t := TrimStart(s);
    var e := |t| - TrailingSpace(t);
    TrimStartIsSuffix(s);
    TrimEndIsPrefix(t);
    SliceOfSuffix(s, a, e);
    assert Trim(s) == s[a..a + e] && AllSpace(s[..a]) && AllSpace(s[a + e..]);
  }

  lemma SliceOfSuffix(s: string, a: nat, e: nat)
    requires a + e <= |s|
    ensures s[a..][..e] == s[a..a + e] && s[a..][e..] == s[a + e..]
  {
  }

  /** `s.lastIndexOf(c)`: the last index holding `c`, or -1 when there is none. */
  function LastIndexOf(s: string, c: char): (r: int)
    ensures -1 <= r < |s|
    ensures r == -1 <==> c !in s
    ensures r >= 0 ==> s[r] == c && c !in s[r + 1..]
  {
    if s == [] then -1
    else if s[|s| - 1] == c then |s| - 1
    else
      var r := LastIndexOf(s[..|s| - 1], c);
      assert s == s[..|s| - 1] + [s[|s| - 1]];
      r
  }

  /** Length of the run of non-white-space characters that starts `s`. */
  function WordLength(s: string): (n: nat)
    ensures n <= |s|
    ensures forall i :: 0 <= i < n ==> !IsSpace(s[i])
    ensures n < |s| ==> IsSpace(s[n])
  {
    if s == [] || IsSpace(s[0]) then 0 else 1 + WordLength(s[1..])
  }

  /**
   * `s.split(/\s+/).filter(Boolean)`: the maximal runs of non-white-space
   * characters of `s`, left to right.
   */
  function Words(s: string): (ws: seq<string>)
    ensures forall k :: 0 <= k < |ws| ==> IsWord(ws[k]) && |ws[k]| <= |s|
    decreases |s|
  {
    if s == [] then []
    else if IsSpace(s[0]) then Words(s[1..])
    else
      var n := WordLength(s);
      [s[..n]] + Words(s[n..])
  }

  /** `split(/\s+/).filter(Boolean).pop() ?? ""`. */
  function LastWord(s: string): (r: string)
    ensures r == "" <==> AllSpace(s)
    ensures r != "" ==> IsWord(r) && |r| <= |s|
  {
    WordsEmptyIffAllSpace(s);
    var ws := Words(s);
    if ws == [] then "" else ws[|ws| - 1]
  }

  lemma {:induction false} WordsEmptyIffAllSpace(s: string)
    ensures Words(s) == [] <==> AllSpace(s)
    decreases |s|
  {
    if s != [] && IsSpace(s[0]) {
      WordsEmptyIffAllSpace(s[1..]);
      assert forall i :: 1 <= i < |s| ==> s[i] == s[1..][i - 1];
    }
  }

  /** Splitting at a white-space character splits the word list. */
  lemma {:induction false} WordsAtSpace(p: string, c: char, t: string)
    requires IsSpace(c)
    ensures Words(p + [c] + t) == Words(p) + Words(t)
    decreases |p|
  {
    var s := p + [c] + t;
    if p == [] {
      assert s[1..] == t;
    } else if IsSpace(p[0]) {
      assert s[1..] == p[1..] + [c] + t;
      WordsAtSpace(p[1..], c, t);
    } else {
      var n := WordLength(s);
      assert WordLength(p) == n by { WordLengthPrefix(p, c, t); }
      assert s[..n] == p[..n];
      assert s[n..] == p[n..] + [c] + t;
      WordsAtSpace(p[n..], c, t);
    }
  }

  lemma {:induction false} WordLengthPrefix(p: string, c: char, t: string)
    requires IsSpace(c)
    ensures WordLength(p + [c] + t) == WordLength(p)
    decreases |p|
  {
    var s := p + [c] + t;
    if p != [] && !IsSpace(p[0]) {
      assert s[1..] == p[1..] + [c] + t;
      WordLengthPrefix(p[1..], c, t);
    }
  }

  /** Leading and trailing white space never changes the word list. */
  lemma {:induction false} WordsTrimStart(s: string)
    ensures Words(TrimStart(s)) == Words(s)
    decreases |s|
  {
    if s != [] && IsSpace(s[0]) {
      WordsTrimStart(s[1..]);
      assert s[1..][LeadingSpace(s[1..])..] == s[LeadingSpace(s)..];
    }
  }

  lemma {:induction false} WordsTrimEnd(s: string)
    ensures Words(TrimEnd(s)) == Words(s)
    decreases |s|
  {
    if s != [] && IsSpace(s[|s| - 1]) {
      var p := s[..|s| - 1];
      assert s == p + [s[|s| - 1]] + [];
      WordsAtSpace(p, s[|s| - 1], []);
      WordsTrimEnd(p);
      assert TrailingSpace(s) == 1 + TrailingSpace(p);
      assert TrimEnd(p) == TrimEnd(s);
      assert Words([]) == [];
    } else {
      assert TrimEnd(s) == s;
    }
  }

  lemma WordsTrim(s: string)
    ensures Words(Trim(s)) == Words(s)
  {
    WordsTrimStart(s);
    WordsTrimEnd(TrimStart(s));
  }

  /** No word is longer than the trimmed text it comes from. */
  lemma LastWordWithinTrim(s: string)
    ensures |LastWord(s)| <= |Trim(s)|
  {
    WordsTrim(s);
  }

  /** A white-space-separated prefix never changes the last word, once a word follows it. */
  lemma LastWordIgnoresPrefix(p: string, c: char, t: string)
    requires IsSpace(c) && !AllSpace(t)
    ensures LastWord(p + [c] + t) == LastWord(t)
  {
    WordsAtSpace(p, c, t);
    WordsEmptyIffAllSpace(t);
  }

  /** A single word followed by white space is its own last word. */
  lemma {:induction false} LastWordOfWord(w: string, pad: string)
    requires IsWord(w) && AllSpace(pad)
    ensures LastWord(w + pad) == w
  {
    var s := w + pad;
    assert WordLength(s) == |w| by { WordLengthOfWord(w, pad); }
    assert s[..|w|] == w && s[|w|..] == pad;
    WordsEmptyIffAllSpace(pad);
  }

  /** A single word splits into itself alone. */
  lemma WordsOfWord(w: string)
    requires IsWord(w)
    ensures Words(w) == [w]
  {
    assert w + "" == w;
    WordLengthOfWord(w, "");
    assert w[..|w|] == w && w[|w|..] == [];
  }

  lemma {:induction false} WordLengthOfWord(w: string, pad: string)
    requires !HasSpace(w) && AllSpace(pad)
    ensures WordLength(w + pad) == |w|
    decreases |w|
  {
    var s := w + pad;
    if w != [] {
      assert s[1..] == w[1..] + pad;
      WordLengthOfWord(w[1..], pad);
    }
  }
}
