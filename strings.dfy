/** The few Python string operations the core relies on, over ASCII text:
    `str.split()` with no separator, `str.lower()` and `str(n)` for a
    natural number. */
module Strings {

  /** Python's `str.isspace()` on an ASCII character: space, tab, line feed,
      vertical tab, form feed, carriage return and the four separators
      0x1C-0x1F. */
  predicate IsSpace(c: char) {
    c == ' ' || ('\t' <= c <= '\r') || ('\U{001C}' <= c <= '\U{001F}')
  }

  /** A non-empty run of non-whitespace characters. */
  predicate IsWord(w: string) {
    w != [] && forall i :: 0 <= i < |w| ==> !IsSpace(w[i])
  }

  /** Only whitespace (possibly nothing). */
  predicate IsBlank(s: string) {
    forall i :: 0 <= i < |s| ==> IsSpace(s[i])
  }

  /** The characters of `s` that are not whitespace, in order. */
  function NonSpace(s: string): string {
    if s == [] then []
    else (if IsSpace(s[0]) then [] else [s[0]]) + NonSpace(s[1..])
  }

  /** The words of a list of words, glued back together. */
  function Concat(words: seq<string>): string {
    if words == [] then [] else words[0] + Concat(words[1..])
  }

  /** The length of the word that `s` starts with. */
  function WordLength(s: string): (n: nat)
    requires s != [] && !IsSpace(s[0])
    ensures 0 < n <= |s| && IsWord(s[..n])
    ensures n == |s| || IsSpace(s[n])
    decreases |s|
  {
    if |s| == 1 || IsSpace(s[1]) then 1
    else
      var m := WordLength(s[1..]);
      assert s[..1 + m] == [s[0]] + s[1..][..m];
      1 + m
  }

  /** Python's `s.split()`: the maximal runs of non-whitespace characters,
      with leading, trailing and repeated whitespace dropped. */
  function Split(s: string): (words: seq<string>)
    ensures forall i :: 0 <= i < |words| ==> IsWord(words[i])
    decreases |s|
  {
    if s == [] then []
    else if IsSpace(s[0]) then Split(s[1..])
    else
      var n := WordLength(s);
      [s[..n]] + Split(s[n..])
  }

  lemma {:induction false} NonSpaceAppend(a: string, b: string)
    ensures NonSpace(a + b) == NonSpace(a) + NonSpace(b)
    decreases |a|
  {
    if a == [] {
      assert a + b == b;
    } else {
      assert (a + b)[0] == a[0];
      assert (a + b)[1..] == a[1..] + b;
      NonSpaceAppend(a[1..], b);
    }
  }

  lemma {:induction false} NonSpaceOfWord(w: string)
    requires forall i :: 0 <= i < |w| ==> !IsSpace(w[i])
    ensures NonSpace(w) == w
    decreases |w|
  {
    if w != [] {
      NonSpaceOfWord(w[1..]);
    }
  }

  /** Splitting loses exactly the whitespace: the words, glued together,
      are the non-whitespace characters of the input. */
  lemma {:induction false} SplitKeepsNonSpace(s: string)
    ensures Concat(Split(s)) == NonSpace(s)
    decreases |s|
  {
    if s != [] {
      if IsSpace(s[0]) {
        SplitKeepsNonSpace(s[1..]);
      } else {
        var n := WordLength(s);
        var words := Split(s);
        assert words == [s[..n]] + Split(s[n..]);
        assert words[1..] == Split(s[n..]);
        SplitKeepsNonSpace(s[n..]);
        assert s == s[..n] + s[n..];
        NonSpaceAppend(s[..n], s[n..]);
        NonSpaceOfWord(s[..n]);
      }
    }
  }

  lemma {:induction false} WordLengthOf(w: string, rest: string)
    requires IsWord(w)
    requires rest == [] || IsSpace(rest[0])
    ensures WordLength(w + rest) == |w|
    decreases |w|
  {
    var s := w + rest;
    if |w| > 1 {
      assert s[1..] == w[1..] + rest;
      WordLengthOf(w[1..], rest);
    }
  }

  /** Whitespace, then a word, then whitespace or nothing: the word is the
      first item of the split. */
  lemma {:induction false} SplitBlankWord(p: string, w: string, rest: string)
    requires IsBlank(p) && IsWord(w)
    requires rest == [] || IsSpace(rest[0])
    ensures Split(p + w + rest) == [w] + Split(rest)
    decreases |p|
  {
    var s := p + w + rest;
    if p == [] {
      assert s == w + rest;
      WordLengthOf(w, rest);
      assert s[..|w|] == w;
      assert s[|w|..] == rest;
    } else {
      assert s[1..] == p[1..] + w + rest;
      SplitBlankWord(p[1..], w, rest);
    }
  }

  lemma {:induction false} SplitBlank(p: string)
    requires IsBlank(p)
    ensures Split(p) == []
    decreases |p|
  {
    if p != [] {
      SplitBlank(p[1..]);
    }
  }

  /** `p + first + q + second + r` with whitespace `p`, `r`, non-empty
      whitespace `q` and words `first`, `second` splits into exactly those
      two words. */
  lemma SplitTwoWords(p: string, first: string, q: string, second: string, r: string)
    requires IsBlank(p) && IsBlank(q) && q != [] && IsBlank(r)
    requires IsWord(first) && IsWord(second)
    ensures Split(p + first + q + second + r) == [first, second]
  {
    var tail := q + second + r;
    assert tail[0] == q[0];
    assert p + first + q + second + r == p + first + tail;
    SplitBlankWord(p, first, tail);
    SplitBlankWord(q, second, r);
    SplitBlank(r);
    assert Split(tail) == [second];
  }

  /** Python's `str.lower()` on one ASCII character. */
  function LowerChar(c: char): char {
    if 'A' <= c <= 'Z' then (c as int + 32) as char else c
  }

  /** Python's `str.lower()` on ASCII text. */
  function Lower(s: string): (r: string)
    ensures |r| == |s|
    ensures forall i :: 0 <= i < |s| ==> r[i] == LowerChar(s[i])
  {
    if s == [] then [] else [LowerChar(s[0])] + Lower(s[1..])
  }

  /** The number a string of decimal digits denotes, most significant
      digit first; the empty string denotes 0. */
  function DigitsValue(s: string): int
    decreases |s|
  {
    if s == [] then 0 else 10 * DigitsValue(s[..|s| - 1]) + (s[|s| - 1] as int - '0' as int)
  }

  /** Leading zeros do not change the value. */
  lemma {:induction false} LeadingZeroValue(t: string)
    ensures DigitsValue("0" + t) == DigitsValue(t)
    decreases |t|
  {
    if t != [] {
      assert ("0" + t)[..|"0" + t| - 1] == "0" + t[..|t| - 1];
      LeadingZeroValue(t[..|t| - 1]);
    }
  }

  /** Python's `str(n)` for a natural number: its decimal digits. */
  function NatToString(n: nat): (s: string)
    ensures s != []
    ensures forall i :: 0 <= i < |s| ==> '0' <= s[i] <= '9'
    ensures DigitsValue(s) == n
    ensures |s| > 1 ==> s[0] != '0'
  {
    if n < 10 then ["0123456789"[n]]
    else
      var high := NatToString(n / 10);
      var s := high + ["0123456789"[n % 10]];
      assert s[..|s| - 1] == high;
      s
  }

  /** Python's `str(i)` for an integer: a `-` for negative numbers, then
      the decimal digits of the magnitude. */
  function IntToString(i: int): (s: string)
    ensures s != []
    ensures i < 0 <==> s[0] == '-'
    ensures i < 0 ==> |s| > 1 && DigitsValue(s[1..]) == -i
                      && forall k :: 1 <= k < |s| ==> '0' <= s[k] <= '9'
    ensures i >= 0 ==> DigitsValue(s) == i && forall k :: 0 <= k < |s| ==> '0' <= s[k] <= '9'
  {
    if i < 0 then
      var s := "-" + NatToString(-i);
      assert s[1..] == NatToString(-i);
      s
    else NatToString(i)
  }

  function Pow10(k: nat): (p: nat)
    ensures p >= 1
  {
    if k == 0 then 1 else 10 * Pow10(k - 1)
  }

  /** `str(n)` has at most `k` digits exactly when `n < 10^k`. */
  lemma {:induction false} NatToStringLength(n: nat, k: nat)
    requires 1 <= k
    ensures |NatToString(n)| <= k <==> n < Pow10(k)
    decreases k
  {
    if n >= 10 && k > 1 {
      NatToStringLength(n / 10, k - 1);
    }
  }

  /** `"%0*d" % (width, n)`: the decimal digits of `n`, padded with
      leading zeros to `width` characters when it has fewer. */
  function ZeroPad(n: nat, width: nat): (s: string)
    ensures |s| >= width
    ensures forall i :: 0 <= i < |s| ==> '0' <= s[i] <= '9'
    ensures DigitsValue(s) == n
    ensures 1 <= width && n < Pow10(width) ==> |s| == width
    decreases width
  {
    var digits := NatToString(n);
    if |digits| >= width then (if 1 <= width then NatToStringLength(n, width); digits else digits)
    else
      NatToStringLength(n, width);
      if width >= 2 then
        NatToStringLength(n, width - 1);
        LeadingZeroValue(ZeroPad(n, width - 1));
        "0" + ZeroPad(n, width - 1)
      else assert false; ""
  }
}
