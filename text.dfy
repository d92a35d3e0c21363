/**
 * The few Python string operations the core relies on, written out over
 * `seq<char>`: `in` (substring search), `startswith`, `lower` (ASCII letters
 * only), `strip` and `split()` (Python's whitespace set), `split(sep)`,
 * `sep.join(...)` and `str(int)`.
 */
module Text {
  import opened Wrappers

  /** `t` occurs in `s` starting at position `i`. */
  predicate OccursAt(s: string, t: string, i: nat) {
    i + |t| <= |s| && s[i..i + |t|] == t
  }

  /** Position of the first occurrence of `t` in `s` at or after `from`. */
  function FindFrom(s: string, t: string, from: nat): (r: Option<nat>)
    decreases |s| - from
    ensures r.Some? ==> from <= r.value && OccursAt(s, t, r.value)
    ensures r.Some? ==> forall j :: from <= j < r.value ==> !OccursAt(s, t, j)
    ensures r.None? ==> forall j :: from <= j ==> !OccursAt(s, t, j)
  {
    if from + |t| > |s| then None
    else if s[from..from + |t|] == t then Some(from)
    else FindFrom(s, t, from + 1)
  }

  /** Python's `t in s`. */
  predicate Contains(s: string, t: string) {
    exists i :: 0 <= i <= |s| && OccursAt(s, t, i)
  }

  /** The search finds an occurrence exactly when there is one. */
  lemma ContainsIff(s: string, t: string)
    ensures Contains(s, t) <==> FindFrom(s, t, 0).Some?
  {
    if FindFrom(s, t, 0).Some? {
      assert OccursAt(s, t, FindFrom(s, t, 0).value);
    }
  }

  /** Python's `s.startswith(p)`. */
  predicate StartsWith(s: string, p: string) {
    |p| <= |s| && s[..|p|] == p
  }

  /** Some word of `words` occurs in `s`: `any(w in s for w in words)`. */
  predicate ContainsAny(s: string, words: seq<string>) {
    exists i :: 0 <= i < |words| && Contains(s, words[i])
  }

  /** `s` starts with some word of `words`. */
  predicate StartsWithAny(s: string, words: seq<string>) {
    exists i :: 0 <= i < |words| && StartsWith(s, words[i])
  }

  /** The characters for which Python's `str.isspace()` holds. */
  predicate IsSpace(c: char) {
    || c == ' '
    || '\U{9}' <= c <= '\U{d}'
    || '\U{1c}' <= c <= '\U{1f}'
    || c == '\U{85}' || c == '\U{a0}' || c == '\U{1680}'
    || '\U{2000}' <= c <= '\U{200a}'
    || c == '\U{2028}' || c == '\U{2029}' || c == '\U{202f}' || c == '\U{205f}' || c == '\U{3000}'
  }

  function LowerChar(c: char): char {
    if 'A' <= c <= 'Z' then (c as int + 32) as char else c
  }

  /** `s.lower()`, restricted to the ASCII letters. */
  function Lower(s: string): (r: string)
    ensures |r| == |s|
    ensures forall i :: 0 <= i < |s| ==> r[i] == LowerChar(s[i])
  {
    seq(|s|, i requires 0 <= i < |s| => LowerChar(s[i]))
  }

  /** Length of the run of whitespace that starts `s`. */
  function LeadingSpaces(s: string): (n: nat)
    ensures n <= |s|
    ensures forall i :: 0 <= i < n ==> IsSpace(s[i])
    ensures n < |s| ==> !IsSpace(s[n])
  {
    if |s| > 0 && IsSpace(s[0]) then 1 + LeadingSpaces(s[1..]) else 0
  }

  /** Length of the run of whitespace that ends `s`. */
  function TrailingSpaces(s: string): (n: nat)
    ensures n <= |s|
    ensures forall i :: |s| - n <= i < |s| ==> IsSpace(s[i])
    ensures n < |s| ==> !IsSpace(s[|s| - 1 - n])
  {
    if |s| > 0 && IsSpace(s[|s| - 1]) then 1 + TrailingSpaces(s[..|s| - 1]) else 0
  }

  /** Python's `s.strip()`: the text between the leading and the trailing whitespace. */
  function Strip(s: string): (r: string)
    ensures OccursAt(s, r, LeadingSpaces(s))
    ensures forall i :: 0 <= i < LeadingSpaces(s) ==> IsSpace(s[i])
    ensures forall i :: LeadingSpaces(s) + |r| <= i < |s| ==> IsSpace(s[i])
    ensures r != [] ==> !IsSpace(r[0]) && !IsSpace(r[|r| - 1])
  {
    var lead := LeadingSpaces(s);
    var t := s[lead..];
    var trail := TrailingSpaces(t);
    var r := t[..|t| - trail];
    assert r == s[lead..lead + |r|];
    assert forall i :: lead + |r| <= i < |s| ==> s[i] == t[i - lead];
    assert r != [] ==> r[0] == t[0] && r[|r| - 1] == t[|t| - 1 - trail];
    r
  }

  /** Length of the run of non-whitespace that starts `s`. */
  function WordLength(s: string): (n: nat)
    ensures n <= |s|
    ensures forall i :: 0 <= i < n ==> !IsSpace(s[i])
    ensures n < |s| ==> IsSpace(s[n])
  {
    if |s| > 0 && !IsSpace(s[0]) then 1 + WordLength(s[1..]) else 0
  }

  /** `len(s.split())`: the number of maximal runs of non-whitespace. */
  function WordCount(s: string): (n: nat)
    decreases |s|
    ensures n <= |s|
    ensures n == 0 <==> forall i :: 0 <= i < |s| ==> IsSpace(s[i])
  {
    var lead := LeadingSpaces(s);
    var t := s[lead..];
    if t == [] then 0
    else
      assert !IsSpace(s[lead]);
      1 + WordCount(t[WordLength(t)..])
  }

  /**
   * The word count character by character, which determines it: whitespace
   * in front adds nothing, and a non-whitespace character in front starts a
   * new word unless the text it is put in front of already starts with one.
   */
  lemma WordCountCons(c: char, s: string)
    ensures IsSpace(c) ==> WordCount([c] + s) == WordCount(s)
    ensures !IsSpace(c) ==>
      WordCount([c] + s) == WordCount(s) + (if |s| > 0 && !IsSpace(s[0]) then 0 else 1)
  {
    var t := [c] + s;
    assert t[1..] == s;
    if IsSpace(c) {
      assert t[LeadingSpaces(t)..] == s[LeadingSpaces(s)..];
    } else {
      assert t[WordLength(t)..] == s[WordLength(s)..];
      if !(|s| > 0 && !IsSpace(s[0])) {
        assert s[WordLength(s)..] == s;
      }
    }
  }

  /** Words on either side of a whitespace character are counted apart. */
  lemma {:induction false} WordCountSeparated(a: string, c: char, b: string)
    requires IsSpace(c)
    ensures WordCount(a + [c] + b) == WordCount(a) + WordCount(b)
    decreases |a|
  {
    if a == [] {
      assert a + [c] + b == [c] + b;
      WordCountCons(c, b);
    } else {
      var x := a[0];
      var rest := a[1..];
      assert a == [x] + rest;
      assert a + [c] + b == [x] + (rest + [c] + b);
      WordCountSeparated(rest, c, b);
      WordCountCons(x, rest + [c] + b);
      WordCountCons(x, rest);
      assert (rest + [c] + b)[0] == if rest != [] then rest[0] else c;
    }
  }

  /** A run of non-whitespace is one word. */
  lemma {:induction false} WordCountOfWord(w: string)
    requires |w| > 0 && forall i :: 0 <= i < |w| ==> !IsSpace(w[i])
    ensures WordCount(w) == 1
    decreases |w|
  {
    var rest := w[1..];
    assert w == [w[0]] + rest;
    WordCountCons(w[0], rest);
    if |rest| > 0 {
      WordCountOfWord(rest);
    } else {
      assert WordCount(rest) == 0;
    }
  }

  /** `sep.join(xs)`. */
  function Join(xs: seq<string>, sep: string): string
    decreases |xs|
  {
    if |xs| == 0 then ""
    else if |xs| == 1 then xs[0]
    else xs[0] + sep + Join(xs[1..], sep)
  }

  /** Joining one more piece appends the separator and the piece. */
  lemma {:induction false} JoinSnoc(xs: seq<string>, y: string, sep: string)
    requires |xs| > 0
    ensures Join(xs + [y], sep) == Join(xs, sep) + sep + y
    decreases |xs|
  {
    if |xs| == 1 {
      assert (xs + [y])[1..] == [y];
    } else {
      assert (xs + [y])[1..] == xs[1..] + [y];
      JoinSnoc(xs[1..], y, sep);
    }
  }

  /** Index of the first `c` in `s`, or `|s|` when there is none. */
  function IndexOfChar(s: string, c: char): (n: nat)
    ensures n <= |s|
    ensures forall i :: 0 <= i < n ==> s[i] != c
    ensures n < |s| ==> s[n] == c
  {
    if |s| == 0 || s[0] == c then 0 else 1 + IndexOfChar(s[1..], c)
  }

  /** Python's `s.split(sep)` for a one-character separator; joining the pieces gives `s` back. */
  function Split(s: string, sep: char): (r: seq<string>)
    decreases |s|
    ensures |r| >= 1
    ensures forall i :: 0 <= i < |r| ==> sep !in r[i]
    ensures Join(r, [sep]) == s
  {
    var i := IndexOfChar(s, sep);
    if i == |s| then [s]
    else
      var rest := Split(s[i + 1..], sep);
      var r := [s[..i]] + rest;
      assert r[1..] == rest;
      assert s == s[..i] + [sep] + s[i + 1..];
      r
  }

  /** An occurrence inside an occurrence is an occurrence. */
  lemma OccursWithin(s: string, t: string, m: string, p: nat, q: nat)
    requires OccursAt(s, t, p) && OccursAt(t, m, q)
    ensures OccursAt(s, m, p + q)
  {
    forall k | 0 <= k < |m|
      ensures s[p + q + k] == m[k]
    {
      assert m[k] == t[q + k] == s[p + q + k];
    }
  }

  /** Containment is transitive: what occurs in a piece of `s` occurs in `s`. */
  lemma ContainsWithin(s: string, t: string, m: string)
    requires Contains(s, t)
    ensures Contains(t, m) ==> Contains(s, m)
  {
    if Contains(t, m) {
      var p :| 0 <= p <= |s| && OccursAt(s, t, p);
      var q :| 0 <= q <= |t| && OccursAt(t, m, q);
      OccursWithin(s, t, m, p, q);
      assert p + q <= |s|;
    }
  }

  /** Every piece of a joined list occurs in the joined string. */
  lemma {:induction false} JoinPieceOccurs(xs: seq<string>, sep: string, j: nat)
    requires j < |xs|
    decreases j
    ensures Contains(Join(xs, sep), xs[j])
  {
    var whole := Join(xs, sep);
    if |xs| == 1 {
      assert OccursAt(whole, xs[0], 0);
    } else if j == 0 {
      assert whole[..|xs[0]|] == xs[0];
      assert OccursAt(whole, xs[0], 0);
    } else {
      var tail := Join(xs[1..], sep);
      var off := |xs[0]| + |sep|;
      assert whole == xs[0] + sep + tail;
      JoinPieceOccurs(xs[1..], sep, j - 1);
      var p :| 0 <= p <= |tail| && OccursAt(tail, xs[j], p);
      assert OccursAt(whole, tail, off) by {
        assert whole[off..off + |tail|] == tail;
      }
      OccursWithin(whole, tail, xs[j], off, p);
      assert OccursAt(whole, xs[j], off + p);
    }
  }

  /** Every piece of `s.split(sep)` occurs in `s`. */
  lemma SplitPieceOccurs(s: string, sep: char, j: nat)
    requires j < |Split(s, sep)|
    ensures Contains(s, Split(s, sep)[j])
  {
    JoinPieceOccurs(Split(s, sep), [sep], j);
  }

  /**
   * Where the last piece of `s.split(sep)` starts, scanning for separators
   * left to right from `from` without overlap.
   */
  function LastPieceStart(s: string, sep: string, from: nat): (r: nat)
    requires |sep| > 0 && from <= |s|
    decreases |s| - from
    ensures from <= r <= |s|
    ensures forall j :: r <= j ==> !OccursAt(s, sep, j)
    ensures FindFrom(s, sep, from).None? ==> r == from
    ensures FindFrom(s, sep, from).Some? ==> from + |sep| <= r && OccursAt(s, sep, r - |sep|)
  {
    match FindFrom(s, sep, from)
    case None => from
    case Some(i) => LastPieceStart(s, sep, i + |sep|)
  }

  /**
   * Python's `s.split(sep)[-1]`: what follows the last separator of a
   * left-to-right scan, or `s` itself when `sep` does not occur.
   */
  function LastPiece(s: string, sep: string): (r: string)
    requires |sep| > 0
  {
    s[LastPieceStart(s, sep, 0)..]
  }

  /**
   * The last piece is a suffix of `s`; when the separator occurs in `s` the
   * piece is immediately preceded by one, and otherwise it is all of `s`.
   */
  lemma LastPieceFollowsSeparator(s: string, sep: string)
    requires |sep| > 0
    ensures var r := LastPiece(s, sep);
      && |r| <= |s| && r == s[|s| - |r|..]
      && (!Contains(s, sep) ==> r == s)
      && (Contains(s, sep) ==> |r| + |sep| <= |s| && OccursAt(s, sep, |s| - |r| - |sep|))
  {
    ContainsIff(s, sep);
  }

  /** The last piece contains no separator. */
  lemma LastPieceHasNoSeparator(s: string, sep: string)
    requires |sep| > 0
    ensures !Contains(LastPiece(s, sep), sep)
  {
    var k := LastPieceStart(s, sep, 0);
    var r := s[k..];
    forall j | 0 <= j <= |r|
      ensures !OccursAt(r, sep, j)
    {
      if j + |sep| <= |r| {
        var a, b := r[j..j + |sep|], s[k + j..k + j + |sep|];
        assert forall m :: 0 <= m < |sep| ==> a[m] == b[m];
        assert a == b;
        assert !OccursAt(s, sep, k + j);
      }
    }
  }

  function DigitChar(d: nat): char
    requires d < 10
  {
    ('0' as int + d) as char
  }

  predicate IsDigits(s: string) {
    forall i :: 0 <= i < |s| ==> '0' <= s[i] <= '9'
  }

  /** The number a string of decimal digits denotes. */
  function DecimalValue(s: string): nat
    requires IsDigits(s)
    decreases |s|
  {
    if s == [] then 0 else 10 * DecimalValue(s[..|s| - 1]) + (s[|s| - 1] as int - '0' as int)
  }

  /** `str(n)` for a natural number: its decimal digits, without leading zeros. */
  function NatToString(n: nat): (r: string)
    ensures |r| >= 1 && IsDigits(r)
    ensures DecimalValue(r) == n
    ensures |r| > 1 ==> r[0] != '0'
  {
    if n < 10 then [DigitChar(n)]
    else
      var a := NatToString(n / 10);
      var r := a + [DigitChar(n % 10)];
      assert r[..|r| - 1] == a;
      r
  }

  /** Decimal digits as `str` writes them: at least one, and no leading zero unless the number is 0. */
  predicate Canonical(s: string) {
    |s| >= 1 && IsDigits(s) && (|s| > 1 ==> s[0] != '0')
  }

  /** `str(n)` for any integer: a minus sign before the digits of a negative number. */
  function IntToString(n: int): (r: string)
    ensures n >= 0 ==> Canonical(r) && DecimalValue(r) == n
    ensures n < 0 ==> |r| >= 2 && r[0] == '-' && Canonical(r[1..]) && DecimalValue(r[1..]) == -n
  {
    if n < 0 then
      var r := "-" + NatToString(-n);
      assert r[1..] == NatToString(-n);
      r
    else NatToString(n)
  }

  /** Digits with a non-zero first digit denote a positive number. */
  lemma {:induction false} LeadingDigitPositive(s: string)
    requires |s| >= 1 && IsDigits(s) && s[0] != '0'
    ensures DecimalValue(s) >= 1
    decreases |s|
  {
    if |s| > 1 {
      var init := s[..|s| - 1];
      assert init[0] == s[0];
      LeadingDigitPositive(init);
    }
  }

  /** A number has one canonical decimal form: equal values give equal strings. */
  lemma {:induction false} CanonicalUnique(a: string, b: string)
    requires Canonical(a) && Canonical(b) && DecimalValue(a) == DecimalValue(b)
    ensures a == b
    decreases |a|
  {
    if |a| == 1 && |b| == 1 {
    } else if |a| == 1 {
      LeadingDigitPositive(b[..|b| - 1]);
    } else if |b| == 1 {
      LeadingDigitPositive(a[..|a| - 1]);
    } else {
      var a0 := a[..|a| - 1];
      var b0 := b[..|b| - 1];
      assert a0[0] == a[0] && b0[0] == b[0];
      var x, y := DecimalValue(a0), DecimalValue(b0);
      var d, e := a[|a| - 1] as int - '0' as int, b[|b| - 1] as int - '0' as int;
      assert 10 * x + d == 10 * y + e;
      assert x == y && d == e;
      CanonicalUnique(a0, b0);
      assert a == a0 + [a[|a| - 1]] && b == b0 + [b[|b| - 1]];
    }
  }
}
