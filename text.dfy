/**
 * The few Python `str` operations the core relies on, over ASCII text:
 * `sep.join`, `str(int)`, `lower`, `title`, `replace` of one character,
 * `endswith`, `find`/`rfind` of one character and `rjust`.
 */
module Text {

  // ---------------------------------------------------------------- join / split

  /** `sep.join(xs)`. */
  function Join(sep: string, xs: seq<string>): string
    decreases |xs|
  {
    if |xs| == 0 then ""
    else if |xs| == 1 then xs[0]
    else xs[0] + sep + Join(sep, xs[1..])
  }

  /** Index of the first `c` in `s`. */
  function IndexOf(s: string, c: char): (i: nat)
    requires c in s
    ensures i < |s| && s[i] == c && c !in s[..i]
  {
    if s[0] == c then 0 else 1 + IndexOf(s[1..], c)
  }

  /** `s.split(c)`: the pieces between the occurrences of `c`. */
  function Split(s: string, c: char): (r: seq<string>)
    ensures |r| >= 1
    decreases |s|
  {
    if c !in s then [s]
    else
      var i := IndexOf(s, c);
      [s[..i]] + Split(s[i + 1..], c)
  }

  lemma IndexOfAfterFree(a: string, c: char, b: string)
    requires c !in a
    ensures c in a + [c] + b && IndexOf(a + [c] + b, c) == |a|
  {
    var s := a + [c] + b;
    assert s[|a|] == c;
    assert s[..|a|] == a;
  }

  /** Splitting a join at its separator gives the pieces back when no piece contains it. */
  lemma {:induction false} SplitJoin(c: char, xs: seq<string>)
    requires |xs| >= 1
    requires forall i :: 0 <= i < |xs| ==> c !in xs[i]
    ensures Split(Join([c], xs), c) == xs
    decreases |xs|
  {
    if |xs| > 1 {
      var rest := Join([c], xs[1..]);
      assert Join([c], xs) == xs[0] + [c] + rest;
      IndexOfAfterFree(xs[0], c, rest);
      var s := xs[0] + [c] + rest;
      assert s[..|xs[0]|] == xs[0];
      assert s[|xs[0]| + 1..] == rest;
      SplitJoin(c, xs[1..]);
      assert [xs[0]] + xs[1..] == xs;
    }
  }

  // ---------------------------------------------------------------- str(int)

  function DigitChar(d: int): (c: char)
    requires 0 <= d < 10
    ensures '0' <= c <= '9'
  {
    ('0' as int + d) as char
  }

  /** Decimal digits of `n`, most significant first, no leading zero. */
  function NatToString(n: nat): (s: string)
    ensures |s| >= 1
    ensures forall i :: 0 <= i < |s| ==> '0' <= s[i] <= '9'
    decreases n
  {
    if n < 10 then [DigitChar(n)] else NatToString(n / 10) + [DigitChar(n % 10)]
  }

  /** Python's `str(n)` for an `int`. */
  function IntToString(n: int): (s: string)
    ensures |s| >= 1
  {
    if n < 0 then "-" + NatToString(-n) else NatToString(n)
  }

  /** Value of a string of decimal digits. */
  function ParseNat(s: string): nat
    requires forall i :: 0 <= i < |s| ==> '0' <= s[i] <= '9'
    decreases |s|
  {
    if s == [] then 0
    else ParseNat(s[..|s| - 1]) * 10 + (s[|s| - 1] as int - '0' as int)
  }

  /** Python's `int(s)` on what `str` produces. */
  function ParseInt(s: string): int
    requires |s| >= 1
    requires forall i :: (if s[0] == '-' then 1 else 0) <= i < |s| ==> '0' <= s[i] <= '9'
  {
    if s[0] == '-' then -(ParseNat(s[1..]) as int) else ParseNat(s) as int
  }

  lemma {:induction false} ParseNatToString(n: nat)
    ensures ParseNat(NatToString(n)) == n
    decreases n
  {
    if n >= 10 {
      ParseNatToString(n / 10);
      var s := NatToString(n / 10) + [DigitChar(n % 10)];
      assert s[..|s| - 1] == NatToString(n / 10);
    }
  }

  /** `int(str(n)) == n`: the decimal rendering loses nothing. */
  lemma IntToStringRoundTrip(n: int)
    ensures var s := IntToString(n);
      (forall i :: (if s[0] == '-' then 1 else 0) <= i < |s| ==> '0' <= s[i] <= '9') &&
      ParseInt(s) == n
  {
    var s := IntToString(n);
    if n < 0 {
      ParseNatToString(-n);
      assert s[1..] == NatToString(-n);
    } else {
      ParseNatToString(n);
    }
  }

  // ---------------------------------------------------------------- case

  predicate IsUpper(c: char) { 'A' <= c <= 'Z' }
  predicate IsLower(c: char) { 'a' <= c <= 'z' }
  /** An ASCII letter, the only cased characters of this model. */
  predicate IsLetter(c: char) { IsUpper(c) || IsLower(c) }

  function ToUpper(c: char): (r: char)
    ensures IsLetter(c) <==> IsLetter(r)
    ensures !IsLetter(c) ==> r == c
    ensures IsLetter(c) ==> IsUpper(r)
  {
    if IsLower(c) then (c as int - 32) as char else c
  }

  function ToLower(c: char): (r: char)
    ensures IsLetter(c) <==> IsLetter(r)
    ensures !IsLetter(c) ==> r == c
    ensures IsLetter(c) ==> IsLower(r)
  {
    if IsUpper(c) then (c as int + 32) as char else c
  }

  /** `s.lower()`. */
  function Lower(s: string): (r: string)
    ensures |r| == |s|
    ensures forall i :: 0 <= i < |s| ==> r[i] == ToLower(s[i])
    decreases |s|
  {
    if s == [] then [] else [ToLower(s[0])] + Lower(s[1..])
  }

  /** `s.lower()` is `t` when `t` holds the lowered characters of `s`. */
  lemma LowerIs(s: string, t: string)
    requires |s| == |t| && forall i :: 0 <= i < |s| ==> ToLower(s[i]) == t[i]
    ensures Lower(s) == t
  {
  }

  /** One character of `s.title()`, given whether the character before it is cased. */
  function TitleChar(c: char, prevCased: bool): (r: char)
    ensures IsLetter(c) <==> IsLetter(r)
    ensures !IsLetter(c) ==> r == c
  {
    if !IsLetter(c) then c else if prevCased then ToLower(c) else ToUpper(c)
  }

  /**
   * `s.title()` continued after a character that was cased (`prevCased`) or not:
   * a letter is upper-cased when it starts a word and lower-cased otherwise;
   * every other character is kept and ends the word.
   */
  function TitleFrom(s: string, prevCased: bool): (r: string)
    ensures |r| == |s|
    decreases |s|
  {
    if s == [] then [] else [TitleChar(s[0], prevCased)] + TitleFrom(s[1..], IsLetter(s[0]))
  }

  /** `s.title()`. */
  function Title(s: string): string {
    TitleFrom(s, false)
  }

  /**
   * `s.title()` character by character: a letter is lower-cased when the
   * character before it is cased and upper-cased otherwise; anything else is kept.
   */
  lemma {:induction false} TitleFromAt(s: string, b: bool)
    ensures forall i :: 0 <= i < |s| ==> TitleFrom(s, b)[i] == TitleChar(s[i], if i == 0 then b else IsLetter(s[i - 1]))
    decreases |s|
  {
    if s != [] {
      TitleFromAt(s[1..], IsLetter(s[0]));
      var r := TitleFrom(s, b);
      assert r[1..] == TitleFrom(s[1..], IsLetter(s[0]));
      forall i | 1 <= i < |s|
        ensures r[i] == TitleChar(s[i], IsLetter(s[i - 1]))
      {
        assert s[i] == s[1..][i - 1] && r[i] == r[1..][i - 1];
        if i > 1 {
          assert s[i - 1] == s[1..][i - 2];
        }
      }
    }
  }

  /** Title-casing keeps every non-letter where it was and letters stay letters. */
  lemma TitleFromShape(s: string, b: bool)
    ensures forall i :: 0 <= i < |s| ==> (IsLetter(s[i]) <==> IsLetter(TitleFrom(s, b)[i]))
    ensures forall i :: 0 <= i < |s| && !IsLetter(s[i]) ==> TitleFrom(s, b)[i] == s[i]
  {
    TitleFromAt(s, b);
  }

  /** `t.title().title() == t.title()`. */
  lemma {:induction false} TitleFromIdempotent(s: string, b: bool)
    ensures TitleFrom(TitleFrom(s, b), b) == TitleFrom(s, b)
    decreases |s|
  {
    if s != [] {
      TitleFromIdempotent(s[1..], IsLetter(s[0]));
      var r := TitleFrom(s, b);
      assert r[1..] == TitleFrom(s[1..], IsLetter(s[0]));
      assert IsLetter(r[0]) == IsLetter(s[0]);
    }
  }

  // ---------------------------------------------------------------- replace, endswith

  /** `s.replace(a, b)` for one-character `a` and `b`. */
  function ReplaceChar(s: string, a: char, b: char): (r: string)
    ensures |r| == |s|
    ensures forall i :: 0 <= i < |s| ==> r[i] == (if s[i] == a then b else s[i])
    decreases |s|
  {
    if s == [] then [] else [if s[0] == a then b else s[0]] + ReplaceChar(s[1..], a, b)
  }

  /** `s.endswith(suffix)`. */
  predicate EndsWith(s: string, suffix: string) {
    |suffix| <= |s| && s[|s| - |suffix|..] == suffix
  }

  // ---------------------------------------------------------------- find, rfind, rjust

  /** `s.find(c, lo, hi)`: the first index of `c` in `s[lo:hi]`, or -1. */
  function Find(s: string, c: char, lo: int, hi: int): (r: int)
    requires 0 <= lo <= hi <= |s|
    ensures r == -1 || (lo <= r < hi && s[r] == c)
    ensures r == -1 ==> forall i :: lo <= i < hi ==> s[i] != c
    ensures r != -1 ==> forall i :: lo <= i < r ==> s[i] != c
    decreases hi - lo
  {
    if lo == hi then -1 else if s[lo] == c then lo else Find(s, c, lo + 1, hi)
  }

  /** `s.rfind(c, lo, hi)`: the last index of `c` in `s[lo:hi]`, or -1. */
  function RFind(s: string, c: char, lo: int, hi: int): (r: int)
    requires 0 <= lo <= hi <= |s|
    ensures r == -1 || (lo <= r < hi && s[r] == c)
    ensures r == -1 ==> forall i :: lo <= i < hi ==> s[i] != c
    ensures r != -1 ==> forall i :: r < i < hi ==> s[i] != c
    decreases hi - lo
  {
    if lo == hi then -1 else if s[hi - 1] == c then hi - 1 else RFind(s, c, lo, hi - 1)
  }

  /** Searching `s[lo:hi]` backwards is searching `s[mid:hi]`, then `s[lo:mid]`. */
  lemma {:induction false} RFindSplit(s: string, c: char, lo: int, mid: int, hi: int)
    requires 0 <= lo <= mid <= hi <= |s|
    ensures RFind(s, c, lo, hi) == if RFind(s, c, mid, hi) != -1 then RFind(s, c, mid, hi) else RFind(s, c, lo, mid)
    decreases hi - mid
  {
    if mid < hi && s[hi - 1] != c {
      RFindSplit(s, c, lo, mid, hi - 1);
    }
  }

  function Spaces(n: nat): (r: string)
    ensures |r| == n && forall i :: 0 <= i < n ==> r[i] == ' '
  {
    seq(n, _ => ' ')
  }

  /** `s.rjust(width)`: `s` left-padded with spaces to `width`; unchanged if already as wide. */
  function RJust(s: string, width: int): (r: string)
    ensures |r| == if width > |s| then width else |s|
    ensures r[|r| - |s|..] == s
    ensures forall i :: 0 <= i < |r| - |s| ==> r[i] == ' '
  {
    if width <= |s| then s else Spaces(width - |s|) + s
  }

  /** Prepending the same prefix to two strings keeps them apart. */
  lemma ConcatInjective(prefix: string, p: string, q: string)
    requires prefix + p == prefix + q
    ensures p == q
  {
    assert p == (prefix + p)[|prefix|..];
    assert q == (prefix + q)[|prefix|..];
  }
}
