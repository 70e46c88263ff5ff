/** The handful of JavaScript string built-ins the lead endpoint relies on:
    `trim`, `toLowerCase`, `replace(/\D/g, "")`, `replace(/c/g, rep)` for a
    single character `c`, and `slice(0, n)`. Strings are sequences of
    characters; lengths count characters. */
module JsStrings {
  import opened Wrappers

  /** The characters JavaScript's `\s` class matches, which is also the set
      `String.prototype.trim` removes: the ECMAScript WhiteSpace and
      LineTerminator code points. */
  predicate IsJsSpace(c: char) {
    || c == '\t' || c == '\n' || c == '\U{000B}' || c == '\U{000C}' || c == '\r'
    || c == ' ' || c == '\U{00A0}' || c == '\U{1680}'
    || ('\U{2000}' <= c <= '\U{200A}')
    || c == '\U{2028}' || c == '\U{2029}' || c == '\U{202F}' || c == '\U{205F}'
    || c == '\U{3000}' || c == '\U{FEFF}'
  }

  predicate AllSpace(s: string) {
    forall i :: 0 <= i < |s| ==> IsJsSpace(s[i])
  }

  /** The first position at or after `k` that does not hold white space,
      or `|s|` when there is none. */
  function SpaceRunEnd(s: string, k: nat): (n: nat)
    requires k <= |s|
    ensures k <= n <= |s|
    ensures forall j :: k <= j < n ==> IsJsSpace(s[j])
    ensures n == |s| || !IsJsSpace(s[n])
    decreases |s| - k
  {
    if k < |s| && IsJsSpace(s[k]) then SpaceRunEnd(s, k + 1) else k
  }

  /** The position just after the last character before `k` that is not
      white space, or 0 when there is none. */
  function SpaceRunStart(s: string, k: nat): (n: nat)
    requires k <= |s|
    ensures n <= k
    ensures forall j :: n <= j < k ==> IsJsSpace(s[j])
    ensures n == 0 || !IsJsSpace(s[n - 1])
  {
    if k > 0 && IsJsSpace(s[k - 1]) then SpaceRunStart(s, k - 1) else k
  }

  /** Removes leading white space. */
  function TrimStart(s: string): (r: string)
    ensures |r| <= |s|
    ensures r == [] || !IsJsSpace(r[0])
  {
    s[SpaceRunEnd(s, 0)..]
  }

  /** Removes trailing white space. */
  function TrimEnd(s: string): (r: string)
    ensures |r| <= |s|
    ensures r == [] || !IsJsSpace(r[|r| - 1])
  {
    s[..SpaceRunStart(s, |s|)]
  }

  /** `String.prototype.trim`: drops white space from both ends. */
  function Trim(s: string): (r: string)
    ensures |r| <= |s|
    ensures r == [] || (!IsJsSpace(r[0]) && !IsJsSpace(r[|r| - 1]))
  {
    TrimEnd(TrimStart(s))
  }

  /** What trimming removes is white space, and only from the two ends:
      the result is the infix of the input that starts at its first
      non-space character, with all-space margins on both sides. */
  lemma TrimIsInfix(s: string)
    ensures var r := Trim(s); var i := SpaceRunEnd(s, 0);
      && i + |r| <= |s| && r == s[i..i + |r|]
      && AllSpace(s[..i]) && AllSpace(s[i + |r|..])
  {
    var i := SpaceRunEnd(s, 0);
    var t := s[i..];
    var e := SpaceRunStart(t, |t|);
    assert Trim(s) == t[..e];
    assert t[..e] == s[i..i + e];
    assert s[i + e..] == t[e..];
  }

  predicate IsAsciiUpper(c: char) {
    'A' <= c <= 'Z'
  }

  /** The lowercase letters, in alphabetical order. */
  const LowerAlphabet: string := "abcdefghijklmnopqrstuvwxyz"

  /** `toLowerCase` on one character: the k-th capital letter becomes the
      k-th lowercase letter, and every other character is kept. */
  function LowerChar(c: char): (r: char)
    ensures !IsAsciiUpper(r)
    ensures IsAsciiUpper(c) ==> r == LowerAlphabet[c as int - 'A' as int]
    ensures !IsAsciiUpper(c) ==> r == c
  {
    if IsAsciiUpper(c) then (c as int + 32) as char else c
  }

  /** `String.prototype.toLowerCase`, restricted to the ASCII letters. */
  function ToLower(s: string): string {
    seq(|s|, i requires 0 <= i < |s| => LowerChar(s[i]))
  }

  /** Lowercasing acts on each part of a concatenation separately. */
  lemma ToLowerAppend(a: string, b: string)
    ensures ToLower(a + b) == ToLower(a) + ToLower(b)
  {
    assert forall i :: 0 <= i < |a + b| ==>
      ToLower(a + b)[i] == (ToLower(a) + ToLower(b))[i];
  }

  /** Lowercasing leaves no ASCII capital behind, and lowercasing twice is
      lowercasing once. */
  lemma ToLowerIdempotent(s: string)
    ensures forall i :: 0 <= i < |s| ==> !IsAsciiUpper(ToLower(s)[i])
    ensures ToLower(ToLower(s)) == ToLower(s)
  {
  }

  predicate IsAsciiDigit(c: char) {
    '0' <= c <= '9'
  }

  /** `s.replace(/\D/g, "")`: keeps the ASCII digits of `s`, in order. */
  function Digits(s: string): (r: string)
    ensures |r| <= |s|
  {
    if |s| == 0 then []
    else if IsAsciiDigit(s[0]) then [s[0]] + Digits(s[1..])
    else Digits(s[1..])
  }

  /** Only digits survive; a string of digits is kept whole and a string
      without digits vanishes. */
  lemma {:induction false} DigitsFilter(s: string)
    ensures forall i :: 0 <= i < |Digits(s)| ==> IsAsciiDigit(Digits(s)[i])
    ensures (forall i :: 0 <= i < |s| ==> IsAsciiDigit(s[i])) ==> Digits(s) == s
    ensures (forall i :: 0 <= i < |s| ==> !IsAsciiDigit(s[i])) ==> Digits(s) == []
  {
    if |s| > 0 {
      DigitsFilter(s[1..]);
      if IsAsciiDigit(s[0]) {
        assert s == [s[0]] + s[1..];
      }
    }
  }

  /** The digit filter keeps every occurrence of every ASCII digit and
      nothing else. */
  lemma {:induction false} DigitsCounts(s: string)
    ensures forall c :: multiset(Digits(s))[c] == (if IsAsciiDigit(c) then multiset(s)[c] else 0)
  {
    if |s| > 0 {
      DigitsCounts(s[1..]);
      assert s == [s[0]] + s[1..];
      assert multiset(s) == multiset{s[0]} + multiset(s[1..]);
    }
  }

  /** The positions below `n` that hold an ASCII digit. */
  ghost function DigitPositions(s: string, n: nat): set<nat>
    requires n <= |s|
  {
    set i: nat | i < n && IsAsciiDigit(s[i])
  }

  /** The digit filter of a prefix is as long as the prefix has digit
      positions. */
  lemma {:induction false} DigitsCountPositions(s: string, n: nat)
    requires n <= |s|
    ensures |Digits(s[..n])| == |DigitPositions(s, n)|
    decreases n
  {
    if n > 0 {
      DigitsCountPositions(s, n - 1);
      assert s[..n] == s[..n - 1] + [s[n - 1]];
      DigitsAppend(s[..n - 1], [s[n - 1]]);
      if IsAsciiDigit(s[n - 1]) {
        assert DigitPositions(s, n) == DigitPositions(s, n - 1) + {n - 1};
      } else {
        assert DigitPositions(s, n) == DigitPositions(s, n - 1);
      }
    }
  }

  /** Removing non-digits distributes over concatenation. */
  lemma {:induction false} DigitsAppend(a: string, b: string)
    ensures Digits(a + b) == Digits(a) + Digits(b)
  {
    if |a| == 0 {
      assert a + b == b;
    } else {
      assert (a + b)[1..] == a[1..] + b;
      DigitsAppend(a[1..], b);
    }
  }

  /** `s.replace(/c/g, rep)` for a one-character pattern `c`: every
      occurrence of `c` becomes `rep`, everything else is kept. */
  function ReplaceAll(s: string, c: char, rep: string): (r: string)
    ensures c !in s ==> r == s
    ensures |rep| >= 1 ==> |r| >= |s|
  {
    if |s| == 0 then []
    else (if s[0] == c then rep else [s[0]]) + ReplaceAll(s[1..], c, rep)
  }

  /** A global replacement acts on each part of a concatenation separately. */
  lemma {:induction false} ReplaceAllAppend(a: string, b: string, c: char, rep: string)
    ensures ReplaceAll(a + b, c, rep) == ReplaceAll(a, c, rep) + ReplaceAll(b, c, rep)
  {
    if |a| == 0 {
      assert a + b == b;
    } else {
      assert (a + b)[1..] == a[1..] + b;
      ReplaceAllAppend(a[1..], b, c, rep);
    }
  }

  /** `s.indexOf(c)`: the position of the first occurrence of `c`, if any. */
  function IndexOf(s: string, c: char): (r: Option<nat>)
    ensures r.None? <==> c !in s
    ensures r.Some? ==> r.value < |s| && s[r.value] == c && c !in s[..r.value]
  {
    if |s| == 0 then None
    else if s[0] == c then Some(0)
    else match IndexOf(s[1..], c)
      case None => None
      case Some(j) =>
        assert s[..j + 1] == [s[0]] + s[1..][..j];
        Some(j + 1)
  }

  /** `s.split(",")[0]`: everything before the first comma, or the whole
      string when it has none. */
  function FirstSegment(s: string): (r: string)
    ensures r <= s && ',' !in r
    ensures r == s || s[|r|] == ','
  {
    match IndexOf(s, ',')
    case None => s
    case Some(i) => s[..i]
  }

  /** Lowercasing never turns white space into something else or back. */
  lemma LowerCharKeepsSpace(c: char)
    ensures IsJsSpace(LowerChar(c)) <==> IsJsSpace(c)
  {
  }

  /** A string with no white space at either end is its own trim. */
  lemma TrimOfTrimmed(s: string)
    requires s == [] || (!IsJsSpace(s[0]) && !IsJsSpace(s[|s| - 1]))
    ensures Trim(s) == s
  {
  }

  /** `s.slice(0, n)` for a non-negative `n`. */
  function Slice(s: string, n: nat): (r: string)
    ensures |r| <= n && r <= s
    ensures |s| <= n ==> r == s
    ensures |s| > n ==> |r| == n
  {
    if |s| <= n then s else s[..n]
  }
}
