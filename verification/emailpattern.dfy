/** The e-mail shape test shared by the server validator and the browser
    helper: the regular expression `^[^\s@]+@[^\s@]+\.[^\s@]+$`.
    `MatchesEmailRegex` states what the expression denotes; `EmailShape` is
    a regex-free decision procedure, proved to agree with it. */
module EmailPattern {
  import opened Wrappers
  import opened JsStrings

  /** A character of the class `[^\s@]`. */
  predicate IsPlain(c: char) {
    c != '@' && !IsJsSpace(c)
  }

  predicate AllPlain(s: string) {
    forall i :: 0 <= i < |s| ==> IsPlain(s[i])
  }

  /** A string matched by `[^\s@]+`. */
  predicate PlainRun(s: string) {
    |s| > 0 && AllPlain(s)
  }

  /** The language of `^[^\s@]+@[^\s@]+\.[^\s@]+$`: a local part, `@`, a
      domain part, a dot, and a final part, each of the three parts a
      non-empty run of characters that are neither white space nor `@`. */
  ghost predicate MatchesEmailRegex(s: string) {
    exists l: string, d: string, t: string ::
      PlainRun(l) && PlainRun(d) && PlainRun(t) && s == l + "@" + d + "." + t
  }

  /** A dot with at least one character on each side. */
  predicate HasInnerDot(r: string) {
    exists k :: 0 < k < |r| - 1 && r[k] == '.'
  }

  /** Decides the e-mail shape by splitting at the first `@`: the part
      before it must be a non-empty plain run, the part after it must be
      plain throughout and contain a dot that is neither its first nor its
      last character. */
  predicate EmailShape(s: string) {
    match IndexOf(s, '@')
    case None => false
    case Some(i) => PlainRun(s[..i]) && AllPlain(s[i + 1..]) && HasInnerDot(s[i + 1..])
  }

  /** Every string the decision procedure accepts is matched by the
      regular expression. */
  lemma EmailShapeSound(s: string)
    requires EmailShape(s)
    ensures MatchesEmailRegex(s)
  {
    var i := IndexOf(s, '@').value;
    var r := s[i + 1..];
    var k :| 0 < k < |r| - 1 && r[k] == '.';
    var l, d, t := s[..i], r[..k], r[k + 1..];
    AllPlainSlice(r, 0, k);
    AllPlainSlice(r, k + 1, |r|);
    assert r == d + "." + t;
    assert s == l + "@" + d + "." + t by {
      assert s == s[..i] + [s[i]] + r;
    }
    assert PlainRun(l) && PlainRun(d) && PlainRun(t);
  }

  lemma AllPlainSlice(s: string, i: nat, j: nat)
    requires i <= j <= |s| && AllPlain(s)
    ensures AllPlain(s[i..j])
  {
    assert forall k :: 0 <= k < j - i ==> s[i..j][k] == s[i + k];
  }

  /** Every string the regular expression matches is accepted by the
      decision procedure. */
  lemma EmailShapeComplete(s: string)
    requires MatchesEmailRegex(s)
    ensures EmailShape(s)
  {
    var l: string, d: string, t: string :|
      PlainRun(l) && PlainRun(d) && PlainRun(t) && s == l + "@" + d + "." + t;
    var r := d + "." + t;
    assert s == l + ['@'] + r;
    assert s[|l|] == '@';
    var io := IndexOf(s, '@');
    var i := io.value;
    assert i == |l|;
    assert s[..i] == l;
    assert s[i + 1..] == r;
    assert r[|d|] == '.';
    assert HasInnerDot(r);
    forall j | 0 <= j < |r|
      ensures IsPlain(r[j])
    {
      if j < |d| {
        assert r[j] == d[j];
      } else if j > |d| {
        assert r[j] == t[j - |d| - 1];
      }
    }
  }

  /** The decision procedure accepts exactly the strings the regular
      expression matches. */
  lemma EmailShapeCorrect(s: string)
    ensures EmailShape(s) <==> MatchesEmailRegex(s)
  {
    if EmailShape(s) {
      EmailShapeSound(s);
    }
    if MatchesEmailRegex(s) {
      EmailShapeComplete(s);
    }
  }

  /** Lowercasing a character keeps it in the same class: `@`, dot, plain. */
  lemma LowerCharKeepsClass(c: char)
    ensures LowerChar(c) == '@' <==> c == '@'
    ensures LowerChar(c) == '.' <==> c == '.'
    ensures IsPlain(LowerChar(c)) <==> IsPlain(c)
  {
  }

  /** The class-level facts about a lowercased string that the e-mail
      test depends on. */
  lemma {:induction false} ToLowerKeepsClasses(s: string)
    ensures forall i :: 0 <= i < |s| ==> (ToLower(s)[i] == '@' <==> s[i] == '@')
    ensures AllPlain(ToLower(s)) <==> AllPlain(s)
    ensures HasInnerDot(ToLower(s)) <==> HasInnerDot(s)
  {
    var s' := ToLower(s);
    forall i | 0 <= i < |s|
      ensures (s'[i] == '@' <==> s[i] == '@')
      ensures (s'[i] == '.' <==> s[i] == '.')
      ensures (IsPlain(s'[i]) <==> IsPlain(s[i]))
    {
      LowerCharKeepsClass(s[i]);
    }
    if HasInnerDot(s) {
      var k :| 0 < k < |s| - 1 && s[k] == '.';
      assert s'[k] == '.';
    }
    if HasInnerDot(s') {
      var k :| 0 < k < |s'| - 1 && s'[k] == '.';
      assert s[k] == '.';
    }
  }

  /** Two strings of equal length whose characters agree on being `@`
      have the same first `@`. */
  lemma {:induction false} IndexOfAgrees(s: string, s': string)
    requires |s| == |s'|
    requires forall i :: 0 <= i < |s| ==> (s[i] == '@' <==> s'[i] == '@')
    ensures IndexOf(s, '@') == IndexOf(s', '@')
  {
    if |s| > 0 && s[0] != '@' {
      IndexOfAgrees(s[1..], s'[1..]);
    }
  }

  /** Lowercasing ASCII letters never changes whether a string has the
      e-mail shape, so lowercasing before the test (as the server does)
      rejects exactly the addresses the test would reject unlowered. */
  lemma EmailShapeIgnoresCase(s: string)
    ensures EmailShape(ToLower(s)) <==> EmailShape(s)
  {
    var s' := ToLower(s);
    ToLowerKeepsClasses(s);
    IndexOfAgrees(s, s');
    var io := IndexOf(s, '@');
    if io.Some? {
      var i := io.value;
      assert s'[..i] == ToLower(s[..i]);
      assert s'[i + 1..] == ToLower(s[i + 1..]);
      ToLowerKeepsClasses(s[..i]);
      ToLowerKeepsClasses(s[i + 1..]);
    }
  }
}
