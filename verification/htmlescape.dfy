/** `escapeHtml` from api/notify-lead.js: five global replacements applied
    one after another, ampersand first, so that the entities the later
    replacements introduce are never escaped a second time. */
module HtmlEscape {
  import opened JsStrings

  /** The five characters the escaper rewrites. */
  predicate IsSpecial(c: char) {
    c == '&' || c == '<' || c == '>' || c == '"' || c == '\''
  }

  /** The five character references the escaper produces. */
  const AmpRef: string := "&amp;"
  const LtRef: string := "&lt;"
  const GtRef: string := "&gt;"
  const QuotRef: string := "&quot;"
  const AposRef: string := "&#x27;"

  /** The chain of replacements exactly as the endpoint writes it. */
  function EscapeHtml(s: string): (r: string)
    ensures |r| >= |s|
  {
    var a := ReplaceAll(s, '&', AmpRef);
    var b := ReplaceAll(a, '<', LtRef);
    var c := ReplaceAll(b, '>', GtRef);
    var d := ReplaceAll(c, '"', QuotRef);
    ReplaceAll(d, '\'', AposRef)
  }

  /** The character reference each special character stands for. */
  function EscapeChar(c: char): (r: string)
    ensures |r| >= 1 && r[0] == (if IsSpecial(c) then '&' else c)
    ensures !IsSpecial(c) ==> r == [c]
  {
    match c
    case '&' => AmpRef
    case '<' => LtRef
    case '>' => GtRef
    case '"' => QuotRef
    case '\'' => AposRef
    case _ => [c]
  }

  /** Text with none of the five special characters passes through
      unchanged. */
  lemma EscapeHtmlIdentity(s: string)
    requires forall i :: 0 <= i < |s| ==> !IsSpecial(s[i])
    ensures EscapeHtml(s) == s
  {
    assert '&' !in s && '<' !in s && '>' !in s && '"' !in s && '\'' !in s;
  }

  /** A one-pass reference escaper: each character is replaced by its own
      reference, independently of its neighbours. */
  function EscapeEach(s: string): string {
    if |s| == 0 then [] else EscapeChar(s[0]) + EscapeEach(s[1..])
  }

  /** The replacement chain on one character that is not special leaves
      it alone. */
  lemma EscapeHtmlPlainChar(c: char)
    requires !IsSpecial(c)
    ensures EscapeHtml([c]) == [c]
  {
  }

  /** The replacement chain on a single character gives that character's
      reference. Because `&` is replaced first, the `&` of a reference a
      later pass introduces is never escaped again; and each reference holds
      only `&`, `#`, letters, digits and `;`, so the passes after the one
      that produced it leave it alone. */
  lemma EscapeHtmlChar(c: char)
    ensures EscapeHtml([c]) == EscapeChar(c)
  {
    match c
    case '&' =>
      var x := ReplaceAll([c], '&', AmpRef);
      assert x == AmpRef;
      assert '<' !in x && '>' !in x && '"' !in x && '\'' !in x;
    case '<' =>
      assert ReplaceAll([c], '&', AmpRef) == [c];
      var x := ReplaceAll([c], '<', LtRef);
      assert x == LtRef;
      assert '>' !in x && '"' !in x && '\'' !in x;
    case '>' =>
      assert ReplaceAll([c], '&', AmpRef) == [c];
      assert ReplaceAll([c], '<', LtRef) == [c];
      var x := ReplaceAll([c], '>', GtRef);
      assert x == GtRef;
      assert '"' !in x && '\'' !in x;
    case '"' =>
      assert ReplaceAll([c], '&', AmpRef) == [c];
      assert ReplaceAll([c], '<', LtRef) == [c];
      assert ReplaceAll([c], '>', GtRef) == [c];
      var x := ReplaceAll([c], '"', QuotRef);
      assert x == QuotRef;
      assert '\'' !in x;
    case '\'' =>
      assert ReplaceAll([c], '&', AmpRef) == [c];
      assert ReplaceAll([c], '<', LtRef) == [c];
      assert ReplaceAll([c], '>', GtRef) == [c];
      assert ReplaceAll([c], '"', QuotRef) == [c];
      assert ReplaceAll([c], '\'', AposRef) == AposRef;
    case _ =>
      EscapeHtmlPlainChar(c);
  }

  /** The chain of replacements acts on each part of a concatenation
      separately. */
  lemma EscapeHtmlAppend(x: string, y: string)
    ensures EscapeHtml(x + y) == EscapeHtml(x) + EscapeHtml(y)
  {
    var a, a' := ReplaceAll(x, '&', AmpRef), ReplaceAll(y, '&', AmpRef);
    ReplaceAllAppend(x, y, '&', AmpRef);
    var b, b' := ReplaceAll(a, '<', LtRef), ReplaceAll(a', '<', LtRef);
    ReplaceAllAppend(a, a', '<', LtRef);
    var c, c' := ReplaceAll(b, '>', GtRef), ReplaceAll(b', '>', GtRef);
    ReplaceAllAppend(b, b', '>', GtRef);
    var d, d' := ReplaceAll(c, '"', QuotRef), ReplaceAll(c', '"', QuotRef);
    ReplaceAllAppend(c, c', '"', QuotRef);
    ReplaceAllAppend(d, d', '\'', AposRef);
  }

  /** Escaping in five sequential passes, ampersand first, gives the same
      result as escaping every character independently in one pass: no
      entity introduced by one pass is touched by a later one. */
  lemma {:induction false} EscapeHtmlIsPerChar(s: string)
    ensures EscapeHtml(s) == EscapeEach(s)
  {
    if |s| > 0 {
      assert s == [s[0]] + s[1..];
      EscapeHtmlAppend([s[0]], s[1..]);
      EscapeHtmlChar(s[0]);
      EscapeHtmlIsPerChar(s[1..]);
    }
  }

  /** The suffix `s` begins with one of the five character references. */
  predicate StartsEntity(s: string) {
    AmpRef <= s || LtRef <= s || GtRef <= s || QuotRef <= s || AposRef <= s
  }

  /** No raw `<`, `>`, `"` or `'`, and every `&` opens a character
      reference. */
  predicate SafeHtmlText(r: string) {
    forall i :: 0 <= i < |r| ==>
      r[i] != '<' && r[i] != '>' && r[i] != '"' && r[i] != '\''
      && (r[i] == '&' ==> StartsEntity(r[i..]))
  }

  lemma SafeAppend(a: string, b: string)
    requires SafeHtmlText(a) && SafeHtmlText(b)
    ensures SafeHtmlText(a + b)
  {
    var r := a + b;
    forall i | 0 <= i < |r| && r[i] == '&'
      ensures StartsEntity(r[i..])
    {
      if i < |a| {
        assert StartsEntity(a[i..]);
        assert r[i..] == a[i..] + b;
      } else {
        assert r[i] == b[i - |a|];
        assert r[i..] == b[i - |a|..];
      }
    }
  }

  lemma {:induction false} EscapeEachSafe(s: string)
    ensures SafeHtmlText(EscapeEach(s))
  {
    if |s| > 0 {
      var e := EscapeChar(s[0]);
      assert SafeHtmlText(e) by {
        if IsSpecial(s[0]) {
          assert StartsEntity(e[0..]);
        }
      }
      EscapeEachSafe(s[1..]);
      SafeAppend(e, EscapeEach(s[1..]));
    }
  }

  /** The escaper's output is safe to interpolate into HTML text: it holds
      no `<`, `>`, `"` or `'`, and each `&` in it starts one of `&amp;`,
      `&lt;`, `&gt;`, `&quot;`, `&#x27;`. */
  lemma EscapeHtmlSafe(s: string)
    ensures SafeHtmlText(EscapeHtml(s))
  {
    EscapeHtmlIsPerChar(s);
    EscapeEachSafe(s);
  }

  /** Decodes the five character references back to their characters,
      scanning left to right; every other character is kept. */
  function Unescape(s: string): string
    decreases |s|
  {
    if |s| == 0 then []
    else if AmpRef <= s then "&" + Unescape(s[5..])
    else if LtRef <= s then "<" + Unescape(s[4..])
    else if GtRef <= s then ">" + Unescape(s[4..])
    else if QuotRef <= s then "\"" + Unescape(s[6..])
    else if AposRef <= s then "'" + Unescape(s[6..])
    else [s[0]] + Unescape(s[1..])
  }

  lemma UnescapeChar(c: char, rest: string)
    ensures Unescape(EscapeChar(c) + rest) == [c] + Unescape(rest)
  {
    var e := EscapeChar(c) + rest;
    if IsSpecial(c) {
      assert EscapeChar(c) <= e;
      assert e[|EscapeChar(c)|..] == rest;
    } else {
      assert e[0] == c && e[1..] == rest;
    }
  }

  lemma {:induction false} UnescapeEscapeEach(s: string)
    ensures Unescape(EscapeEach(s)) == s
  {
    if |s| > 0 {
      UnescapeChar(s[0], EscapeEach(s[1..]));
      UnescapeEscapeEach(s[1..]);
      assert s == [s[0]] + s[1..];
    }
  }

  /** Decoding the five references gives back exactly the escaped text;
      in particular two different texts never escape to the same output. */
  lemma UnescapeEscapeHtml(s: string)
    ensures Unescape(EscapeHtml(s)) == s
  {
    EscapeHtmlIsPerChar(s);
    UnescapeEscapeEach(s);
  }

  lemma EscapeHtmlInjective(s: string, s': string)
    requires EscapeHtml(s) == EscapeHtml(s')
    ensures s == s'
  {
    UnescapeEscapeHtml(s);
    UnescapeEscapeHtml(s');
  }
}
