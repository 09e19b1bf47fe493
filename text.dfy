/**
 The string operations the extraction rules use: ASCII lower-casing (`str.lower()`),
 `str.endswith` and Python's `str.replace`, together with the HTML escaping of `&` that the
 server applies to gallery URLs and that `replace("&amp;", "&")` undoes.
 */
module Text {

  function LowerChar(c: char): char {
    if 'A' <= c <= 'Z' then (c as int + ('a' as int - 'A' as int)) as char else c
  }

  /** `s.lower()` restricted to ASCII letters. */
  function Lower(s: string): string {
    seq(|s|, i requires 0 <= i < |s| => LowerChar(s[i]))
  }

  lemma {:induction false} LowerAppend(a: string, b: string)
    ensures Lower(a + b) == Lower(a) + Lower(b)
  {
    if a == [] {
      assert a + b == b;
    } else {
      assert (a + b)[1..] == a[1..] + b;
      LowerAppend(a[1..], b);
    }
  }

  predicate EndsWith(s: string, suffix: string) {
    |suffix| <= |s| && s[|s| - |suffix|..] == suffix
  }

  /** `s.replace(pat, rep)`: every occurrence of `pat`, found left to right without overlap,
      is replaced by `rep`; the replacement text is never searched again. */
  function Replace(s: string, pat: string, rep: string): string
    requires pat != []
    decreases |s|
  {
    if s == [] then []
    else if |pat| <= |s| && s[..|pat|] == pat then rep + Replace(s[|pat|..], pat, rep)
    else [s[0]] + Replace(s[1..], pat, rep)
  }

  predicate OccursAt(s: string, pat: string, i: int) {
    0 <= i && i + |pat| <= |s| && s[i..i + |pat|] == pat
  }

  /** A string in which the pattern does not occur is returned unchanged. */
  lemma {:induction false} ReplaceWithoutOccurrence(s: string, pat: string, rep: string)
    requires pat != []
    requires forall i :: !OccursAt(s, pat, i)
    ensures Replace(s, pat, rep) == s
    decreases |s|
  {
    if s != [] {
      assert !OccursAt(s, pat, 0);
      forall i ensures !OccursAt(s[1..], pat, i) {
        assert !OccursAt(s, pat, i + 1);
      }
      ReplaceWithoutOccurrence(s[1..], pat, rep);
    }
  }

  /** HTML escaping of ampersands, as the server applies it to the URLs it embeds in JSON. */
  function EscapeAmpersands(t: string): string {
    if t == [] then [] else (if t[0] == '&' then "&amp;" else [t[0]]) + EscapeAmpersands(t[1..])
  }

  /** `replace("&amp;", "&")`, the unescaping the scraper applies to gallery URLs. */
  function UnescapeAmpersands(s: string): string {
    Replace(s, "&amp;", "&")
  }

  /** Unescaping inverts the server's escaping, for every string. */
  lemma {:induction false} UnescapeEscape(t: string)
    ensures UnescapeAmpersands(EscapeAmpersands(t)) == t
  {
    if t != [] {
      var s := EscapeAmpersands(t);
      var rest := EscapeAmpersands(t[1..]);
      if t[0] == '&' {
        assert s == "&amp;" + rest;
        assert s[..5] == "&amp;" && s[5..] == rest;
      } else {
        assert s == [t[0]] + rest;
        assert s[0] != '&';
        assert s[1..] == rest;
      }
      UnescapeEscape(t[1..]);
    }
  }

  /** The position of the first newline of `s`, or `|s|` when there is none. */
  function NewlineIndex(s: string): (i: nat)
    ensures i <= |s|
    ensures i < |s| ==> s[i] == '\n'
    ensures forall j :: 0 <= j < i ==> s[j] != '\n'
    decreases |s|
  {
    if s == [] || s[0] == '\n' then 0 else 1 + NewlineIndex(s[1..])
  }

  /** The lines of a text, as a reader of a newline-terminated file sees them: the text is
      cut at every newline, and a last line without one is kept. */
  function SplitLines(text: string): seq<string>
    decreases |text|
  {
    if text == [] then []
    else
      var i := NewlineIndex(text);
      [text[..i]] + (if i < |text| then SplitLines(text[i + 1..]) else [])
  }
}
