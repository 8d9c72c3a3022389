/**
  `escape_html` of `src/myst_spec_py/mdast_to_html.py`: Python's `html.escape` with the
  entity it writes for the apostrophe turned back into the apostrophe. Stated here as the
  character map it amounts to, and proved equal to the two-step definition.
*/
module HtmlEscape {

  /** What `escape_html` writes for one character. */
  function EscapeChar(c: char): string {
    if c == '&' then "&amp;"
    else if c == '<' then "&lt;"
    else if c == '>' then "&gt;"
    else if c == '"' then "&quot;"
    else [c]
  }

  /** `escape_html`: `&`, `<`, `>` and `"` become entities; everything else, `'` included, stays. */
  function EscapeHtml(s: string): string {
    if s == [] then "" else EscapeChar(s[0]) + EscapeHtml(s[1..])
  }

  /** What Python's `html.escape` (with `quote=True`) writes for one character. */
  function PyEscapeChar(c: char): string {
    if c == '\'' then "&#x27;" else EscapeChar(c)
  }

  /** Python's `html.escape(s)`. */
  function PyEscape(s: string): string {
    if s == [] then "" else PyEscapeChar(s[0]) + PyEscape(s[1..])
  }

  /** Python's `s.replace(pat, rep)`: non-overlapping occurrences, found left to right. */
  function ReplaceAll(s: string, pat: string, rep: string): string
    requires pat != []
    decreases |s|
  {
    if |s| < |pat| then s
    else if StartsWith(s, pat) then rep + ReplaceAll(s[|pat|..], pat, rep)
    else [s[0]] + ReplaceAll(s[1..], pat, rep)
  }

  /** `s.startswith(pat)`. */
  predicate StartsWith(s: string, pat: string)
    decreases |pat|
  {
    |pat| <= |s| && (pat == [] || (s[0] == pat[0] && StartsWith(s[1..], pat[1..])))
  }

  lemma {:induction false} StartsWithSelf(pat: string, y: string)
    ensures StartsWith(pat + y, pat)
    decreases |pat|
  {
    if pat != [] {
      assert (pat + y)[1..] == pat[1..] + y;
      StartsWithSelf(pat[1..], y);
    }
  }

  lemma {:induction false} StartsWithDiffers(s: string, pat: string, k: nat)
    requires k < |pat| <= |s| && s[k] != pat[k]
    ensures !StartsWith(s, pat)
    decreases k
  {
    if k > 0 {
      StartsWithDiffers(s[1..], pat[1..], k - 1);
    }
  }

  const Apos: string := "&#x27;"

  /** Where the text does not start with the pattern, its first character is kept. */
  lemma ReplaceHead(s: string, pat: string, rep: string, k: nat)
    requires s != [] && k < |pat| && (|s| >= |pat| ==> s[k] != pat[k])
    ensures ReplaceAll(s, pat, rep) == [s[0]] + ReplaceAll(s[1..], pat, rep)
  {
    if |s| >= |pat| {
      StartsWithDiffers(s, pat, k);
    } else {
      assert s == [s[0]] + s[1..];
    }
  }

  /** A stretch free of the pattern's first character passes through the replacement unchanged. */
  lemma {:induction false} ReplaceSkip(w: string, x: string, pat: string, rep: string)
    requires pat != [] && forall i :: 0 <= i < |w| ==> w[i] != pat[0]
    ensures ReplaceAll(w + x, pat, rep) == w + ReplaceAll(x, pat, rep)
  {
    if w != [] {
      var s := w + x;
      ReplaceHead(s, pat, rep, 0);
      ReplaceSkip(w[1..], x, pat, rep);
      assert s[1..] == w[1..] + x;
      var r := ReplaceAll(x, pat, rep);
      assert [w[0]] + (w[1..] + r) == w + r by {
        assert w == [w[0]] + w[1..];
      }
    } else {
      assert w + x == x;
    }
  }

  /**
    A stretch that starts like the pattern but differs from it at the second character, and
    holds the pattern's first character nowhere else, passes through unchanged.
  */
  lemma ReplaceEntity(e: string, x: string, pat: string, rep: string)
    requires |pat| >= 2 && |e| >= 2 && e[1] != pat[1]
    requires forall i :: 1 <= i < |e| ==> e[i] != pat[0]
    ensures ReplaceAll(e + x, pat, rep) == e + ReplaceAll(x, pat, rep)
  {
    var s, w, r := e + x, e[1..], ReplaceAll(x, pat, rep);
    forall i | 0 <= i < |w|
      ensures w[i] != pat[0]
    {
      assert w[i] == e[i + 1];
    }
    ReplaceSkip(w, x, pat, rep);
    assert s[1..] == w + x;
    ReplaceHead(s, pat, rep, 1);
    calc {
      ReplaceAll(s, pat, rep);
      [s[0]] + ReplaceAll(w + x, pat, rep);
      [e[0]] + (w + r);
      { assert e == [e[0]] + w; }
      e + r;
    }
  }

  /** `escape_html` as written: `html.escape`, then `&#x27;` replaced by `'`. */
  lemma {:induction false} EscapeHtmlIsPythonEscape(s: string)
    ensures EscapeHtml(s) == ReplaceAll(PyEscape(s), Apos, "'")
  {
    if s != [] {
      var c := s[0];
      var rest := PyEscape(s[1..]);
      EscapeHtmlIsPythonEscape(s[1..]);
      if c == '\'' {
        StartsWithSelf(Apos, rest);
        assert (Apos + rest)[|Apos|..] == rest;
      } else if c == '&' || c == '<' || c == '>' || c == '"' {
        ReplaceEntity(EscapeChar(c), rest, Apos, "'");
      } else {
        ReplaceSkip([c], rest, Apos, "'");
      }
    }
  }

  /** Reading the four entities back. */
  function Unescape(s: string): string
    decreases |s|
  {
    if s == [] then ""
    else if |s| >= 5 && s[..5] == "&amp;" then "&" + Unescape(s[5..])
    else if |s| >= 4 && s[..4] == "&lt;" then "<" + Unescape(s[4..])
    else if |s| >= 4 && s[..4] == "&gt;" then ">" + Unescape(s[4..])
    else if |s| >= 6 && s[..6] == "&quot;" then "\"" + Unescape(s[6..])
    else [s[0]] + Unescape(s[1..])
  }

  /** One escaped character, whatever follows it, reads back as that character. */
  lemma UnescapeChar(c: char, y: string)
    ensures Unescape(EscapeChar(c) + y) == [c] + Unescape(y)
  {
    if c == '&' {
      UnescapeAmp(y);
    } else if c == '<' {
      UnescapeLt(y);
    } else if c == '>' {
      UnescapeGt(y);
    } else if c == '"' {
      UnescapeQuot(y);
    } else {
      UnescapePlain(c, y);
    }
  }

  lemma UnescapeAmp(y: string)
    ensures Unescape("&amp;" + y) == "&" + Unescape(y)
  {
    var x := "&amp;" + y;
    assert x[..5] == "&amp;" && x[5..] == y;
  }

  lemma UnescapeLt(y: string)
    ensures Unescape("&lt;" + y) == "<" + Unescape(y)
  {
    var x := "&lt;" + y;
    assert x[..4] == "&lt;" && x[4..] == y;
    if |x| >= 5 {
      assert x[..5][1] == 'l';
    }
  }

  lemma UnescapeGt(y: string)
    ensures Unescape("&gt;" + y) == ">" + Unescape(y)
  {
    var x := "&gt;" + y;
    assert x[..4] == "&gt;" && x[4..] == y;
    assert x[..4] != "&lt;" by { assert x[..4][1] == 'g'; }
    if |x| >= 5 {
      assert x[..5][1] == 'g';
    }
  }

  lemma UnescapeQuot(y: string)
    ensures Unescape("&quot;" + y) == "\"" + Unescape(y)
  {
    var x := "&quot;" + y;
    assert x[..6] == "&quot;" && x[6..] == y;
    assert x[..5][1] == 'q' && x[..4][1] == 'q';
  }

  lemma UnescapePlain(c: char, y: string)
    requires c != '&'
    ensures Unescape([c] + y) == [c] + Unescape(y)
  {
    var x := [c] + y;
    assert x[0] == c && x[1..] == y;
    if |x| >= 4 {
      assert x[..4][0] == c;
    }
    if |x| >= 5 {
      assert x[..5][0] == c;
    }
    if |x| >= 6 {
      assert x[..6][0] == c;
    }
  }

  /** Escaping loses nothing: the entities read back to the original text. */
  lemma {:induction false} UnescapeEscape(s: string)
    ensures Unescape(EscapeHtml(s)) == s
  {
    if s != [] {
      UnescapeEscape(s[1..]);
      UnescapeChar(s[0], EscapeHtml(s[1..]));
      assert s == [s[0]] + s[1..];
    }
  }

  /** No `<`, `>` or `"` in the text. */
  predicate MarkupFree(s: string) {
    forall i :: 0 <= i < |s| ==> s[i] != '<' && s[i] != '>' && s[i] != '"'
  }

  lemma MarkupFreeConcat(a: string, b: string)
    requires MarkupFree(a) && MarkupFree(b)
    ensures MarkupFree(a + b)
  {
    forall i | 0 <= i < |a + b|
      ensures (a + b)[i] != '<' && (a + b)[i] != '>' && (a + b)[i] != '"'
    {
      if i >= |a| {
        assert (a + b)[i] == b[i - |a|];
      }
    }
  }

  /** The escaped text holds no `<`, `>` or `"`: it cannot open a tag or close an attribute. */
  lemma {:induction false} EscapeHtmlSafe(s: string)
    ensures MarkupFree(EscapeHtml(s))
  {
    if s != [] {
      EscapeHtmlSafe(s[1..]);
      assert MarkupFree(EscapeChar(s[0]));
      MarkupFreeConcat(EscapeChar(s[0]), EscapeHtml(s[1..]));
    }
  }

  lemma {:induction false} EscapeHtmlConcat(a: string, b: string)
    ensures EscapeHtml(a + b) == EscapeHtml(a) + EscapeHtml(b)
  {
    if a == [] {
      assert a + b == b;
    } else {
      assert (a + b)[1..] == a[1..] + b;
      EscapeHtmlConcat(a[1..], b);
    }
  }

  lemma EscapeHtmlCons(c: char, s: string)
    ensures EscapeHtml([c] + s) == EscapeChar(c) + EscapeHtml(s)
  {
    assert ([c] + s)[1..] == s;
  }

  /** An example of `escape_html`: the apostrophes are kept. */
  lemma EscapeExample()
    ensures EscapeHtml("<a>" + " & " + "'b'") == "&lt;a&gt;" + " &amp; " + "'b'"
  {
    EscapeHtmlConcat("<a>" + " & ", "'b'");
    EscapeHtmlConcat("<a>", " & ");
    EscapeTag();
    EscapeAmpersand();
    EscapeQuoted();
  }

  lemma EscapeTag()
    ensures EscapeHtml("<a>") == "&lt;a&gt;"
  {
    EscapeHtmlCons('>', "");
    EscapeHtmlCons('a', ">");
    EscapeHtmlCons('<', "a>");
  }

  lemma EscapeAmpersand()
    ensures EscapeHtml(" & ") == " &amp; "
  {
    EscapeHtmlCons(' ', "");
    EscapeHtmlCons('&', " ");
    EscapeHtmlCons(' ', "& ");
  }

  lemma EscapeQuoted()
    ensures EscapeHtml("'b'") == "'b'"
  {
    EscapeHtmlCons('\'', "");
    EscapeHtmlCons('b', "'");
    EscapeHtmlCons('\'', "b'");
  }
}
