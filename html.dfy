/** `escapeHtml` / `escapeAttr`, identical in the three page scripts: the
    five HTML-special characters become entities, everything else is kept. */
module Html {

  /** The characters `escapeHtml` replaces. */
  predicate Special(c: char) {
    c == '&' || c == '<' || c == '>' || c == '"' || c == '\''
  }

  /** The replacement of one character. */
  function EscapeChar(c: char): (r: string)
    ensures Special(c) ==> |r| >= 4 && r[0] == '&' && r[|r| - 1] == ';'
    ensures !Special(c) ==> r == [c]
  {
    match c
    case '&' => "&amp;"
    case '<' => "&lt;"
    case '>' => "&gt;"
    case '"' => "&quot;"
    case '\'' => "&#39;"
    case _ => [c]
  }

  /** `escapeHtml(s)` on a string argument. The output never contains a raw
      `<`, `>`, `"` or `'`, and is at least as long as the input. */
  function EscapeHtml(s: string): (r: string)
    ensures |r| >= |s|
    ensures forall i :: 0 <= i < |r| ==> r[i] != '<' && r[i] != '>' && r[i] != '"' && r[i] != '\''
  {
    if |s| == 0 then "" else EscapeChar(s[0]) + EscapeHtml(s[1..])
  }

  /** `escapeAttr(s)`, which is defined as `escapeHtml(s)`. */
  function EscapeAttr(s: string): (r: string)
    ensures r == EscapeHtml(s)
  {
    EscapeHtml(s)
  }

  /** Decoding of the five entities `escapeHtml` produces; any other
      character is copied. */
  function Unescape(r: string): string
    decreases |r|
  {
    if |r| == 0 then ""
    else if r[0] == '&' && |r| >= 5 && r[..5] == "&amp;" then "&" + Unescape(r[5..])
    else if r[0] == '&' && |r| >= 4 && r[..4] == "&lt;" then "<" + Unescape(r[4..])
    else if r[0] == '&' && |r| >= 4 && r[..4] == "&gt;" then ">" + Unescape(r[4..])
    else if r[0] == '&' && |r| >= 6 && r[..6] == "&quot;" then "\"" + Unescape(r[6..])
    else if r[0] == '&' && |r| >= 5 && r[..5] == "&#39;" then "'" + Unescape(r[5..])
    else [r[0]] + Unescape(r[1..])
  }

  /** Decoding undoes one escaped character. */
  lemma UnescapeChar(c: char, t: string)
    ensures Unescape(EscapeChar(c) + t) == [c] + Unescape(t)
  {
    var e := EscapeChar(c) + t;
    if c == '&' {
      assert e[..5] == "&amp;" && e[5..] == t;
    } else if c == '<' {
      assert e[..4] == "&lt;" && e[4..] == t;
    } else if c == '>' {
      assert e[..4] == "&gt;" && e[4..] == t;
      assert e[..4] != "&lt;";
    } else if c == '"' {
      assert e[..6] == "&quot;" && e[6..] == t;
      assert e[..5] != "&amp;" && e[..4] != "&lt;" && e[..4] != "&gt;";
    } else if c == '\'' {
      assert e[..5] == "&#39;" && e[5..] == t;
      assert e[..5] != "&amp;" && e[..4] != "&lt;" && e[..4] != "&gt;";
      assert |e| < 6 || e[..6] != "&quot;";
    } else {
      assert e[0] == c && e[1..] == t;
    }
  }

  /** Escaping loses nothing: every character is recoverable, so each
      non-special character survives unchanged and each special one is
      exactly its entity. */
  lemma {:induction false} UnescapeEscape(s: string)
    ensures Unescape(EscapeHtml(s)) == s
  {
    if |s| > 0 {
      UnescapeEscape(s[1..]);
      UnescapeChar(s[0], EscapeHtml(s[1..]));
      assert s == [s[0]] + s[1..];
    }
  }

  /** Text without special characters is left exactly as it is. */
  lemma {:induction false} EscapePlain(s: string)
    requires forall i :: 0 <= i < |s| ==> !Special(s[i])
    ensures EscapeHtml(s) == s
  {
    if |s| > 0 {
      EscapePlain(s[1..]);
      assert s == [s[0]] + s[1..];
    }
  }

  /** Escaping distributes over concatenation, so each input character is
      replaced independently of its neighbours. */
  lemma {:induction false} EscapeAppend(s: string, t: string)
    ensures EscapeHtml(s + t) == EscapeHtml(s) + EscapeHtml(t)
  {
    if |s| > 0 {
      EscapeAppend(s[1..], t);
      assert (s + t)[1..] == s[1..] + t;
    } else {
      assert s + t == t;
    }
  }
}
