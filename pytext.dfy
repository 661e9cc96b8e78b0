/** The Python string operations the Markdown renderer relies on: `str.isspace`
    (also what `\s` matches), `strip`, `lower`, `\w`, `html.escape` and
    `str.join`. */
module PyText {

  /** `str.isspace`, which is also the class `\s` matches in a `str` pattern. */
  predicate IsSpace(c: char) {
    || '\t' <= c <= '\r'
    || '\U{001C}' <= c <= ' '
    || c == '\U{0085}' || c == '\U{00A0}' || c == '\U{1680}'
    || '\U{2000}' <= c <= '\U{200A}'
    || c == '\U{2028}' || c == '\U{2029}' || c == '\U{202F}' || c == '\U{205F}'
    || c == '\U{3000}'
  }

  predicate Blank(s: string) {
    forall i :: 0 <= i < |s| ==> IsSpace(s[i])
  }

  /** The end of the white space that starts at `i`. */
  function SkipSpace(s: string, i: nat): (k: nat)
    requires i <= |s|
    ensures i <= k <= |s|
    ensures forall j :: i <= j < k ==> IsSpace(s[j])
    ensures k < |s| ==> !IsSpace(s[k])
    decreases |s| - i
  {
    if i < |s| && IsSpace(s[i]) then SkipSpace(s, i + 1) else i
  }

  /** The start of the white space that ends at `j`, not going below `lo`. */
  function BackSpace(s: string, lo: nat, j: nat): (k: nat)
    requires lo <= j <= |s|
    ensures lo <= k <= j
    ensures forall m :: k <= m < j ==> IsSpace(s[m])
    ensures k > lo ==> !IsSpace(s[k - 1])
  {
    if j > lo && IsSpace(s[j - 1]) then BackSpace(s, lo, j - 1) else j
  }

  /** `s.strip()`. */
  function Strip(s: string): (r: string)
    ensures |r| <= |s|
    ensures |r| > 0 ==> !IsSpace(r[0]) && !IsSpace(r[|r| - 1])
    ensures r == [] <==> Blank(s)
  {
    var a := SkipSpace(s, 0);
    s[a..BackSpace(s, a, |s|)]
  }

  /** Text without white space at either end is left as it is. */
  lemma {:induction false} StripUnpadded(s: string)
    requires |s| > 0 ==> !IsSpace(s[0]) && !IsSpace(s[|s| - 1])
    ensures Strip(s) == s
  {
  }

  lemma {:induction false} StripIdempotent(s: string)
    ensures Strip(Strip(s)) == Strip(s)
  {
    StripUnpadded(Strip(s));
  }

  /** The characters of the stripped text are characters of the text. */
  lemma {:induction false} StripChars(s: string)
    ensures forall c :: c in Strip(s) ==> c in s
  {
    var a := SkipSpace(s, 0);
    var b := BackSpace(s, a, |s|);
    forall c | c in Strip(s)
      ensures c in s
    {
      var k :| 0 <= k < |Strip(s)| && Strip(s)[k] == c;
      assert s[a + k] == c;
    }
  }

  predicate IsUpper(c: char) { 'A' <= c <= 'Z' }

  /** `str.lower` on ASCII letters. */
  function LowerChar(c: char): (d: char)
    ensures !IsUpper(d)
    ensures !IsUpper(c) ==> d == c
  {
    if IsUpper(c) then (c as int + 32) as char else c
  }

  function Lower(s: string): (r: string)
    ensures |r| == |s|
    ensures forall i :: 0 <= i < |s| ==> r[i] == LowerChar(s[i])
  {
    seq(|s|, i requires 0 <= i < |s| => LowerChar(s[i]))
  }

  /** `\w` on ASCII: letters, digits and the underscore. */
  predicate IsWordChar(c: char) {
    ('a' <= c <= 'z') || ('A' <= c <= 'Z') || ('0' <= c <= '9') || c == '_'
  }

  /** A character of a character reference: `&`, `#`, `;`, a lower-case
      letter or a digit. */
  predicate RefChar(c: char) {
    c == '&' || c == '#' || c == ';' || 'a' <= c <= 'z' || '0' <= c <= '9'
  }

  /** What `html.escape` makes of one character. */
  function EscapeChar(c: char, quote: bool): (e: string)
    ensures |e| >= 1
    ensures '<' !in e && '>' !in e
    ensures quote ==> '"' !in e && '\'' !in e
    ensures forall d :: d in e ==> d == c || RefChar(d)
  {
    if c == '&' then "&amp;"
    else if c == '<' then "&lt;"
    else if c == '>' then "&gt;"
    else if quote && c == '"' then "&quot;"
    else if quote && c == '\'' then "&#x27;"
    else [c]
  }

  /** `html.escape(s, quote)`: `&`, `<` and `>`, and with `quote` both quotes,
      become character references. */
  function HtmlEscape(s: string, quote: bool): (r: string)
    ensures |r| >= |s|
    ensures '<' !in r && '>' !in r
    ensures quote ==> '"' !in r && '\'' !in r
    ensures forall d :: d in r ==> d in s || RefChar(d)
  {
    if s == [] then [] else EscapeChar(s[0], quote) + HtmlEscape(s[1..], quote)
  }

  lemma {:induction false} HtmlEscapeConcat(a: string, b: string, quote: bool)
    ensures HtmlEscape(a + b, quote) == HtmlEscape(a, quote) + HtmlEscape(b, quote)
  {
    if a != [] {
      assert (a + b)[0] == a[0] && (a + b)[1..] == a[1..] + b;
      HtmlEscapeConcat(a[1..], b, quote);
      var e := EscapeChar(a[0], quote);
      assert e + (HtmlEscape(a[1..], quote) + HtmlEscape(b, quote)) == (e + HtmlEscape(a[1..], quote)) + HtmlEscape(b, quote);
    } else {
      assert a + b == b;
    }
  }

  /** Text without the characters `html.escape` replaces is escaped to itself. */
  lemma {:induction false} HtmlEscapePlain(s: string, quote: bool)
    requires forall c :: c in s ==> c != '&' && c != '<' && c != '>'
    requires quote ==> forall c :: c in s ==> c != '"' && c != '\''
    ensures HtmlEscape(s, quote) == s
  {
    if s != [] {
      assert s[0] in s;
      assert forall c :: c in s[1..] ==> c in s;
      HtmlEscapePlain(s[1..], quote);
    }
  }

  /** The five character references `html.escape` produces, read back; any
      other `&` stands for itself. */
  function Unescape(s: string): string {
    if s == [] then []
    else if "&amp;" <= s then "&" + Unescape(s[5..])
    else if "&lt;" <= s then "<" + Unescape(s[4..])
    else if "&gt;" <= s then ">" + Unescape(s[4..])
    else if "&quot;" <= s then "\"" + Unescape(s[6..])
    else if "&#x27;" <= s then "'" + Unescape(s[6..])
    else [s[0]] + Unescape(s[1..])
  }

  lemma {:induction false} UnescapeChar(c: char, quote: bool, t: string)
    ensures Unescape(EscapeChar(c, quote) + t) == [c] + Unescape(t)
  {
    var e := EscapeChar(c, quote);
    var s := e + t;
    assert s[|e|..] == t;
    if |e| > 1 {
      assert s[0] == '&' && s[1] == e[1] && s[|e| - 1] == ';';
      assert s[..|e|] == e;
    } else {
      assert s[0] == c && s[1..] == t;
    }
  }

  /** Escaping loses nothing: reading the references back gives the text. */
  lemma {:induction false} UnescapeEscape(s: string, quote: bool)
    ensures Unescape(HtmlEscape(s, quote)) == s
  {
    if s != [] {
      UnescapeChar(s[0], quote, HtmlEscape(s[1..], quote));
      UnescapeEscape(s[1..], quote);
    }
  }

  /** `sep.join(xs)`. */
  function Join(sep: string, xs: seq<string>): (r: string)
    ensures |xs| == 1 ==> r == xs[0]
    ensures xs != [] ==> |r| >= |xs[|xs| - 1]|
  {
    if xs == [] then "" else if |xs| == 1 then xs[0] else Join(sep, xs[..|xs| - 1]) + sep + xs[|xs| - 1]
  }

  /** The first index at or after `i` holding `stop`, or the end. */
  function RunUntil(s: string, i: nat, stop: char): (j: nat)
    requires i <= |s|
    ensures i <= j <= |s|
    ensures forall k :: i <= k < j ==> s[k] != stop
    ensures j < |s| ==> s[j] == stop
    decreases |s| - i
  {
    if i == |s| || s[i] == stop then i else RunUntil(s, i + 1, stop)
  }

  /** `s.split("\n")`: the pieces between line breaks, always at least one. */
  function SplitNl(s: string): (r: seq<string>)
    ensures |r| >= 1
    ensures forall k :: 0 <= k < |r| ==> '\n' !in r[k]
    decreases |s|
  {
    var j := RunUntil(s, 0, '\n');
    if j == |s| then [s] else [s[..j]] + SplitNl(s[j + 1..])
  }

  /** `md.splitlines()` with `\n` as the only line break: a final line break
      does not start another line, and the empty text has no lines. */
  function Lines(md: string): (r: seq<string>)
    ensures forall k :: 0 <= k < |r| ==> '\n' !in r[k]
  {
    if md == [] then []
    else
      var p := SplitNl(md);
      if md[|md| - 1] == '\n' then p[..|p| - 1] else p
  }

  lemma {:induction false} JoinCons(sep: string, a: string, xs: seq<string>)
    requires xs != []
    ensures Join(sep, [a] + xs) == a + sep + Join(sep, xs)
    decreases |xs|
  {
    var ys := [a] + xs;
    if |xs| > 1 {
      assert ys[..|ys| - 1] == [a] + xs[..|xs| - 1];
      JoinCons(sep, a, xs[..|xs| - 1]);
    } else {
      assert ys[..|ys| - 1] == [a];
    }
  }

  /** Joining the pieces with line breaks gives the text back. */
  lemma {:induction false} JoinSplitNl(s: string)
    ensures Join("\n", SplitNl(s)) == s
    decreases |s|
  {
    var j := RunUntil(s, 0, '\n');
    if j < |s| {
      JoinSplitNl(s[j + 1..]);
      JoinCons("\n", s[..j], SplitNl(s[j + 1..]));
      assert s == s[..j] + "\n" + s[j + 1..];
    }
  }

  /** Dropping the piece after a final line break. */
  lemma {:induction false} JoinDropLast(sep: string, xs: seq<string>)
    requires |xs| >= 2
    ensures Join(sep, xs) == Join(sep, xs[..|xs| - 1]) + sep + xs[|xs| - 1]
  {
  }

  /** The lines joined with line breaks give the text back, but for a final
      line break. */
  lemma {:induction false} LinesRoundTrip(md: string)
    ensures md != [] && md[|md| - 1] == '\n' ==> md == Join("\n", Lines(md)) + "\n"
    ensures !(md != [] && md[|md| - 1] == '\n') ==> md == Join("\n", Lines(md))
  {
    if md != [] {
      var p := SplitNl(md);
      JoinSplitNl(md);
      if md[|md| - 1] == '\n' {
        JoinDropLast("\n", p);
      }
    }
  }
}
