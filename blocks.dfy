/** The line patterns of the Markdown renderer, each a hand-written
    recognizer for one anchored regular expression:
    fence  ^```(\w+)?\s*$       heading  ^(#{1,6})\s+(.*)\s*$
    item   ^\s*-\s+(.*)\s*$     quote    ^\s*>\s?(.*)\s*$
    A line never holds `\n`, so `.` matches every character of it. */
module Blocks {
  import opened Maybe
  import opened PyText

  /** The end of the run of `c` that starts at `i`. */
  function RunOf(s: string, i: nat, c: char): (j: nat)
    requires i <= |s|
    ensures i <= j <= |s|
    ensures forall k :: i <= k < j ==> s[k] == c
    ensures j < |s| ==> s[j] != c
    decreases |s| - i
  {
    if i < |s| && s[i] == c then RunOf(s, i + 1, c) else i
  }

  /** The end of the run of `\w` characters that starts at `i`. */
  function WordEnd(s: string, i: nat): (j: nat)
    requires i <= |s|
    ensures i <= j <= |s|
    ensures forall k :: i <= k < j ==> IsWordChar(s[k])
    ensures j < |s| ==> !IsWordChar(s[j])
    decreases |s| - i
  {
    if i < |s| && IsWordChar(s[i]) then WordEnd(s, i + 1) else i
  }

  /** `n` copies of `c`. */
  function Repeat(c: char, n: nat): (r: string)
    ensures |r| == n && forall k :: 0 <= k < n ==> r[k] == c
  {
    seq(n, _ => c)
  }

  /** The fence pattern: `Some(lang)` for a fence line, where `lang` is the
      word after the backquotes, `None` when there is none (`group(1) or None`). */
  function FenceMatch(raw: string): Option<Option<string>> {
    if |raw| >= 3 && raw[..3] == "```" then
      var j := WordEnd(raw, 3);
      if Blank(raw[j..]) then Some(if j == 3 then None else Some(raw[3..j])) else None
    else None
  }

  /** The heading pattern: the level (the number of leading `#`, one to six,
      followed by white space) and the stripped text. */
  function HeadingMatch(raw: string): Option<(nat, string)> {
    var n := RunOf(raw, 0, '#');
    if 1 <= n <= 6 && n < |raw| && IsSpace(raw[n]) then Some((n, Strip(raw[n..]))) else None
  }

  /** The list-item pattern: the text after the dash and the white space that
      follows it, trailing white space kept. */
  function ItemMatch(raw: string): Option<string> {
    var a := SkipSpace(raw, 0);
    if a + 1 < |raw| && raw[a] == '-' && IsSpace(raw[a + 1]) then Some(raw[SkipSpace(raw, a + 1)..]) else None
  }

  /** The quote pattern: the text after `>` and at most one white-space
      character. */
  function QuoteMatch(raw: string): Option<string> {
    var a := SkipSpace(raw, 0);
    if a < |raw| && raw[a] == '>' then
      Some(if a + 1 < |raw| && IsSpace(raw[a + 1]) then raw[a + 2..] else raw[a + 1..])
    else None
  }

  /** What the loop makes of a line outside a code block, tested in the
      loop's order. */
  datatype LineKind =
    | FenceLine(lang: Option<string>)
    | HeadingLine(level: nat, text: string)
    | ItemLine(body: string)
    | QuoteLine(body: string)
    | BlankLine
    | TextLine

  function Classify(raw: string): (k: LineKind)
    ensures k.HeadingLine? ==> 1 <= k.level <= 6
    ensures k == TextLine ==> !Blank(raw)
  {
    match FenceMatch(raw)
    case Some(lang) => FenceLine(lang)
    case None =>
      match HeadingMatch(raw)
      case Some((n, text)) => HeadingLine(n, text)
      case None =>
        match ItemMatch(raw)
        case Some(body) => ItemLine(body)
        case None =>
          match QuoteMatch(raw)
          case Some(body) => QuoteLine(body)
          case None => if Blank(raw) then BlankLine else TextLine
  }

  lemma {:induction false} SkipSpaceTo(s: string, i: nat, j: nat)
    requires i <= j <= |s|
    requires forall k :: i <= k < j ==> IsSpace(s[k])
    requires j < |s| ==> !IsSpace(s[j])
    ensures SkipSpace(s, i) == j
    decreases j - i
  {
    if i < j {
      SkipSpaceTo(s, i + 1, j);
    }
  }

  lemma {:induction false} WordEndTo(s: string, i: nat, j: nat)
    requires i <= j <= |s|
    requires forall k :: i <= k < j ==> IsWordChar(s[k])
    requires j < |s| ==> !IsWordChar(s[j])
    ensures WordEnd(s, i) == j
    decreases j - i
  {
    if i < j {
      WordEndTo(s, i + 1, j);
    }
  }

  lemma {:induction false} RunOfTo(s: string, i: nat, c: char, j: nat)
    requires i <= j <= |s|
    requires forall k :: i <= k < j ==> s[k] == c
    requires j < |s| ==> s[j] != c
    ensures RunOf(s, i, c) == j
    decreases j - i
  {
    if i < j {
      RunOfTo(s, i + 1, c, j);
    }
  }

  /** Three backquotes, a word and white space make a fence, and the word is
      its language. */
  lemma {:induction false} FenceExact(w: string, ws: string)
    requires forall k :: 0 <= k < |w| ==> IsWordChar(w[k])
    requires Blank(ws)
    ensures FenceMatch("```" + w + ws) == Some(if w == [] then None else Some(w))
  {
    var raw := "```" + w + ws;
    assert raw[..3] == "```";
    assert forall k :: 3 <= k < 3 + |w| ==> raw[k] == w[k - 3];
    if 3 + |w| < |raw| {
      assert raw[3 + |w|] == ws[0];
    }
    WordEndTo(raw, 3, 3 + |w|);
    assert raw[3 + |w|..] == ws;
    assert raw[3..3 + |w|] == w;
  }

  /** A fence line is three backquotes, a word and white space only. */
  lemma {:induction false} FenceSound(raw: string)
    requires FenceMatch(raw).Some?
    ensures var lang := FenceMatch(raw).value;
            var w := if lang.Some? then lang.value else "";
            |raw| >= 3 + |w| && raw[..3] == "```" && raw[3..3 + |w|] == w && Blank(raw[3 + |w|..])
            && (lang.Some? ==> w != [] && forall k :: 0 <= k < |w| ==> IsWordChar(w[k]))
  {
  }

  /** One to six `#` and white space make a heading of that level. */
  lemma {:induction false} HeadingExact(n: nat, sp: string, t: string)
    requires 1 <= n <= 6 && sp != [] && Blank(sp)
    ensures HeadingMatch(Repeat('#', n) + sp + t) == Some((n, Strip(sp + t)))
  {
    var raw := Repeat('#', n) + sp + t;
    assert raw[n] == sp[0];
    RunOfTo(raw, 0, '#', n);
    assert raw[n..] == sp + t;
  }

  /** Seven or more `#` never make a heading. */
  lemma {:induction false} NoDeepHeading(n: nat, t: string)
    requires n >= 7
    ensures HeadingMatch(Repeat('#', n) + t) == None
  {
    var raw := Repeat('#', n) + t;
    assert forall k :: 0 <= k < 7 ==> raw[k] == '#';
  }

  /** So a line of seven or more `#` is plain text, whatever follows them:
      no other pattern starts with `#`, and the line is not blank. */
  lemma {:induction false} DeepHashIsText(n: nat, t: string)
    requires n >= 7
    ensures Classify(Repeat('#', n) + t) == TextLine
  {
    var raw := Repeat('#', n) + t;
    NoDeepHeading(n, t);
    assert raw[0] == '#';
    SkipSpaceTo(raw, 0, 0);
  }

  /** A heading line starts with its level's `#`s and white space. */
  lemma {:induction false} HeadingSound(raw: string)
    requires HeadingMatch(raw).Some?
    ensures var (n, text) := HeadingMatch(raw).value;
            1 <= n <= 6 && n < |raw| && raw[..n] == Repeat('#', n) && IsSpace(raw[n]) && text == Strip(raw[n..])
  {
  }

  /** White space, a dash, white space: the rest is the item's text. */
  lemma {:induction false} ItemExact(lead: string, sp: string, body: string)
    requires Blank(lead) && sp != [] && Blank(sp)
    requires body != [] ==> !IsSpace(body[0])
    ensures ItemMatch(lead + "-" + sp + body) == Some(body)
  {
    var raw := lead + "-" + sp + body;
    var a := |lead|;
    assert raw[a] == '-';
    SkipSpaceTo(raw, 0, a);
    var b := a + 1 + |sp|;
    assert forall k :: a + 1 <= k < b ==> raw[k] == sp[k - a - 1];
    if b < |raw| {
      assert raw[b] == body[0];
    }
    SkipSpaceTo(raw, a + 1, b);
    assert raw[b..] == body;
  }

  /** White space and `>`: the rest, less one white-space character, is the
      quoted text. */
  lemma {:induction false} QuoteExact(lead: string, body: string)
    requires Blank(lead)
    ensures QuoteMatch(lead + ">" + body) == Some(if body != [] && IsSpace(body[0]) then body[1..] else body)
  {
    var raw := lead + ">" + body;
    var a := |lead|;
    assert raw[a] == '>';
    SkipSpaceTo(raw, 0, a);
    assert raw[a + 1..] == body;
    if body != [] {
      assert raw[a + 1] == body[0];
      assert raw[a + 2..] == body[1..];
    }
  }
}
