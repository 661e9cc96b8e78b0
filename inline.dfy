/** `_escape_inline`: escape the text, then turn `` `code` `` spans and
    `[text](url)` links into tags, each pass a left-to-right scan for the
    leftmost match, as `re.sub` makes it. */
module Inline {
  import opened PyText

  const CodeOpen := "<code>"
  const CodeClose := "</code>"
  const LinkOpen := "<a href=\""
  const AttrEnd := "\">"
  const LinkClose := "</a>"

  /** `` re.sub(r"`([^`]+)`", …) `` on `s[i..]`: the span's content is escaped
      again, quotes included. */
  function CodeSub(s: string, i: nat): string
    decreases |s| - i
  {
    if i >= |s| then []
    else if s[i] == '`' then
      var j := RunUntil(s, i + 1, '`');
      if i + 1 < j < |s| then CodeOpen + HtmlEscape(s[i + 1..j], true) + CodeClose + CodeSub(s, j + 1)
      else [s[i]] + CodeSub(s, i + 1)
    else [s[i]] + CodeSub(s, i + 1)
  }

  /** `\[([^\]]+)\]\(([^)]+)\)` matches at `i`: the text runs to the first `]`,
      the address from the `(` after it to the first `)`, neither empty. */
  predicate LinkAt(s: string, i: nat)
    requires i < |s|
  {
    s[i] == '[' &&
    var j := RunUntil(s, i + 1, ']');
    i + 1 < j && j + 1 < |s| && s[j + 1] == '(' &&
    var k := RunUntil(s, j + 2, ')');
    j + 2 < k < |s|
  }

  /** The index of the `)` that closes the link at `i`. */
  function LinkEnd(s: string, i: nat): (k: nat)
    requires i < |s| && LinkAt(s, i)
    ensures i < k < |s| && s[k] == ')'
  {
    RunUntil(s, RunUntil(s, i + 1, ']') + 2, ')')
  }

  /** What the link at `i` becomes: its address and its text escaped again,
      quotes included. */
  function LinkTag(s: string, i: nat): string
    requires i < |s| && LinkAt(s, i)
  {
    var j := RunUntil(s, i + 1, ']');
    var k := LinkEnd(s, i);
    LinkOpen + HtmlEscape(s[j + 2..k], true) + AttrEnd + HtmlEscape(s[i + 1..j], true) + LinkClose
  }

  /** `re.sub(r"\[([^\]]+)\]\(([^)]+)\)", …)` on `s[i..]`. */
  function LinkSub(s: string, i: nat): string
    decreases |s| - i
  {
    if i >= |s| then []
    else if LinkAt(s, i) then LinkTag(s, i) + LinkSub(s, LinkEnd(s, i) + 1)
    else [s[i]] + LinkSub(s, i + 1)
  }

  /** `_escape_inline(text)`. */
  function EscapeInline(text: string): string {
    LinkSub(CodeSub(HtmlEscape(text, false), 0), 0)
  }

  /** One of the four tags the function inserts starts at `p`. */
  predicate TagAt(s: string, p: nat)
    requires p < |s|
  {
    CodeOpen <= s[p..] || CodeClose <= s[p..] || LinkOpen <= s[p..] || LinkClose <= s[p..]
  }

  /** `s` holds a `<` at `p`. */
  predicate LtAt(s: string, p: nat) {
    p < |s| && s[p] == '<'
  }

  /** Every `<` of `s` opens one of the tags the function inserts. */
  predicate Safe(s: string) {
    forall p :: 0 <= p < |s| && LtAt(s, p) ==> TagAt(s, p)
  }

  lemma {:induction false} SafeWithoutLt(s: string)
    requires '<' !in s
    ensures Safe(s)
  {
    forall p | 0 <= p < |s|
      ensures s[p] != '<'
    {
      assert s[p] in s;
    }
  }

  lemma {:induction false} PrefixExtends(x: string, y: string, z: string)
    requires x <= y
    ensures x <= y + z
  {
    assert (y + z)[..|x|] == y[..|x|];
  }

  /** Text that is safe stays safe when more safe text follows it. */
  lemma {:induction false} SafeConcat(a: string, b: string)
    requires Safe(a) && Safe(b)
    ensures Safe(a + b)
  {
    var s := a + b;
    forall p | 0 <= p < |s| && LtAt(s, p)
      ensures TagAt(s, p)
    {
      if p < |a| {
        assert s[p..] == a[p..] + b;
        assert LtAt(a, p);
        if CodeOpen <= a[p..] {
          PrefixExtends(CodeOpen, a[p..], b);
        } else if CodeClose <= a[p..] {
          PrefixExtends(CodeClose, a[p..], b);
        } else if LinkOpen <= a[p..] {
          PrefixExtends(LinkOpen, a[p..], b);
        } else {
          PrefixExtends(LinkClose, a[p..], b);
        }
      } else {
        assert s[p..] == b[p - |a|..];
        assert LtAt(b, p - |a|);
      }
    }
  }

  /** A tag whose only `<` is its first character. */
  lemma {:induction false} OneTagSafe(t: string)
    requires |t| > 0 && '<' !in t[1..] && TagAt(t, 0)
    ensures Safe(t)
  {
    forall p | 0 < p < |t|
      ensures t[p] != '<'
    {
      assert t[p] == t[1..][p - 1];
    }
  }

  lemma {:induction false} TagsSafe()
    ensures Safe(CodeOpen) && Safe(CodeClose) && Safe(LinkOpen) && Safe(AttrEnd) && Safe(LinkClose)
  {
    assert CodeOpen[0..] == CodeOpen;
    OneTagSafe(CodeOpen);
    assert CodeClose[0..] == CodeClose;
    OneTagSafe(CodeClose);
    assert LinkOpen[0..] == LinkOpen;
    OneTagSafe(LinkOpen);
    assert LinkClose[0..] == LinkClose;
    OneTagSafe(LinkClose);
    SafeWithoutLt(AttrEnd);
  }

  /** The code tag around text without `<`. */
  lemma {:induction false} CodePiecesSafe(e: string)
    requires '<' !in e
    ensures Safe(CodeOpen + e + CodeClose)
  {
    SafeWithoutLt(e);
    TagsSafe();
    SafeConcat(CodeOpen, e);
    SafeConcat(CodeOpen + e, CodeClose);
  }

  /** A code span at `i` ending at `j` becomes the code tag. */
  lemma {:induction false} CodeSubSpanAt(s: string, i: nat, j: nat)
    requires i < |s| && s[i] == '`'
    requires j == RunUntil(s, i + 1, '`') && i + 1 < j < |s|
    ensures CodeSub(s, i) == CodeOpen + HtmlEscape(s[i + 1..j], true) + CodeClose + CodeSub(s, j + 1)
  {
    assert !(i >= |s|) && s[i] == '`' && i + 1 < RunUntil(s, i + 1, '`') < |s|;
  }

  /** A code span followed by safe text is safe. */
  lemma {:induction false} CodeStepSafe(s: string, i: nat, j: nat)
    requires '<' !in s && i < |s| && s[i] == '`'
    requires j == RunUntil(s, i + 1, '`') && i + 1 < j < |s|
    requires Safe(CodeSub(s, j + 1))
    ensures Safe(CodeSub(s, i))
  {
    var e := HtmlEscape(s[i + 1..j], true);
    var rest := CodeSub(s, j + 1);
    CodeSubSpanAt(s, i, j);
    CodePiecesSafe(e);
    SafeConcat(CodeOpen + e + CodeClose, rest);
  }

  /** A copied character followed by safe text is safe. */
  lemma {:induction false} CodeCharSafe(s: string, i: nat)
    requires '<' !in s && i < |s|
    requires !(s[i] == '`' && i + 1 < RunUntil(s, i + 1, '`') < |s|)
    requires Safe(CodeSub(s, i + 1))
    ensures Safe(CodeSub(s, i))
  {
    assert s[i] in s;
    SafeWithoutLt([s[i]]);
    assert CodeSub(s, i) == [s[i]] + CodeSub(s, i + 1);
    SafeConcat([s[i]], CodeSub(s, i + 1));
  }

  /** Code spans only add whole tags to text without `<`. */
  lemma {:induction false} CodeSubSafe(s: string, i: nat)
    requires '<' !in s
    ensures Safe(CodeSub(s, i))
    decreases |s| - i
  {
    if i < |s| {
      var j := RunUntil(s, i + 1, '`');
      if s[i] == '`' && i + 1 < j < |s| {
        CodeSubSafe(s, j + 1);
        CodeStepSafe(s, i, j);
      } else {
        CodeSubSafe(s, i + 1);
        CodeCharSafe(s, i);
      }
    }
  }

  /** A tag is copied whole by `LinkSub`: it holds no `[`. */
  lemma {:induction false} TagLength(s: string, p: nat) returns (n: nat)
    requires p < |s| && TagAt(s, p)
    ensures p + n <= |s| && n > 0
    ensures Safe(s[p..p + n])
    ensures forall k :: p <= k < p + n ==> s[k] != '['
  {
    TagsSafe();
    var t := s[p..];
    if CodeOpen <= t {
      n := TagCopied(s, p, CodeOpen);
    } else if CodeClose <= t {
      n := TagCopied(s, p, CodeClose);
    } else if LinkOpen <= t {
      n := TagCopied(s, p, LinkOpen);
    } else {
      n := TagCopied(s, p, LinkClose);
    }
  }

  /** A safe tag without `[` found at `p`. */
  lemma {:induction false} TagCopied(s: string, p: nat, tag: string) returns (n: nat)
    requires p < |s| && tag != [] && tag <= s[p..] && Safe(tag) && '[' !in tag
    ensures n == |tag| && p + n <= |s| && n > 0
    ensures Safe(s[p..p + n])
    ensures forall k :: p <= k < p + n ==> s[k] != '['
  {
    n := |tag|;
    assert s[p..p + n] == tag;
    forall k | p <= k < p + n
      ensures s[k] != '['
    {
      assert s[k] == tag[k - p];
    }
  }

  /** A character that does not open a link is copied. */
  lemma {:induction false} LinkSubPlain(s: string, i: nat)
    requires i < |s| && !LinkAt(s, i)
    ensures LinkSub(s, i) == [s[i]] + LinkSub(s, i + 1)
  {
  }

  lemma {:induction false} SliceCons(s: string, i: nat, n: nat, rest: string)
    requires 0 < n && i + n <= |s|
    ensures [s[i]] + (s[i + 1..i + n] + rest) == s[i..i + n] + rest
  {
    assert s[i..i + n] == [s[i]] + s[i + 1..i + n];
  }

  /** Characters that cannot open a link are copied as they are. */
  lemma {:induction false} LinkSubCopies(s: string, i: nat, n: nat)
    requires i + n <= |s|
    requires forall k :: i <= k < i + n ==> s[k] != '['
    ensures LinkSub(s, i) == s[i..i + n] + LinkSub(s, i + n)
    decreases n
  {
    if n > 0 {
      assert !LinkAt(s, i);
      LinkSubPlain(s, i);
      LinkSubCopies(s, i + 1, n - 1);
      SliceCons(s, i, n, LinkSub(s, i + n));
    } else {
      assert s[i..i] == [];
    }
  }

  /** The link tag around text without `<`. */
  lemma {:induction false} LinkPiecesSafe(url: string, shown: string)
    requires '<' !in url && '<' !in shown
    ensures Safe(LinkOpen + url + AttrEnd + shown + LinkClose)
  {
    SafeWithoutLt(url);
    SafeWithoutLt(shown);
    TagsSafe();
    SafeConcat(LinkOpen, url);
    SafeConcat(LinkOpen + url, AttrEnd);
    SafeConcat(LinkOpen + url + AttrEnd, shown);
    SafeConcat(LinkOpen + url + AttrEnd + shown, LinkClose);
  }

  lemma {:induction false} LinkTagSafe(s: string, i: nat)
    requires i < |s| && LinkAt(s, i)
    ensures Safe(LinkTag(s, i))
  {
    var j := RunUntil(s, i + 1, ']');
    var url := HtmlEscape(s[j + 2..LinkEnd(s, i)], true);
    var shown := HtmlEscape(s[i + 1..j], true);
    assert LinkTag(s, i) == LinkOpen + url + AttrEnd + shown + LinkClose;
    LinkPiecesSafe(url, shown);
  }

  /** Every `<` of `s` from `i` on opens a tag. */
  predicate SafeFrom(s: string, i: nat) {
    forall p :: i <= p < |s| && LtAt(s, p) ==> TagAt(s, p)
  }

  /** A tag already in the text is copied whole. */
  lemma {:induction false} LinkSubTag(s: string, i: nat) returns (n: nat)
    requires i < |s| && s[i] == '<' && SafeFrom(s, i)
    ensures i + n <= |s| && n > 0
    ensures Safe(s[i..i + n])
    ensures LinkSub(s, i) == s[i..i + n] + LinkSub(s, i + n)
  {
    assert LtAt(s, i);
    n := TagLength(s, i);
    LinkSubCopies(s, i, n);
  }

  lemma {:induction false} SafeFromLater(s: string, i: nat, j: nat)
    requires SafeFrom(s, i) && i <= j
    ensures SafeFrom(s, j)
  {
  }

  lemma {:induction false} SafeSplit(whole: string, a: string, b: string)
    requires whole == a + b && Safe(a) && Safe(b)
    ensures Safe(whole)
  {
    SafeConcat(a, b);
  }

  /** A link followed by safe text is safe. */
  lemma {:induction false} LinkStepSafe(s: string, i: nat)
    requires i < |s| && LinkAt(s, i) && Safe(LinkSub(s, LinkEnd(s, i) + 1))
    ensures Safe(LinkSub(s, i))
  {
    LinkTagSafe(s, i);
    SafeConcat(LinkTag(s, i), LinkSub(s, LinkEnd(s, i) + 1));
  }

  /** A copied character other than `<` followed by safe text is safe. */
  lemma {:induction false} CharStepSafe(s: string, i: nat)
    requires i < |s| && s[i] != '<' && !LinkAt(s, i) && Safe(LinkSub(s, i + 1))
    ensures Safe(LinkSub(s, i))
  {
    LinkSubPlain(s, i);
    SafeWithoutLt([s[i]]);
    SafeConcat([s[i]], LinkSub(s, i + 1));
  }

  /** Links only add whole tags and copy the tags already there; a tag caught
      inside a link's text or address is escaped with it. */
  lemma {:induction false} LinkSubSafe(s: string, i: nat)
    requires SafeFrom(s, i)
    ensures Safe(LinkSub(s, i))
    decreases |s| - i, 1
  {
    if i < |s| {
      if s[i] == '<' {
        TagBranchSafe(s, i);
      } else if LinkAt(s, i) {
        LinkBranchSafe(s, i);
      } else {
        CharBranchSafe(s, i);
      }
    }
  }

  /** The tag at `i` is copied whole: the text after it is safe from its end
      on, and a safe rest leaves the whole safe. */
  lemma {:induction false} TagStep(s: string, i: nat) returns (n: nat)
    requires i < |s| && s[i] == '<' && SafeFrom(s, i)
    ensures i + n <= |s| && n > 0 && SafeFrom(s, i + n)
    ensures Safe(LinkSub(s, i + n)) ==> Safe(LinkSub(s, i))
  {
    n := LinkSubTag(s, i);
    SafeFromLater(s, i, i + n);
    if Safe(LinkSub(s, i + n)) {
      SafeSplit(LinkSub(s, i), s[i..i + n], LinkSub(s, i + n));
    }
  }

  /** A tag already in the text is copied whole, then the rest. */
  lemma {:induction false} TagBranchSafe(s: string, i: nat)
    requires i < |s| && s[i] == '<' && SafeFrom(s, i)
    ensures Safe(LinkSub(s, i))
    decreases |s| - i, 0
  {
    var n := TagStep(s, i);
    LinkSubSafe(s, i + n);
  }

  /** A link becomes its tag, then the rest. */
  lemma {:induction false} LinkBranchSafe(s: string, i: nat)
    requires i < |s| && LinkAt(s, i) && SafeFrom(s, i)
    ensures Safe(LinkSub(s, i))
    decreases |s| - i, 0
  {
    SafeFromLater(s, i, LinkEnd(s, i) + 1);
    LinkSubSafe(s, LinkEnd(s, i) + 1);
    LinkStepSafe(s, i);
  }

  /** Any other character is copied, then the rest. */
  lemma {:induction false} CharBranchSafe(s: string, i: nat)
    requires i < |s| && s[i] != '<' && !LinkAt(s, i) && SafeFrom(s, i)
    ensures Safe(LinkSub(s, i))
    decreases |s| - i, 0
  {
    SafeFromLater(s, i, i + 1);
    LinkSubSafe(s, i + 1);
    CharStepSafe(s, i);
  }

  /** No `<` of the input survives: every `<` of the result opens a
      `<code>`, `</code>`, `<a href="` or `</a>` tag the function inserted. */
  lemma {:induction false} EscapeInlineSafe(text: string)
    ensures Safe(EscapeInline(text))
  {
    var c := CodeSub(HtmlEscape(text, false), 0);
    CodeSubSafe(HtmlEscape(text, false), 0);
    LinkSubSafe(c, 0);
  }

  lemma {:induction false} CodeSubPlain(s: string, i: nat)
    requires i <= |s|
    requires forall k :: i <= k < |s| ==> s[k] != '`'
    ensures CodeSub(s, i) == s[i..]
    decreases |s| - i
  {
    if i < |s| {
      CodeSubPlain(s, i + 1);
      assert s[i..] == [s[i]] + s[i + 1..];
    }
  }

  /** Text without `&`, `<`, `>`, a backquote or `[` comes out as it went in. */
  lemma {:induction false} EscapeInlinePlain(text: string)
    requires forall c :: c in text ==> c != '&' && c != '<' && c != '>' && c != '`' && c != '['
    ensures EscapeInline(text) == text
  {
    assert forall k :: 0 <= k < |text| ==> text[k] in text;
    HtmlEscapePlain(text, false);
    CodeSubPlain(text, 0);
    LinkSubCopies(text, 0, |text|);
    assert text[0..] == text && text[0..|text|] == text;
  }

  lemma {:induction false} RunUntilFirst(s: string, i: nat, stop: char, j: nat)
    requires i <= j <= |s|
    requires forall k :: i <= k < j ==> s[k] != stop
    requires j < |s| ==> s[j] == stop
    ensures RunUntil(s, i, stop) == j
    decreases j - i
  {
    if i < j {
      RunUntilFirst(s, i + 1, stop, j);
    }
  }

  /** Text in which no link starts comes out of `LinkSub` as it went in. */
  lemma {:induction false} LinkSubNoBracket(s: string)
    requires '[' !in s
    ensures LinkSub(s, 0) == s
  {
    assert forall k :: 0 <= k < |s| ==> s[k] in s;
    LinkSubCopies(s, 0, |s|);
    assert s[0..|s|] == s;
  }

  /** `html.escape` keeps a character it does not replace where it is. */
  lemma {:induction false} EscapeAround(c: char, t: string, quote: bool)
    requires c != '&' && c != '<' && c != '>' && c != '"' && c != '\''
    ensures HtmlEscape([c] + t + [c], quote) == [c] + HtmlEscape(t, quote) + [c]
  {
    HtmlEscapeConcat([c], t + [c], quote);
    HtmlEscapeConcat(t, [c], quote);
    assert [c] + t + [c] == [c] + (t + [c]);
    assert HtmlEscape([c], quote) == [c];
  }

  /** `html.escape` adds no character but those of its references. */
  lemma {:induction false} EscapeAddsNo(t: string, quote: bool, c: char)
    requires c !in t && !RefChar(c)
    ensures c !in HtmlEscape(t, quote)
  {
  }

  /** A backquoted run without backquotes is one code span. */
  lemma {:induction false} CodeSubSpan(h: string)
    requires h != [] && '`' !in h
    ensures CodeSub("`" + h + "`", 0) == CodeOpen + HtmlEscape(h, true) + CodeClose
  {
    var e := "`" + h + "`";
    assert forall k :: 1 <= k < 1 + |h| ==> e[k] == h[k - 1] && h[k - 1] in h;
    RunUntilFirst(e, 1, '`', 1 + |h|);
    assert e[1..1 + |h|] == h;
    assert CodeSub(e, |h| + 2) == [];
  }

  /** The first escape keeps the backquotes of a span and adds none. */
  lemma {:induction false} EscapeSpan(t: string)
    requires t != [] && '`' !in t && '[' !in t
    ensures var h := HtmlEscape(t, false);
            HtmlEscape("`" + t + "`", false) == "`" + h + "`" && h != [] && '`' !in h && '[' !in h
  {
    EscapeAround('`', t, false);
    EscapeAddsNo(t, false, '`');
    EscapeAddsNo(t, false, '[');
  }

  /** The link pass leaves a code span without `[` as it is. */
  lemma {:induction false} CodeTagNoLink(h: string)
    requires '[' !in h
    ensures var c := CodeOpen + HtmlEscape(h, true) + CodeClose;
            LinkSub(c, 0) == c
  {
    EscapeAddsNo(h, true, '[');
    var c := CodeOpen + HtmlEscape(h, true) + CodeClose;
    assert '[' !in CodeOpen && '[' !in CodeClose;
    assert '[' !in c;
    LinkSubNoBracket(c);
  }

  /** A code span's content is escaped twice: `html.escape` runs over the
      whole text and again, quotes included, over the span's content. */
  lemma {:induction false} CodeSpanEscapedTwice(t: string)
    requires t != [] && '`' !in t && '[' !in t
    ensures EscapeInline("`" + t + "`") == CodeOpen + HtmlEscape(HtmlEscape(t, false), true) + CodeClose
  {
    var h := HtmlEscape(t, false);
    EscapeSpan(t);
    CodeSubSpan(h);
    CodeTagNoLink(h);
  }

  /** `[x](u)` with a text free of `]` and an address free of `)` is one link. */
  lemma {:induction false} LinkSubSpan(x: string, u: string)
    requires x != [] && u != [] && ']' !in x && ')' !in u
    ensures LinkSub("[" + x + "](" + u + ")", 0) == LinkOpen + HtmlEscape(u, true) + AttrEnd + HtmlEscape(x, true) + LinkClose
  {
    var e := "[" + x + "](" + u + ")";
    var m := |x| + 3;
    assert forall k :: 1 <= k < 1 + |x| ==> e[k] == x[k - 1] && x[k - 1] in x;
    RunUntilFirst(e, 1, ']', 1 + |x|);
    assert forall k :: m <= k < m + |u| ==> e[k] == u[k - m] && u[k - m] in u;
    RunUntilFirst(e, m, ')', m + |u|);
    assert LinkAt(e, 0);
    assert LinkEnd(e, 0) == m + |u|;
    assert e[1..1 + |x|] == x && e[m..m + |u|] == u;
    assert LinkSub(e, |e|) == [];
  }

  /** A character `html.escape` does not replace is kept. */
  lemma {:induction false} EscapeKept(c: char, quote: bool)
    requires c != '&' && c != '<' && c != '>' && c != '"' && c != '\''
    ensures HtmlEscape([c], quote) == [c]
  {
    assert [c][1..] == [];
  }

  lemma {:induction false} LinkTextShape(x: string, u: string)
    ensures "[" + x + "](" + u + ")" == ['['] + (x + ([']'] + (['('] + (u + [')']))))
  {
  }

  lemma {:induction false} EscapeLinkParts(x: string, u: string)
    ensures HtmlEscape(['['] + (x + ([']'] + (['('] + (u + [')'])))), false)
         == ['['] + (HtmlEscape(x, false) + ([']'] + (['('] + (HtmlEscape(u, false) + [')']))))
  {
    var tail := u + [')'];
    EscapeKept('[', false);
    EscapeKept(']', false);
    EscapeKept('(', false);
    EscapeKept(')', false);
    HtmlEscapeConcat(u, [')'], false);
    HtmlEscapeConcat(['('], tail, false);
    HtmlEscapeConcat([']'], ['('] + tail, false);
    HtmlEscapeConcat(x, [']'] + (['('] + tail), false);
    HtmlEscapeConcat(['['], x + ([']'] + (['('] + tail)), false);
  }

  /** Escaping a link's source escapes its text and its address. */
  lemma {:induction false} EscapeLinkText(x: string, u: string)
    ensures HtmlEscape("[" + x + "](" + u + ")", false) == "[" + HtmlEscape(x, false) + "](" + HtmlEscape(u, false) + ")"
  {
    LinkTextShape(x, u);
    EscapeLinkParts(x, u);
    LinkTextShape(HtmlEscape(x, false), HtmlEscape(u, false));
  }

  /** Text without a backquote comes out of `CodeSub` as it went in. */
  lemma {:induction false} CodeSubNoTick(e: string)
    requires '`' !in e
    ensures CodeSub(e, 0) == e
  {
    assert forall k :: 0 <= k < |e| ==> e[k] in e;
    CodeSubPlain(e, 0);
    assert e[0..] == e;
  }

  lemma {:induction false} LinkTextNoTick(x: string, u: string)
    requires '`' !in x && '`' !in u
    ensures '`' !in "[" + x + "](" + u + ")"
  {
    LinkTextShape(x, u);
  }

  /** A link's text and address are escaped twice: `html.escape` runs over
      the whole text and again, quotes included, over each part. */
  lemma {:induction false} LinkEscapedTwice(x: string, u: string)
    requires x != [] && u != []
    requires ']' !in x && ')' !in u && '`' !in x && '`' !in u
    ensures EscapeInline("[" + x + "](" + u + ")")
         == LinkOpen + HtmlEscape(HtmlEscape(u, false), true) + AttrEnd + HtmlEscape(HtmlEscape(x, false), true) + LinkClose
  {
    var hx := HtmlEscape(x, false);
    var hu := HtmlEscape(u, false);
    EscapeLinkText(x, u);
    EscapeAddsNo(x, false, '`');
    EscapeAddsNo(u, false, '`');
    EscapeAddsNo(x, false, ']');
    EscapeAddsNo(u, false, ')');
    var e := "[" + hx + "](" + hu + ")";
    LinkTextNoTick(hx, hu);
    CodeSubNoTick(e);
    LinkSubSpan(hx, hu);
    assert EscapeInline("[" + x + "](" + u + ")") == LinkSub(CodeSub(e, 0), 0);
  }
}
