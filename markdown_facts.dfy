/** What the Markdown state machine guarantees: every list and quote it opens
    is closed, anchors are pairwise distinct, fenced lines are kept verbatim
    and escaped, and paragraph lines are joined with single spaces. */
module MarkdownFacts {
  import opened Maybe
  import opened PyText
  import opened Blocks
  import opened Markdown
  import Anchor

  /** Reading the lines of `out` in order, whether the block that `open` and
      `close` delimit is open at the end; `None` if a line opens it while it
      is open or closes it while it is closed. */
  function Scan(out: seq<string>, open: string, close: string): Option<bool> {
    if out == [] then Some(false)
    else
      match Scan(out[..|out| - 1], open, close)
      case None => None
      case Some(o) =>
        var l := out[|out| - 1];
        if l == open then (if o then None else Some(true))
        else if l == close then (if o then Some(false) else None)
        else Some(o)
  }

  predicate AnchorsDistinct(hs: seq<Heading>) {
    forall i, j :: 0 <= i < j < |hs| ==> hs[i].anchor != hs[j].anchor
  }

  /** Lists and quotes are properly opened and closed, and the flags say
      which one is open. */
  predicate Valid(s: State) {
    && Scan(s.out, "<ul>", "</ul>") == Some(s.inUl)
    && Scan(s.out, "<blockquote>", "</blockquote>") == Some(s.inBq)
    && AnchorsDistinct(s.headings)
  }

  /** A line of content: `<p>`, `<li>`, `<h…>` or `<pre…>`. */
  predicate Content(l: string) {
    |l| >= 2 && (l[1] == 'p' || l[1] == 'l' || l[1] == 'h')
  }

  lemma {:induction false} ContentIsNoDelimiter(l: string)
    requires Content(l)
    ensures l != "<ul>" && l != "</ul>" && l != "<blockquote>" && l != "</blockquote>"
  {
  }

  /** A line is content when its opening tag is. */
  lemma {:induction false} ContentPrefix(tag: string, rest: string)
    requires Content(tag)
    ensures Content(tag + rest)
  {
    assert (tag + rest)[1] == tag[1];
  }

  lemma {:induction false} ParaContent(text: string)
    ensures Content(ParaHtml(text))
  {
    var e := Inline.EscapeInline(text);
    ContentPrefix("<p>", e + "</p>");
    assert ParaHtml(text) == "<p>" + (e + "</p>");
  }

  lemma {:induction false} ItemContent(text: string)
    ensures Content(ItemHtml(text))
  {
    var e := Inline.EscapeInline(text);
    ContentPrefix("<li>", e + "</li>");
    assert ItemHtml(text) == "<li>" + (e + "</li>");
  }

  lemma {:induction false} HeadingContent(level: Level, anchor: string, text: string)
    ensures Content(HeadingHtml(level, anchor, text))
  {
    var n := Decimal.ToString(level);
    var open := "<h" + n + " id=\"" + anchor + "\">";
    ContentPrefix("<h", n);
    ContentPrefix("<h" + n, " id=\"");
    ContentPrefix("<h" + n + " id=\"", anchor);
    ContentPrefix("<h" + n + " id=\"" + anchor, "\">");
    ContentPrefix(open, Inline.EscapeInline(text));
    ContentPrefix(open + Inline.EscapeInline(text), "</h");
    ContentPrefix(open + Inline.EscapeInline(text) + "</h", n);
    ContentPrefix(open + Inline.EscapeInline(text) + "</h" + n, ">");
  }

  lemma {:induction false} CodeContent(lang: Option<string>, lines: seq<string>)
    ensures Content(CodeHtml(lang, lines))
  {
    var content := HtmlEscape(Join("\n", lines), true);
    if lang == Some("mermaid") {
      ContentPrefix("<pre class=\"mermaid\">", content);
      ContentPrefix("<pre class=\"mermaid\">" + content, "</pre>");
    } else {
      var langClass := if lang.Some? && lang.value != [] then " language-" + lang.value else "";
      var open := "<pre><code class=\"code";
      ContentPrefix(open, langClass);
      ContentPrefix(open + langClass, "\">");
      ContentPrefix(open + langClass + "\">", content);
      ContentPrefix(open + langClass + "\">" + content, "</code></pre>");
    }
  }

  lemma {:induction false} ContentLines(text: string, level: Level, anchor: string, lang: Option<string>, lines: seq<string>)
    ensures Content(ParaHtml(text)) && Content(ItemHtml(text))
    ensures Content(HeadingHtml(level, anchor, text)) && Content(CodeHtml(lang, lines))
  {
    ParaContent(text);
    ItemContent(text);
    HeadingContent(level, anchor, text);
    CodeContent(lang, lines);
  }

  /** A content line leaves both scans as they were. */
  lemma {:induction false} ScanContent(out: seq<string>, l: string)
    requires Content(l)
    ensures Scan(out + [l], "<ul>", "</ul>") == Scan(out, "<ul>", "</ul>")
    ensures Scan(out + [l], "<blockquote>", "</blockquote>") == Scan(out, "<blockquote>", "</blockquote>")
  {
    ContentIsNoDelimiter(l);
    assert (out + [l])[..|out|] == out;
  }

  /** A delimiter of the other kind leaves a scan as it was. */
  lemma {:induction false} ScanOther(out: seq<string>, l: string)
    ensures l == "<ul>" || l == "</ul>" ==>
      Scan(out + [l], "<blockquote>", "</blockquote>") == Scan(out, "<blockquote>", "</blockquote>")
    ensures l == "<blockquote>" || l == "</blockquote>" ==>
      Scan(out + [l], "<ul>", "</ul>") == Scan(out, "<ul>", "</ul>")
  {
    assert (out + [l])[..|out|] == out;
  }

  lemma {:induction false} ScanStep(out: seq<string>, l: string, open: string, close: string)
    requires open != close
    ensures Scan(out, open, close) == Some(false) && l == open ==> Scan(out + [l], open, close) == Some(true)
    ensures Scan(out, open, close) == Some(true) && l == close ==> Scan(out + [l], open, close) == Some(false)
  {
    assert (out + [l])[..|out|] == out;
  }

  lemma {:induction false} ParaFlushedValid(s: State)
    requires Valid(s)
    ensures Valid(ParaFlushed(s))
  {
    var text := Join(" ", StrippedLines(s.para));
    ContentLines(text, 1, "", None, []);
    ScanContent(s.out, ParaHtml(text));
  }

  lemma {:induction false} UlClosedValid(s: State)
    requires Valid(s)
    ensures Valid(UlClosed(s))
  {
    ScanStep(s.out, "</ul>", "<ul>", "</ul>");
    ScanOther(s.out, "</ul>");
  }

  lemma {:induction false} BqClosedValid(s: State)
    requires Valid(s)
    ensures Valid(BqClosed(s))
  {
    ScanStep(s.out, "</blockquote>", "<blockquote>", "</blockquote>");
    ScanOther(s.out, "</blockquote>");
  }

  lemma {:induction false} BlocksClosedValid(s: State)
    requires Valid(s)
    ensures Valid(BlocksClosed(s))
    ensures !BlocksClosed(s).inUl && !BlocksClosed(s).inBq
  {
    ParaFlushedValid(s);
    UlClosedValid(ParaFlushed(s));
    BqClosedValid(UlClosed(ParaFlushed(s)));
  }

  lemma {:induction false} CodeFlushedValid(s: State)
    requires Valid(s)
    ensures Valid(CodeFlushed(s))
  {
    ContentLines("", 1, "", s.codeLang, s.codeLines);
    ScanContent(s.out, CodeHtml(s.codeLang, s.codeLines));
  }

  /** A heading whose anchor is not taken keeps the anchors distinct. */
  lemma {:induction false} AnchorsExtend(hs: seq<Heading>, h: Heading)
    requires AnchorsDistinct(hs) && h.anchor !in AnchorSet(hs)
    ensures AnchorsDistinct(hs + [h])
  {
    forall i | 0 <= i < |hs|
      ensures hs[i].anchor != h.anchor
    {
      assert hs[i].anchor in AnchorSet(hs);
    }
  }

  lemma {:induction false} WithHeadingValid(s: State, level: Level, text: string)
    requires Valid(s)
    ensures Valid(WithHeading(s, level, text))
  {
    var anchor := Anchor.Dedupe(Slug.Slugify(text), AnchorSet(s.headings));
    var h := Heading(level, text, anchor);
    HeadingContent(level, anchor, text);
    ScanContent(s.out, HeadingHtml(level, anchor, text));
    AnchorsExtend(s.headings, h);
    assert WithHeading(s, level, text) == s.(headings := s.headings + [h], out := s.out + [HeadingHtml(level, anchor, text)]);
  }

  lemma {:induction false} WithItemValid(s: State, body: string)
    requires Valid(s) && !s.inBq
    ensures Valid(WithItem(s, body))
  {
    var t := if s.inUl then s else s.(out := s.out + ["<ul>"], inUl := true);
    ScanStep(s.out, "<ul>", "<ul>", "</ul>");
    ScanOther(s.out, "<ul>");
    ContentLines(body, 1, "", None, []);
    ScanContent(t.out, ItemHtml(body));
  }

  lemma {:induction false} WithQuoteValid(s: State, body: string)
    requires Valid(s) && !s.inUl
    ensures Valid(WithQuote(s, body))
  {
    var t := if s.inBq then s else s.(out := s.out + ["<blockquote>"], inBq := true);
    ScanStep(s.out, "<blockquote>", "<blockquote>", "</blockquote>");
    ScanOther(s.out, "<blockquote>");
    ContentLines(body, 1, "", None, []);
    ScanContent(t.out, ParaHtml(body));
  }

  /** Every step keeps the state valid. */
  lemma {:induction false} NextValid(s: State, raw: string)
    requires Valid(s)
    ensures Valid(Next(s, raw))
  {
    var k := Classify(raw);
    if k.FenceLine? {
      if s.inCode {
        CodeFlushedValid(s);
      } else {
        BlocksClosedValid(s);
      }
    } else if !s.inCode {
      match k
      case HeadingLine(level, text) =>
        BlocksClosedValid(s);
        WithHeadingValid(BlocksClosed(s), level, text);
      case ItemLine(body) =>
        ParaFlushedValid(s);
        BqClosedValid(ParaFlushed(s));
        WithItemValid(BqClosed(ParaFlushed(s)), body);
      case QuoteLine(body) =>
        ParaFlushedValid(s);
        UlClosedValid(ParaFlushed(s));
        WithQuoteValid(UlClosed(ParaFlushed(s)), body);
      case BlankLine =>
        BlocksClosedValid(s);
      case TextLine =>
    }
  }

  lemma {:induction false} RunValid(s: State, lines: seq<string>)
    requires Valid(s)
    ensures Valid(Run(s, lines))
  {
    if lines != [] {
      RunValid(s, lines[..|lines| - 1]);
      NextValid(Run(s, lines[..|lines| - 1]), lines[|lines| - 1]);
    }
  }

  /** Every `<ul>` and `<blockquote>` the parser writes is closed by the end,
      none is opened twice, and the heading anchors are pairwise distinct. */
  lemma {:induction false} ParseWellFormed(lines: seq<string>)
    ensures var e := Finished(Run(Start, lines));
            && Scan(e.out, "<ul>", "</ul>") == Some(false)
            && Scan(e.out, "<blockquote>", "</blockquote>") == Some(false)
            && AnchorsDistinct(e.headings)
  {
    RunValid(Start, lines);
    BlocksClosedValid(Run(Start, lines));
    CodeFlushedValid(BlocksClosed(Run(Start, lines)));
  }

  /** Outside a code block a heading, a fence or a blank line leaves no list
      or quote open; a list line closes a quote and a quote line closes a
      list. */
  lemma {:induction false} NextFlags(s: State, raw: string)
    requires !s.inCode
    ensures var t := Next(s, raw);
            match Classify(raw)
            case ItemLine(_) => t.inUl && !t.inBq
            case QuoteLine(_) => t.inBq && !t.inUl
            case TextLine => t.inUl == s.inUl && t.inBq == s.inBq
            case _ => !t.inUl && !t.inBq
  {
  }

  lemma {:induction false} RunConcat(s: State, a: seq<string>, b: seq<string>)
    ensures Run(s, a + b) == Run(Run(s, a), b)
  {
    if b != [] {
      RunConcat(s, a, b[..|b| - 1]);
      assert (a + b)[..|a + b| - 1] == a + b[..|b| - 1];
    } else {
      assert a + b == a;
    }
  }

  predicate NoFence(lines: seq<string>) {
    forall k :: 0 <= k < |lines| ==> !Classify(lines[k]).FenceLine?
  }

  /** Inside a code block every line that is not a fence is kept as it is:
      it is never read as a heading, a list item or a quote. */
  lemma {:induction false} RunCode(s: State, body: seq<string>)
    requires s.inCode && NoFence(body)
    ensures Run(s, body) == s.(codeLines := s.codeLines + body)
  {
    if body != [] {
      var init := body[..|body| - 1];
      RunCode(s, init);
      assert s.codeLines + init + [body[|body| - 1]] == s.codeLines + body;
    } else {
      assert s.codeLines + body == s.codeLines;
    }
  }

  /** The language a fence opened with "```" + `w` gives. */
  function FenceLang(w: string): Option<string> {
    if w == [] then None else Some(w)
  }

  predicate IsWord(w: string) {
    forall k :: 0 <= k < |w| ==> IsWordChar(w[k])
  }

  lemma {:induction false} OpeningFence(w: string)
    requires IsWord(w)
    ensures Classify("```" + w) == FenceLine(FenceLang(w))
  {
    FenceExact(w, []);
    assert "```" + w + [] == "```" + w;
  }

  lemma {:induction false} ClosingFence()
    ensures Classify("```") == FenceLine(None)
  {
    OpeningFence([]);
    assert "```" + [] == "```";
  }

  /** The state once a fence has opened and `body` has been read. */
  lemma {:induction false} FencedBody(w: string, body: seq<string>)
    requires IsWord(w) && NoFence(body)
    ensures Run(Start, ["```" + w] + body)
         == Start.(inCode := true, codeLang := FenceLang(w), codeLines := body)
  {
    OpeningFence(w);
    RunConcat(Start, ["```" + w], body);
    assert ["```" + w][..0] == [];
    var s := Run(Start, ["```" + w]);
    assert s == Start.(inCode := true, codeLang := FenceLang(w), codeLines := []);
    RunCode(s, body);
    assert [] + body == body;
  }

  /** A fenced block becomes one line: its lines joined with "\n" and
      escaped, in a `<pre>` element. */
  lemma {:induction false} FencedBlock(w: string, body: seq<string>)
    requires IsWord(w) && NoFence(body)
    ensures var e := Finished(Run(Start, ["```" + w] + body + ["```"]));
            e.out == [CodeHtml(FenceLang(w), body)] && e.headings == []
  {
    FencedBody(w, body);
    ClosingFence();
    var lines := ["```" + w] + body + ["```"];
    assert lines[..|lines| - 1] == ["```" + w] + body;
  }

  /** A fence left open at the end of the text is still written out. */
  lemma {:induction false} UnclosedFence(w: string, body: seq<string>)
    requires IsWord(w) && NoFence(body)
    ensures var e := Finished(Run(Start, ["```" + w] + body));
            e.out == [CodeHtml(FenceLang(w), body)] && e.headings == []
  {
    FencedBody(w, body);
  }

  /** A "mermaid" fence keeps its text for the diagram renderer. */
  lemma {:induction false} MermaidBlock(body: seq<string>)
    requires NoFence(body)
    ensures Finished(Run(Start, ["```mermaid"] + body + ["```"])).out
         == ["<pre class=\"mermaid\">" + HtmlEscape(Join("\n", body), true) + "</pre>"]
  {
    var w := "mermaid";
    assert IsWord(w);
    assert "```" + w == "```mermaid";
    FencedBlock(w, body);
  }

  predicate AllText(lines: seq<string>) {
    forall k :: 0 <= k < |lines| ==> Classify(lines[k]) == TextLine
  }

  /** Plain text lines are only collected. */
  lemma {:induction false} RunText(s: State, lines: seq<string>)
    requires !s.inCode && AllText(lines)
    ensures Run(s, lines) == s.(para := s.para + lines)
  {
    if lines != [] {
      var init := lines[..|lines| - 1];
      RunText(s, init);
      assert s.para + init + [lines[|lines| - 1]] == s.para + lines;
    } else {
      assert s.para + lines == s.para;
    }
  }

  /** Lines that are not blank are each stripped, none dropped. */
  lemma {:induction false} StrippedAll(lines: seq<string>)
    requires forall k :: 0 <= k < |lines| ==> !Blank(lines[k])
    ensures StrippedLines(lines) == seq(|lines|, k requires 0 <= k < |lines| => Strip(lines[k]))
  {
    if lines != [] {
      StrippedAll(lines[..|lines| - 1]);
    }
  }

  /** Collected lines, flushed at the end, make one paragraph. */
  lemma {:induction false} CollectedParagraph(lines: seq<string>)
    requires lines != [] && forall k :: 0 <= k < |lines| ==> !Blank(lines[k])
    ensures Finished(Start.(para := lines)).out == [ParaHtml(Join(" ", StrippedLines(lines)))]
  {
    StrippedAll(lines);
    var xs := StrippedLines(lines);
    assert xs[|xs| - 1] == Strip(lines[|lines| - 1]) != [];
    var text := Join(" ", xs);
    assert text != [];
    var st := Start.(para := lines);
    var flushed := st.(out := [ParaHtml(text)], para := []);
    assert ParaFlushed(st) == flushed;
    assert Finished(st) == flushed;
  }

  /** Consecutive text lines make one paragraph: each line stripped, joined
      with single spaces. */
  lemma {:induction false} Paragraph(lines: seq<string>)
    requires lines != [] && AllText(lines)
    ensures Finished(Run(Start, lines)).out
         == [ParaHtml(Join(" ", seq(|lines|, k requires 0 <= k < |lines| => Strip(lines[k]))))]
  {
    TextCollected(lines);
    CollectedParagraph(lines);
    StrippedAll(lines);
  }

  lemma {:induction false} TextCollected(lines: seq<string>)
    requires AllText(lines)
    ensures Run(Start, lines) == Start.(para := lines)
    ensures forall k :: 0 <= k < |lines| ==> !Blank(lines[k])
  {
    RunText(Start, lines);
    assert [] + lines == lines;
  }

  /** A paragraph of blank lines writes nothing. */
  lemma {:induction false} BlankParagraph(s: State)
    requires forall k :: 0 <= k < |s.para| ==> Blank(s.para[k])
    ensures ParaFlushed(s).out == s.out && ParaFlushed(s).para == []
  {
    if s.para != [] {
      BlankStripped(s.para);
    }
  }

  lemma {:induction false} BlankStripped(lines: seq<string>)
    requires forall k :: 0 <= k < |lines| ==> Blank(lines[k])
    ensures StrippedLines(lines) == []
  {
    if lines != [] {
      BlankStripped(lines[..|lines| - 1]);
    }
  }
}
