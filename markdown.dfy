/** `_parse_markdown`: the line-by-line state machine that turns the report's
    Markdown into HTML lines and collects its headings. The functions give
    the state after each step; `MarkdownParser` is the loop itself, with the
    flush helpers as methods that update its fields. */
module Markdown {
  import opened Maybe
  import opened Decimal
  import opened PyText
  import opened Blocks
  import Slug
  import Inline
  import Anchor

  type Level = n: nat | 1 <= n <= 6 witness 1

  /** `Heading(level, text, anchor)`. */
  datatype Heading = Heading(level: Level, text: string, anchor: string)

  /** The loop's variables between two lines. */
  datatype State = State(out: seq<string>, headings: seq<Heading>,
                         inCode: bool, codeLang: Option<string>, codeLines: seq<string>,
                         inUl: bool, inBq: bool, para: seq<string>)

  const Start := State([], [], false, None, [], false, false, [])

  /** `s.strip() for s in para if s.strip()`. */
  function StrippedLines(para: seq<string>): (r: seq<string>)
    ensures |r| <= |para|
    ensures forall k :: 0 <= k < |r| ==> r[k] != []
  {
    if para == [] then []
    else
      var t := Strip(para[|para| - 1]);
      StrippedLines(para[..|para| - 1]) + (if t == [] then [] else [t])
  }

  function ParaHtml(text: string): string {
    "<p>" + Inline.EscapeInline(text) + "</p>"
  }

  function ItemHtml(text: string): string {
    "<li>" + Inline.EscapeInline(text) + "</li>"
  }

  function HeadingHtml(level: Level, anchor: string, text: string): string {
    "<h" + ToString(level) + " id=\"" + anchor + "\">" + Inline.EscapeInline(text) + "</h" + ToString(level) + ">"
  }

  /** The one line a code block becomes: its lines joined and escaped. */
  function CodeHtml(lang: Option<string>, lines: seq<string>): string {
    var content := HtmlEscape(Join("\n", lines), true);
    if lang == Some("mermaid") then "<pre class=\"mermaid\">" + content + "</pre>"
    else
      var langClass := if lang.Some? && lang.value != [] then " language-" + lang.value else "";
      "<pre><code class=\"code" + langClass + "\">" + content + "</code></pre>"
  }

  /** `flush_para`. */
  function ParaFlushed(s: State): State {
    if s.para == [] then s
    else
      var text := Join(" ", StrippedLines(s.para));
      s.(out := if text != [] then s.out + [ParaHtml(text)] else s.out, para := [])
  }

  /** `flush_ul`. */
  function UlClosed(s: State): State {
    if s.inUl then s.(out := s.out + ["</ul>"], inUl := false) else s
  }

  /** `flush_bq`. */
  function BqClosed(s: State): State {
    if s.inBq then s.(out := s.out + ["</blockquote>"], inBq := false) else s
  }

  /** `flush_code`. */
  function CodeFlushed(s: State): State {
    if !s.inCode then s
    else s.(out := s.out + [CodeHtml(s.codeLang, s.codeLines)], inCode := false, codeLang := None, codeLines := [])
  }

  /** The three flushes before a heading, a fence or a blank line. */
  function BlocksClosed(s: State): State {
    BqClosed(UlClosed(ParaFlushed(s)))
  }

  /** `{h.anchor for h in headings}`. */
  function AnchorSet(hs: seq<Heading>): set<string> {
    set k | 0 <= k < |hs| :: hs[k].anchor
  }

  function WithHeading(s: State, level: Level, text: string): State {
    var anchor := Anchor.Dedupe(Slug.Slugify(text), AnchorSet(s.headings));
    s.(headings := s.headings + [Heading(level, text, anchor)], out := s.out + [HeadingHtml(level, anchor, text)])
  }

  function WithItem(s: State, body: string): State {
    var t := if s.inUl then s else s.(out := s.out + ["<ul>"], inUl := true);
    t.(out := t.out + [ItemHtml(body)])
  }

  function WithQuote(s: State, body: string): State {
    var t := if s.inBq then s else s.(out := s.out + ["<blockquote>"], inBq := true);
    if Blank(body) then t else t.(out := t.out + [ParaHtml(body)])
  }

  /** One pass of the loop's body over the line `raw`. */
  function Next(s: State, raw: string): State {
    var k := Classify(raw);
    if k.FenceLine? then
      if s.inCode then CodeFlushed(s)
      else BlocksClosed(s).(inCode := true, codeLang := k.lang, codeLines := [])
    else if s.inCode then s.(codeLines := s.codeLines + [raw])
    else
      match k
      case HeadingLine(level, text) => WithHeading(BlocksClosed(s), level, text)
      case ItemLine(body) => WithItem(BqClosed(ParaFlushed(s)), body)
      case QuoteLine(body) => WithQuote(UlClosed(ParaFlushed(s)), body)
      case BlankLine => BlocksClosed(s)
      case TextLine => s.(para := s.para + [raw])
  }

  /** The state after the loop has read `lines`. */
  function Run(s: State, lines: seq<string>): State {
    if lines == [] then s else Next(Run(s, lines[..|lines| - 1]), lines[|lines| - 1])
  }

  /** The flushes after the loop. */
  function Finished(s: State): State {
    CodeFlushed(BlocksClosed(s))
  }

  /** `_parse_markdown` on the lines of the text: the HTML and the headings. */
  function Parse(lines: seq<string>): (string, seq<Heading>) {
    var e := Finished(Run(Start, lines));
    (Join("\n", e.out), e.headings)
  }

  class MarkdownParser {
    var out: seq<string>
    var headings: seq<Heading>
    var inCode: bool
    var codeLang: Option<string>
    var codeLines: seq<string>
    var inUl: bool
    var inBq: bool
    var para: seq<string>

    function Snapshot(): State
      reads this
    {
      State(out, headings, inCode, codeLang, codeLines, inUl, inBq, para)
    }

    constructor()
      ensures Snapshot() == Start
    {
      out, headings := [], [];
      inCode, codeLang, codeLines := false, None, [];
      inUl, inBq, para := false, false, [];
    }

    method FlushPara()
      modifies this
      ensures Snapshot() == ParaFlushed(old(Snapshot()))
    {
      if para == [] {
        return;
      }
      var text := Join(" ", StrippedLines(para));
      if text != [] {
        out := out + [ParaHtml(text)];
      }
      para := [];
    }

    method FlushUl()
      modifies this
      ensures Snapshot() == UlClosed(old(Snapshot()))
    {
      if inUl {
        out := out + ["</ul>"];
        inUl := false;
      }
    }

    method FlushBq()
      modifies this
      ensures Snapshot() == BqClosed(old(Snapshot()))
    {
      if inBq {
        out := out + ["</blockquote>"];
        inBq := false;
      }
    }

    method FlushCode()
      modifies this
      ensures Snapshot() == CodeFlushed(old(Snapshot()))
    {
      if !inCode {
        return;
      }
      out := out + [CodeHtml(codeLang, codeLines)];
      inCode := false;
      codeLang := None;
      codeLines := [];
    }

    /** The three flushes before a heading, a fence or a blank line. */
    method CloseBlocks()
      modifies this
      ensures Snapshot() == BlocksClosed(old(Snapshot()))
    {
      FlushPara();
      FlushUl();
      FlushBq();
    }

    /** An opening fence: close the open blocks and start collecting code. */
    method OpenFence(lang: Option<string>)
      modifies this
      ensures Snapshot() == BlocksClosed(old(Snapshot())).(inCode := true, codeLang := lang, codeLines := [])
    {
      CloseBlocks();
      inCode := true;
      codeLang := lang;
      codeLines := [];
    }

    /** A heading: close the open blocks, then record it under a free anchor. */
    method AddHeading(level: Level, text: string)
      modifies this
      ensures Snapshot() == WithHeading(BlocksClosed(old(Snapshot())), level, text)
    {
      CloseBlocks();
      var anchor := Anchor.UniqueAnchor(Slug.Slugify(text), AnchorSet(headings));
      headings := headings + [Heading(level, text, anchor)];
      out := out + [HeadingHtml(level, anchor, text)];
    }

    /** A list item: close a paragraph or quote, open the list if needed. */
    method AddItem(body: string)
      modifies this
      ensures Snapshot() == WithItem(BqClosed(ParaFlushed(old(Snapshot()))), body)
    {
      FlushPara();
      FlushBq();
      if !inUl {
        out := out + ["<ul>"];
        inUl := true;
      }
      out := out + [ItemHtml(body)];
    }

    /** A quote line: close a paragraph or list, open the quote if needed. */
    method AddQuote(body: string)
      modifies this
      ensures Snapshot() == WithQuote(UlClosed(ParaFlushed(old(Snapshot()))), body)
    {
      FlushPara();
      FlushUl();
      if !inBq {
        out := out + ["<blockquote>"];
        inBq := true;
      }
      if !Blank(body) {
        out := out + [ParaHtml(body)];
      }
    }

    /** The body of the `for raw in lines` loop. */
    method Feed(raw: string)
      modifies this
      ensures Snapshot() == Next(old(Snapshot()), raw)
    {
      var k := Classify(raw);
      if k.FenceLine? {
        if inCode {
          FlushCode();
        } else {
          OpenFence(k.lang);
        }
      } else if inCode {
        codeLines := codeLines + [raw];
      } else {
        match k
        case HeadingLine(level, text) => AddHeading(level, text);
        case ItemLine(body) => AddItem(body);
        case QuoteLine(body) => AddQuote(body);
        case BlankLine => CloseBlocks();
        case TextLine => para := para + [raw];
      }
    }
  }

  /** `_parse_markdown(md)`. */
  method ParseMarkdown(md: string) returns (html: string, headings: seq<Heading>)
    ensures (html, headings) == Parse(Lines(md))
  {
    var lines := Lines(md);
    var p := new MarkdownParser();
    for i := 0 to |lines|
      invariant p.Snapshot() == Run(Start, lines[..i])
    {
      assert lines[..i + 1][..i] == lines[..i];
      p.Feed(lines[i]);
    }
    assert lines[..|lines|] == lines;
    p.FlushPara();
    p.FlushUl();
    p.FlushBq();
    p.FlushCode();
    html := Join("\n", p.out);
    headings := p.headings;
  }
}
