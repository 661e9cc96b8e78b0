/** `_render_toc`: the sidebar's table of contents, one indented link per
    heading up to a level. */
module Toc {
  import opened PyText
  import opened Decimal
  import opened Markdown

  const NoHeadings := "<p class=\"muted\">(No headings found)</p>"
  const TocOpen := "<ul class=\"toc\">"
  const DefaultMaxLevel := 3

  /** `[h for h in headings if h.level <= max_level]`. */
  function Listed(hs: seq<Heading>, maxLevel: int): (r: seq<Heading>)
    ensures |r| <= |hs|
  {
    if hs == [] then []
    else Listed(hs[..|hs| - 1], maxLevel) + (if hs[|hs| - 1].level <= maxLevel then [hs[|hs| - 1]] else [])
  }

  /** The left margin of a heading's entry, in pixels. */
  function Indent(h: Heading): nat {
    (h.level - 1) * 12
  }

  function TocItem(h: Heading): string {
    "<li class=\"toc-item\" style=\"margin-left:" + ToString(Indent(h)) + "px\">"
    + "<a href=\"#" + HtmlEscape(h.anchor, true) + "\">" + HtmlEscape(h.text, true) + "</a>"
    + "</li>"
  }

  function TocItems(items: seq<Heading>): (r: seq<string>)
    ensures |r| == |items|
  {
    seq(|items|, k requires 0 <= k < |items| => TocItem(items[k]))
  }

  /** The table of contents for `hs`. */
  function TocHtml(hs: seq<Heading>, maxLevel: int): string {
    var items := Listed(hs, maxLevel);
    if items == [] then NoHeadings else Join("\n", [TocOpen] + TocItems(items) + ["</ul>"])
  }

  /** `_render_toc(headings, max_level)`. */
  method RenderToc(headings: seq<Heading>, maxLevel: int := DefaultMaxLevel) returns (html: string)
    ensures html == TocHtml(headings, maxLevel)
  {
    var items: seq<Heading> := [];
    for i := 0 to |headings|
      invariant items == Listed(headings[..i], maxLevel)
    {
      assert headings[..i + 1][..i] == headings[..i];
      if headings[i].level <= maxLevel {
        items := items + [headings[i]];
      }
    }
    assert headings[..|headings|] == headings;
    if items == [] {
      return NoHeadings;
    }
    var out := [TocOpen];
    for i := 0 to |items|
      invariant out == [TocOpen] + TocItems(items[..i])
    {
      var indent := (items[i].level - 1) * 12;
      var line := "<li class=\"toc-item\" style=\"margin-left:" + ToString(indent) + "px\">"
                  + "<a href=\"#" + HtmlEscape(items[i].anchor, true) + "\">" + HtmlEscape(items[i].text, true) + "</a>"
                  + "</li>";
      assert line == TocItem(items[i]);
      TocItemsSnoc(items, i);
      out := out + [line];
    }
    assert items[..|items|] == items;
    out := out + ["</ul>"];
    html := Join("\n", out);
  }

  lemma {:induction false} TocItemsSnoc(items: seq<Heading>, i: nat)
    requires i < |items|
    ensures TocItems(items[..i + 1]) == TocItems(items[..i]) + [TocItem(items[i])]
  {
    var a := TocItems(items[..i + 1]);
    var b := TocItems(items[..i]) + [TocItem(items[i])];
    forall k | 0 <= k < |a|
      ensures a[k] == b[k]
    {
      assert items[..i + 1][k] == items[k];
    }
  }

  /** A heading is listed exactly when it is one of the headings and its
      level is at most `maxLevel`. */
  lemma {:induction false} ListedExactly(hs: seq<Heading>, maxLevel: int, h: Heading)
    ensures h in Listed(hs, maxLevel) <==> h in hs && h.level <= maxLevel
  {
    if hs != [] {
      var init := hs[..|hs| - 1];
      ListedExactly(init, maxLevel, h);
      assert hs == init + [hs[|hs| - 1]];
    }
  }

  /** Listing keeps the input order: the entries of two runs of headings are
      those of the first followed by those of the second. */
  lemma {:induction false} ListedConcat(a: seq<Heading>, b: seq<Heading>, maxLevel: int)
    ensures Listed(a + b, maxLevel) == Listed(a, maxLevel) + Listed(b, maxLevel)
  {
    if b == [] {
      assert a + b == a;
    } else {
      var init := b[..|b| - 1];
      ListedConcat(a, init, maxLevel);
      assert (a + b)[..|a + b| - 1] == a + init;
    }
  }

  lemma {:induction false} ListedOne(h: Heading, maxLevel: int)
    ensures Listed([h], maxLevel) == if h.level <= maxLevel then [h] else []
  {
    assert [h][..0] == [];
  }

  /** A join of several pieces starts with the first piece. */
  lemma {:induction false} JoinStartsWith(sep: string, a: string, xs: seq<string>)
    requires xs != []
    ensures |Join(sep, [a] + xs)| >= |a| && Join(sep, [a] + xs)[..|a|] == a
  {
    JoinCons(sep, a, xs);
  }

  /** A table with entries opens with `<ul`, so it is never the placeholder. */
  lemma {:induction false} TableIsNotPlaceholder(items: seq<Heading>)
    ensures Join("\n", [TocOpen] + TocItems(items) + ["</ul>"]) != NoHeadings
  {
    var rest := TocItems(items) + ["</ul>"];
    assert [TocOpen] + TocItems(items) + ["</ul>"] == [TocOpen] + rest;
    JoinStartsWith("\n", TocOpen, rest);
    var t := Join("\n", [TocOpen] + rest);
    assert t[1] == t[..|TocOpen|][1];
  }

  /** The placeholder appears exactly when no heading is at most `maxLevel`
      deep. */
  lemma {:induction false} TocEmpty(hs: seq<Heading>, maxLevel: int)
    ensures TocHtml(hs, maxLevel) == NoHeadings <==> forall h :: h in hs ==> h.level > maxLevel
  {
    var items := Listed(hs, maxLevel);
    forall h | h in hs
      ensures h.level <= maxLevel ==> h in items
    {
      ListedExactly(hs, maxLevel, h);
    }
    if items != [] {
      ListedExactly(hs, maxLevel, items[0]);
      TableIsNotPlaceholder(items);
    }
  }

  /** Where each listed heading sits in the input: increasing positions,
      and exactly those of the headings no deeper than `maxLevel`. */
  ghost function ListedPositions(hs: seq<Heading>, maxLevel: int): (idx: seq<int>)
    ensures |idx| == |Listed(hs, maxLevel)|
    ensures forall k :: 0 <= k < |idx| ==> 0 <= idx[k] < |hs| && Listed(hs, maxLevel)[k] == hs[idx[k]]
    ensures forall k, l :: 0 <= k < l < |idx| ==> idx[k] < idx[l]
    ensures forall j :: 0 <= j < |hs| ==> (hs[j].level <= maxLevel <==> j in idx)
  {
    if hs == [] then []
    else
      var n := |hs| - 1;
      var init := hs[..n];
      var pre := ListedPositions(init, maxLevel);
      assert forall j :: 0 <= j < n ==> init[j] == hs[j];
      pre + (if hs[n].level <= maxLevel then [n] else [])
  }

  /** `lines` hold `TocItem(h)` for exactly the headings `h` of `hs` no deeper
      than `maxLevel`, in input order: `idx` gives their increasing positions. */
  predicate EntriesOf(lines: seq<string>, idx: seq<int>, hs: seq<Heading>, maxLevel: int) {
    && |idx| == |lines|
    && (forall k :: 0 <= k < |idx| ==> 0 <= idx[k] < |hs| && lines[k] == TocItem(hs[idx[k]]))
    && (forall k, l :: 0 <= k < l < |idx| ==> idx[k] < idx[l])
    && (forall j :: 0 <= j < |hs| ==> (hs[j].level <= maxLevel <==> j in idx))
  }

  /** With a heading to list, the table is `<ul class="toc">`, then one entry
      per heading of `hs` no deeper than `maxLevel`, in input order, then
      `</ul>`. */
  lemma {:induction false} TocLines(hs: seq<Heading>, maxLevel: int)
    requires exists j :: 0 <= j < |hs| && hs[j].level <= maxLevel
    ensures exists lines: seq<string>, idx: seq<int> ::
              && TocHtml(hs, maxLevel) == Join("\n", [TocOpen] + lines + ["</ul>"])
              && EntriesOf(lines, idx, hs, maxLevel)
  {
    var items := Listed(hs, maxLevel);
    var idx := ListedPositions(hs, maxLevel);
    var j :| 0 <= j < |hs| && hs[j].level <= maxLevel;
    assert j in idx;
    var lines := TocItems(items);
    assert TocHtml(hs, maxLevel) == Join("\n", [TocOpen] + lines + ["</ul>"]);
    assert EntriesOf(lines, idx, hs, maxLevel);
  }

  /** Each entry is indented by twelve pixels per level below the first. */
  lemma {:induction false} IndentByLevel(h: Heading)
    ensures Indent(h) == 12 * (h.level - 1) && Indent(h) <= 60
    ensures h.level == 1 <==> Indent(h) == 0
  {
  }
}
