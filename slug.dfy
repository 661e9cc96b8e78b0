/** `_slugify`: the anchor a heading's text becomes. */
module Slug {
  import opened PyText

  /** The CJK Unified Ideographs block the pattern keeps besides `\w`. */
  predicate IsCjk(c: char) {
    '\U{4E00}' <= c <= '\U{9FFF}'
  }

  /** What `[^\w一-鿿\s-]` does not remove. */
  predicate Kept(c: char) {
    IsWordChar(c) || IsCjk(c) || IsSpace(c) || c == '-'
  }

  /** A character a slug may hold. */
  predicate SlugChar(c: char) {
    (IsWordChar(c) || IsCjk(c) || c == '-') && !IsUpper(c)
  }

  predicate NoDoubleDash(s: string) {
    forall i :: 0 <= i < |s| - 1 ==> !(s[i] == '-' && s[i + 1] == '-')
  }

  /** `re.sub(r"[^\w一-鿿\s-]", "", s)`. */
  function Keep(s: string): (r: string)
    ensures forall c :: c in r ==> c in s && Kept(c)
  {
    if s == [] then []
    else if Kept(s[0]) then [s[0]] + Keep(s[1..])
    else Keep(s[1..])
  }

  /** `re.sub(r"\s+", "-", s)`: every run of white space becomes one dash;
      `afterSpace` says the text before `s` ended inside such a run. */
  function SpacesToDash(s: string, afterSpace: bool): (r: string)
    ensures forall c :: c in r ==> (c in s && !IsSpace(c)) || c == '-'
  {
    if s == [] then []
    else if IsSpace(s[0]) then
      if afterSpace then SpacesToDash(s[1..], true) else "-" + SpacesToDash(s[1..], true)
    else [s[0]] + SpacesToDash(s[1..], false)
  }

  /** `re.sub(r"-{2,}", "-", s)`: every run of dashes becomes one dash;
      `afterDash` says the text before `s` ended with a dash of the run. */
  function SqueezeDashes(s: string, afterDash: bool): (r: string)
    ensures forall c :: c in r ==> c in s
    ensures NoDoubleDash(r)
    ensures afterDash && |r| > 0 ==> r[0] != '-'
  {
    if s == [] then []
    else if s[0] == '-' then
      if afterDash then SqueezeDashes(s[1..], true) else "-" + SqueezeDashes(s[1..], true)
    else [s[0]] + SqueezeDashes(s[1..], false)
  }

  /** `_slugify(text)`. */
  function Slugify(text: string): string {
    var t := Lower(Strip(text));
    var u := SqueezeDashes(SpacesToDash(Keep(t), false), false);
    if u == "" then "section" else u
  }

  lemma {:induction false} SectionIsSlug()
    ensures forall i :: 0 <= i < |"section"| ==> SlugChar("section"[i])
  {
  }

  /** A slug is never empty, is lower case, holds no white space and never
      two dashes in a row. */
  lemma {:induction false} SlugShape(text: string)
    ensures Slugify(text) != ""
    ensures forall i :: 0 <= i < |Slugify(text)| ==> SlugChar(Slugify(text)[i]) && !IsSpace(Slugify(text)[i])
    ensures NoDoubleDash(Slugify(text))
  {
    var t := Lower(Strip(text));
    var k := Keep(t);
    var d := SpacesToDash(k, false);
    var u := SqueezeDashes(d, false);
    if u != "" {
      forall i | 0 <= i < |u|
        ensures SlugChar(u[i])
      {
        assert u[i] in u;
        if u[i] != '-' {
          assert u[i] in t;
        }
      }
    } else {
      SectionIsSlug();
    }
  }

  lemma {:induction false} KeepFixed(s: string)
    requires forall c :: c in s ==> Kept(c)
    ensures Keep(s) == s
  {
    if s != [] {
      assert s[0] in s;
      assert forall c :: c in s[1..] ==> c in s;
      KeepFixed(s[1..]);
    }
  }

  lemma {:induction false} SpacesToDashFixed(s: string, afterSpace: bool)
    requires forall c :: c in s ==> !IsSpace(c)
    ensures SpacesToDash(s, afterSpace) == s
  {
    if s != [] {
      assert s[0] in s;
      assert forall c :: c in s[1..] ==> c in s;
      SpacesToDashFixed(s[1..], false);
    }
  }

  lemma {:induction false} SqueezeDashesFixed(s: string, afterDash: bool)
    requires NoDoubleDash(s)
    requires afterDash && |s| > 0 ==> s[0] != '-'
    ensures SqueezeDashes(s, afterDash) == s
  {
    if s != [] {
      assert NoDoubleDash(s[1..]) by {
        forall i | 0 <= i < |s[1..]| - 1
          ensures !(s[1..][i] == '-' && s[1..][i + 1] == '-')
        {
          assert s[1..][i] == s[i + 1] && s[1..][i + 1] == s[i + 2];
        }
      }
      SqueezeDashesFixed(s[1..], s[0] == '-');
    }
  }

  /** Text that already has the shape of a slug is its own slug. */
  lemma {:induction false} SlugFixed(r: string)
    requires r != ""
    requires forall i :: 0 <= i < |r| ==> SlugChar(r[i])
    requires NoDoubleDash(r)
    ensures Slugify(r) == r
  {
    assert forall i :: 0 <= i < |r| ==> !IsSpace(r[i]);
    StripUnpadded(r);
    assert Lower(r) == r;
    assert forall c :: c in r ==> SlugChar(c);
    KeepFixed(r);
    SpacesToDashFixed(r, false);
    SqueezeDashesFixed(r, false);
  }

  /** Slugging a slug changes nothing. */
  lemma {:induction false} SlugifyIdempotent(text: string)
    ensures Slugify(Slugify(text)) == Slugify(text)
  {
    SlugShape(text);
    SlugFixed(Slugify(text));
  }

  /** Text with nothing a slug keeps falls back to "section". */
  lemma {:induction false} FallbackExample()
    ensures Slugify("!?") == "section"
  {
    assert Strip("!?") == "!?";
    assert Lower("!?") == "!?";
  }

  /** The first white-space character of a run writes the dash, the others
      nothing. */
  lemma {:induction false} SpaceStep(sp: string, y: string, afterSpace: bool)
    requires sp != [] && IsSpace(sp[0])
    ensures SpacesToDash(sp + y, afterSpace) == (if afterSpace then "" else "-") + SpacesToDash(sp[1..] + y, true)
  {
    assert (sp + y)[0] == sp[0] && (sp + y)[1..] == sp[1..] + y;
  }

  /** Inside a run of white space nothing more is written until the run ends. */
  lemma {:induction false} SpaceRunDropped(sp: string, y: string)
    requires Blank(sp)
    requires forall c :: c in y ==> !IsSpace(c)
    ensures SpacesToDash(sp + y, true) == y
  {
    if sp == [] {
      assert sp + y == y;
      SpacesToDashFixed(y, true);
    } else {
      SpaceStep(sp, y, true);
      SpaceRunDropped(sp[1..], y);
    }
  }

  /** Text without white space is copied until the first space. */
  lemma {:induction false} SpacesToDashPrefix(x: string, rest: string)
    requires forall c :: c in x ==> !IsSpace(c)
    ensures SpacesToDash(x + rest, false) == x + SpacesToDash(rest, false)
  {
    if x != [] {
      assert x[0] in x;
      assert forall c :: c in x[1..] ==> c in x;
      assert (x + rest)[0] == x[0] && (x + rest)[1..] == x[1..] + rest;
      SpacesToDashPrefix(x[1..], rest);
      var t := SpacesToDash(rest, false);
      assert [x[0]] + (x[1..] + t) == x + t;
    } else {
      assert x + rest == rest;
    }
  }

  /** A run of white space between two words becomes one dash. */
  lemma {:induction false} SpaceRunOneDash(x: string, sp: string, y: string)
    requires forall c :: c in x ==> !IsSpace(c)
    requires forall c :: c in y ==> !IsSpace(c)
    requires sp != [] && Blank(sp)
    ensures SpacesToDash(x + sp + y, false) == x + "-" + y
  {
    assert x + sp + y == x + (sp + y);
    SpacesToDashPrefix(x, sp + y);
    SpaceStep(sp, y, false);
    SpaceRunDropped(sp[1..], y);
  }
}
