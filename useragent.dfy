/** The user agent: a desktop Chrome template chosen by operating-system
    weight, with the browser's version substituted for `{CHROME_VERSION}`. */
module UserAgent {
  import opened Maybe
  import opened Seed
  import opened Mulberry
  import opened Weighted
  import Geo
  import opened Decimal

  const Placeholder := "{CHROME_VERSION}"
  const CommonTail := ") AppleWebKit/537.36 (KHTML, like Gecko) Chrome/"
  const SafariTail := " Safari/537.36"

  const Mozilla := "Mozilla/5.0 ("

  /** The platform part of each template: Windows, macOS and Linux. */
  const Platforms: seq<string> := ["Windows NT 10.0; Win64; x64", "Macintosh; Intel Mac OS X 10_15_7", "X11; Linux x86_64"]

  /** The part of template `k` before the placeholder. */
  function Head(k: nat): string
    requires k < 3
  {
    Mozilla + Platforms[k] + CommonTail
  }

  /** `DEFAULT_UA_TEMPLATES`, in the order Windows, macOS, Linux. */
  const Templates: seq<string> := [
    Head(0) + Placeholder + SafariTail,
    Head(1) + Placeholder + SafariTail,
    Head(2) + Placeholder + SafariTail
  ]

  const FallbackVersion := "122.0.6261.69"

  /** The end of the run of digits that starts at `i`. */
  function DigitRun(s: string, i: nat): (j: nat)
    requires i <= |s|
    ensures i <= j <= |s|
    ensures forall k :: i <= k < j ==> IsDigit(s[k])
    ensures j < |s| ==> !IsDigit(s[j])
    decreases |s| - i
  {
    if i < |s| && IsDigit(s[i]) then DigitRun(s, i + 1) else i
  }

  /** Where `\d+(\.\d+){n-1}` matching at `i` ends: every `\d+` takes its whole
      run of digits, which is also where backtracking would leave it, since a
      shorter run is followed by a digit and not by a dot. */
  function GroupsEnd(s: string, i: nat, n: nat): (r: Option<nat>)
    requires i <= |s| && n >= 1
    ensures r.Some? ==> i < r.value <= |s|
    decreases n
  {
    var j := DigitRun(s, i);
    if j == i then None
    else if n == 1 then Some(j)
    else if j < |s| && s[j] == '.' then GroupsEnd(s, j + 1, n - 1)
    else None
  }

  /** `v` is `n` non-empty groups of digits joined by dots, and nothing else:
      a text `\d+(\.\d+){n-1}` matches as a whole. */
  predicate Groups(v: string, n: nat)
    decreases n, 1
  {
    if n <= 1 then n == 1 && |v| > 0 && AllDigits(v)
    else exists k :: 0 < k < |v| && SplitAt(v, k, n)
  }

  /** `v` is a group of digits ending at `k`, a dot, then `n - 1` groups. */
  predicate SplitAt(v: string, k: int, n: nat)
    decreases n, 0
  {
    0 < k < |v| && n >= 1 && v[k] == '.' && AllDigits(v[..k]) && Groups(v[k + 1..], n - 1)
  }

  /** A run of digits that a non-digit or the end follows is the whole run. */
  lemma {:induction false} DigitRunTo(s: string, i: nat, j: nat)
    requires i <= j <= |s|
    requires forall k :: i <= k < j ==> IsDigit(s[k])
    requires j == |s| || !IsDigit(s[j])
    ensures DigitRun(s, i) == j
    decreases j - i
  {
    if i < j {
      DigitRunTo(s, i + 1, j);
    }
  }

  /** What a group match covers is `n` groups, and no digit follows it. */
  lemma {:induction false} GroupsEndSound(s: string, i: nat, n: nat)
    requires i <= |s| && n >= 1 && GroupsEnd(s, i, n).Some?
    ensures var j := GroupsEnd(s, i, n).value;
              Groups(s[i..j], n) && (j == |s| || !IsDigit(s[j]))
    decreases n
  {
    var j := GroupsEnd(s, i, n).value;
    var d := DigitRun(s, i);
    assert AllDigits(s[i..d]) by {
      forall q | 0 <= q < d - i
        ensures IsDigit(s[i..d][q])
      {
        assert s[i..d][q] == s[i + q];
      }
    }
    if n > 1 {
      GroupsEndSound(s, d + 1, n - 1);
      var v := s[i..j];
      assert v[d - i] == '.';
      assert v[..d - i] == s[i..d];
      assert v[d - i + 1..] == s[d + 1..j];
      assert SplitAt(v, d - i, n);
    }
  }

  /** When `s[i..j]` splits at `k`, the first run of digits ends at the dot
      and the rest of the groups follow it. */
  lemma {:induction false} FirstGroup(s: string, i: nat, j: nat, k: nat, n: nat)
    requires i <= j <= |s| && SplitAt(s[i..j], k, n)
    ensures i + k < j && DigitRun(s, i) == i + k && s[i + k] == '.'
    ensures Groups(s[i + k + 1..j], n - 1)
  {
    var v := s[i..j];
    forall q | i <= q < i + k
      ensures IsDigit(s[q])
    {
      assert s[q] == v[..k][q - i];
    }
    assert s[i + k] == v[k];
    DigitRunTo(s, i, i + k);
    assert v[k + 1..] == s[i + k + 1..j];
  }

  /** Every `n` groups that no digit follows are where a group match ends. */
  lemma {:induction false} GroupsEndComplete(s: string, i: nat, j: nat, n: nat)
    requires i <= j <= |s| && n >= 1
    requires Groups(s[i..j], n) && (j == |s| || !IsDigit(s[j]))
    ensures GroupsEnd(s, i, n) == Some(j)
    decreases n
  {
    var v := s[i..j];
    if n == 1 {
      forall q | i <= q < j
        ensures IsDigit(s[q])
      {
        assert s[q] == v[q - i];
      }
      DigitRunTo(s, i, j);
    } else {
      var k :| 0 < k < |v| && SplitAt(v, k, n);
      FirstGroup(s, i, j, k, n);
      GroupsEndComplete(s, i + k + 1, j, n - 1);
    }
  }

  /** A group match ends at `j` exactly when `n` groups run from `i` to `j`
      and no digit follows them: the greedy reading of `\d+(\.\d+){n-1}`. */
  lemma {:induction false} GroupsEndIff(s: string, i: nat, j: nat, n: nat)
    requires i <= j <= |s| && n >= 1
    ensures GroupsEnd(s, i, n) == Some(j) <==> Groups(s[i..j], n) && (j == |s| || !IsDigit(s[j]))
  {
    if GroupsEnd(s, i, n) == Some(j) {
      GroupsEndSound(s, i, n);
    }
    if Groups(s[i..j], n) && (j == |s| || !IsDigit(s[j])) {
      GroupsEndComplete(s, i, j, n);
    }
  }

  /** When some `n` groups start at `i`, the group match at `i` succeeds. */
  lemma {:induction false} GroupsEndFinds(s: string, i: nat, n: nat)
    requires i <= |s| && n >= 1
    ensures (exists k :: i < k <= |s| && Groups(s[i..k], n)) ==> GroupsEnd(s, i, n).Some?
    decreases n
  {
    if exists k :: i < k <= |s| && Groups(s[i..k], n) {
      var k :| i < k <= |s| && Groups(s[i..k], n);
      var v := s[i..k];
      if n == 1 {
        assert IsDigit(s[i]) by {
          assert v[0] == s[i];
        }
      } else {
        assert Groups(v, n);
        var m :| 0 < m < |v| && SplitAt(v, m, n);
        FirstGroup(s, i, k, m, n);
        GroupsEndFinds(s, i + m + 1, n - 1);
      }
    }
  }

  /** The leftmost match of `n` groups at or after `i`: its start and end. */
  function LeftmostFrom(s: string, n: nat, i: nat): (r: Option<(nat, nat)>)
    requires i <= |s| && n >= 1
    ensures r.Some? ==> i <= r.value.0 <= |s| && GroupsEnd(s, r.value.0, n) == Some(r.value.1)
    ensures r.Some? ==> forall k :: i <= k < r.value.0 ==> GroupsEnd(s, k, n).None?
    ensures r.None? ==> forall k :: i <= k <= |s| ==> GroupsEnd(s, k, n).None?
    decreases |s| - i
  {
    var e := GroupsEnd(s, i, n);
    if e.Some? then Some((i, e.value))
    else if i == |s| then None
    else LeftmostFrom(s, n, i + 1)
  }

  /** `exec` with `\d+(\.\d+){n-1}`: the match found is `n` groups that no
      digit follows, and no `n` groups start anywhere before it; when none is
      found, no `n` groups occur in `s` at all. */
  lemma {:induction false} LeftmostIsFirstMatch(s: string, n: nat)
    requires n >= 1
    ensures LeftmostFrom(s, n, 0).Some? ==>
              var (a, b) := LeftmostFrom(s, n, 0).value;
              Groups(s[a..b], n) && (b == |s| || !IsDigit(s[b])) &&
              forall k, e :: 0 <= k < a && k < e <= |s| ==> !Groups(s[k..e], n)
    ensures LeftmostFrom(s, n, 0).None? ==> forall k, e :: 0 <= k < e <= |s| ==> !Groups(s[k..e], n)
  {
    var r := LeftmostFrom(s, n, 0);
    var stop := if r.Some? then r.value.0 else |s|;
    forall k, e | 0 <= k < stop && k < e <= |s|
      ensures !Groups(s[k..e], n)
    {
      GroupsEndFinds(s, k, n);
    }
    if r.Some? {
      GroupsEndSound(s, r.value.0, n);
    }
  }

  /** The text of the leftmost match of `\d+(\.\d+){n-1}`, if any. */
  function Leftmost(s: string, n: nat): (m: Option<string>)
    requires n >= 1
    ensures m.Some? ==> Groups(m.value, n)
  {
    var r := LeftmostFrom(s, n, 0);
    if r.Some? then
      GroupsEndSound(s, r.value.0, n);
      Some(s[r.value.0..r.value.1])
    else None
  }

  /** Appending ".0" to `n` groups gives `n + 1` groups. */
  lemma {:induction false} AppendGroup(v: string, n: nat)
    requires Groups(v, n)
    ensures Groups(v + ".0", n + 1)
    decreases n
  {
    var w := v + ".0";
    if n <= 1 {
      assert w[|v|] == '.' && w[..|v|] == v && w[|v| + 1..] == "0";
      assert SplitAt(w, |v|, n + 1);
    } else {
      var k :| 0 < k < |v| && SplitAt(v, k, n);
      AppendGroup(v[k + 1..], n - 1);
      assert w[k] == '.' && w[..k] == v[..k] && w[k + 1..] == v[k + 1..] + ".0";
      assert SplitAt(w, k, n + 1);
    }
  }

  lemma {:induction false} FallbackGroups()
    ensures Groups(FallbackVersion, 4)
  {
    var v := FallbackVersion;
    assert DigitRun(v, 11) == 13;
    assert DigitRun(v, 6) == 10;
    assert DigitRun(v, 4) == 5;
    assert DigitRun(v, 0) == 3;
    GroupsEndSound(v, 0, 4);
    assert v[0..13] == v;
  }

  /** `extractChromeVersion(browserVersion)`: the leftmost four-group version,
      else the leftmost three-group version with ".0" appended, else the
      fallback; a missing version reads as "". */
  function ExtractChromeVersion(browserVersion: string): (v: string)
    ensures Groups(v, 4)
  {
    var m4 := Leftmost(browserVersion, 4);
    if m4.Some? then m4.value
    else
      var m3 := Leftmost(browserVersion, 3);
      if m3.Some? then
        AppendGroup(m3.value, 3);
        m3.value + ".0"
      else
        FallbackGroups();
        FallbackVersion
  }

  /** Groups are made of digits and dots only. */
  lemma {:induction false} GroupsChars(v: string, n: nat)
    requires Groups(v, n)
    ensures forall k :: 0 <= k < |v| ==> IsDigit(v[k]) || v[k] == '.'
    decreases n
  {
    if n > 1 {
      var m :| 0 < m < |v| && SplitAt(v, m, n);
      GroupsChars(v[m + 1..], n - 1);
      forall k | 0 <= k < |v|
        ensures IsDigit(v[k]) || v[k] == '.'
      {
        if k < m {
          assert v[k] == v[..m][k];
        } else if k > m {
          assert v[k] == v[m + 1..][k - m - 1];
        }
      }
    }
  }

  /** The version is digits and dots, so substituting it can never bring
      "HeadlessChrome" (or any letter) into the user agent. */
  lemma {:induction false} VersionChars(browserVersion: string)
    ensures forall k :: 0 <= k < |ExtractChromeVersion(browserVersion)| ==>
              IsDigit(ExtractChromeVersion(browserVersion)[k]) || ExtractChromeVersion(browserVersion)[k] == '.'
  {
    GroupsChars(ExtractChromeVersion(browserVersion), 4);
  }

  /** A version that already has four groups is kept as it is. */
  lemma {:induction false} ExtractIdempotent(v: string)
    requires Groups(v, 4)
    ensures ExtractChromeVersion(v) == v
  {
    assert v[0..|v|] == v;
    GroupsEndComplete(v, 0, |v|, 4);
  }

  lemma {:induction false} ExtractTwice(s: string)
    ensures ExtractChromeVersion(ExtractChromeVersion(s)) == ExtractChromeVersion(s)
  {
    ExtractIdempotent(ExtractChromeVersion(s));
  }

  lemma {:induction false} ExtractEmpty()
    ensures ExtractChromeVersion("") == FallbackVersion
  {
  }

  /** Three groups get ".0" appended. */
  lemma {:induction false} ExtractThreeGroups()
    ensures ExtractChromeVersion("1.2.3") == "1.2.3.0"
  {
    assert GroupsEnd("1.2.3", 4, 1) == Some(5);
    assert LeftmostFrom("1.2.3", 3, 0) == Some((0, 5));
    assert Leftmost("1.2.3", 4).None? by {
      assert GroupsEnd("1.2.3", 0, 4).None?;
    }
  }

  /** Four groups match from the first digit and end before the fifth. */
  lemma {:induction false} LeftmostGroups()
    ensures LeftmostFrom("v1.2.3.4.5", 4, 0) == Some((1, 8))
  {
    var s := "v1.2.3.4.5";
    assert GroupsEnd(s, 7, 1) == Some(8);
    assert GroupsEnd(s, 5, 2) == Some(8);
    assert GroupsEnd(s, 3, 3) == Some(8);
    assert GroupsEnd(s, 1, 4) == Some(8);
    assert LeftmostFrom(s, 4, 1) == Some((1, 8));
    assert GroupsEnd(s, 0, 4).None?;
  }

  /** The match starts at the first digit and stops after four groups. */
  lemma {:induction false} ExtractLeftmost()
    ensures ExtractChromeVersion("v1.2.3.4.5") == "1.2.3.4"
  {
    var s := "v1.2.3.4.5";
    LeftmostGroups();
    assert s[1..8] == "1.2.3.4";
  }

  /** `pat` occurs in `s` at `k`. */
  predicate OccursAt(s: string, pat: string, k: nat) {
    k + |pat| <= |s| && s[k..k + |pat|] == pat
  }

  /** The index of the first occurrence of `pat` in `s` at or after `i`. */
  function IndexOf(s: string, pat: string, i: nat): (r: Option<nat>)
    requires i <= |s|
    ensures r.Some? ==> i <= r.value && OccursAt(s, pat, r.value)
    ensures r.Some? ==> forall k :: i <= k < r.value ==> !OccursAt(s, pat, k)
    ensures r.None? ==> forall k :: i <= k ==> !OccursAt(s, pat, k)
    decreases |s| - i
  {
    if OccursAt(s, pat, i) then Some(i)
    else if i + |pat| >= |s| then None
    else IndexOf(s, pat, i + 1)
  }

  /** An occurrence with none before it is the one `IndexOf` finds. */
  lemma {:induction false} IndexOfFirst(s: string, pat: string, i: nat)
    requires OccursAt(s, pat, i)
    requires forall k :: 0 <= k < i ==> !OccursAt(s, pat, k)
    ensures IndexOf(s, pat, 0) == Some(i)
  {
  }

  /** `s.replace(pat, rep)` with a string pattern: only the first occurrence
      is replaced. (`rep` is taken literally; a version never contains `$`.) */
  function ReplaceFirst(s: string, pat: string, rep: string): (r: string)
    ensures IndexOf(s, pat, 0).None? ==> r == s
    ensures IndexOf(s, pat, 0).Some? ==>
              var i := IndexOf(s, pat, 0).value;
              r == s[..i] + rep + s[i + |pat|..]
  {
    var i := IndexOf(s, pat, 0);
    if i.None? then s else s[..i.value] + rep + s[i.value + |pat|..]
  }

  lemma {:induction false} NoBraceInWebKit()
    ensures '{' !in ") AppleWebKit/537.36 "
  {
  }

  lemma {:induction false} NoBraceInGecko()
    ensures '{' !in "(KHTML, like Gecko) Chrome/"
  {
  }

  lemma {:induction false} NoBraceInTail()
    ensures '{' !in CommonTail
  {
    NoBraceInWebKit();
    NoBraceInGecko();
    assert CommonTail == ") AppleWebKit/537.36 " + "(KHTML, like Gecko) Chrome/";
  }

  /** No head holds a `{`, so the placeholder is found right after the head. */
  lemma {:induction false} HeadHasNoBrace(k: nat)
    requires k < 3
    ensures '{' !in Head(k)
  {
    NoBraceInTail();
    assert '{' !in Mozilla;
    assert '{' !in Platforms[k];
  }

  /** A template whose head holds no `{` has its placeholder replaced right
      after the head, and the rest kept. */
  lemma {:induction false} ReplaceAfterHead(head: string, tail: string, version: string)
    requires '{' !in head
    ensures ReplaceFirst(head + Placeholder + tail, Placeholder, version) == head + version + tail
  {
    var s := head + Placeholder + tail;
    var h := |head|;
    assert s[h..h + |Placeholder|] == Placeholder;
    forall m | 0 <= m < h
      ensures !OccursAt(s, Placeholder, m)
    {
      assert s[m] == head[m];
      assert head[m] in head;
      if m + |Placeholder| <= |s| {
        assert s[m..m + |Placeholder|][0] == s[m];
      }
    }
    IndexOfFirst(s, Placeholder, h);
    assert s[..h] == head;
    assert s[h + |Placeholder|..] == tail;
  }

  /** The user agent is the head, the version and the Safari tail: the
      placeholder is replaced once and nothing else changes. */
  lemma {:induction false} SubstitutedShape(k: nat, version: string)
    requires k < 3
    ensures ReplaceFirst(Templates[k], Placeholder, version) == Head(k) + version + SafariTail
  {
    HeadHasNoBrace(k);
    assert Templates[k] == Head(k) + Placeholder + SafariTail;
    ReplaceAfterHead(Head(k), SafariTail, version);
  }

  /** The user agent for template `k` and the browser's version string. */
  function UserAgentFor(k: nat, browserVersion: string): string
    requires k < 3
  {
    ReplaceFirst(Templates[k], Placeholder, ExtractChromeVersion(browserVersion))
  }

  const Headless := "HeadlessChrome"

  predicate IsLetter(c: char) {
    ('A' <= c <= 'Z') || ('a' <= c <= 'z')
  }

  lemma {:induction false} HeadlessLetters()
    ensures forall c :: c in Headless ==> IsLetter(c)
  {
  }

  lemma {:induction false} NoUpperHBeforeTail(k: nat)
    requires k < 3
    ensures 'H' !in Mozilla + Platforms[k]
  {
    assert 'H' !in Mozilla;
    assert 'H' !in Platforms[k];
  }

  lemma {:induction false} NoDInWebKit()
    ensures 'd' !in ") AppleWebKit/537.36 "
  {
  }

  lemma {:induction false} NoDInGecko()
    ensures 'd' !in "(KHTML, like Gecko) Chrome/"
  {
  }

  lemma {:induction false} NoDInTail()
    ensures 'd' !in CommonTail
  {
    NoDInWebKit();
    NoDInGecko();
    assert CommonTail == ") AppleWebKit/537.36 " + "(KHTML, like Gecko) Chrome/";
  }

  /** "HeadlessChrome" cannot start in text without `H`, nor be followed three
      characters on by text without `d`. */
  lemma {:induction false} HeadlessNotAcross(a: string, b: string, p: nat)
    requires 'H' !in a && 'd' !in b
    ensures !OccursAt(a + b, Headless, p)
  {
    var s := a + b;
    if p + |Headless| <= |s| {
      assert s[p..p + |Headless|][0] == s[p];
      assert s[p..p + |Headless|][3] == s[p + 3];
      if p < |a| {
        assert s[p] == a[p];
      } else {
        assert s[p + 3] == b[p + 3 - |a|];
      }
    }
  }

  /** No head contains "HeadlessChrome": the only `H` of a head is in
      "KHTML", past which there is no `d` to match the fourth letter. */
  lemma {:induction false} HeadlessNotInHead(k: nat, p: nat)
    requires k < 3
    ensures !OccursAt(Head(k), Headless, p)
  {
    NoUpperHBeforeTail(k);
    NoDInTail();
    HeadlessNotAcross(Mozilla + Platforms[k], CommonTail, p);
  }

  /** Substituting a version of digits and dots into a template never makes
      "HeadlessChrome" appear: the word would have to lie in the head, in the
      Safari tail (which has no `H`), or cover a digit or a dot. */
  lemma {:induction false} NotHeadless(k: nat, v: string)
    requires k < 3 && |v| > 0
    requires forall i :: 0 <= i < |v| ==> IsDigit(v[i]) || v[i] == '.'
    ensures forall p :: !OccursAt(Head(k) + v + SafariTail, Headless, p)
  {
    var u := Head(k) + v + SafariTail;
    var h := |Head(k)|;
    forall p: nat
      ensures !OccursAt(u, Headless, p)
    {
      if p + |Headless| <= |u| {
        var w := u[p..p + |Headless|];
        if p + |Headless| <= h {
          HeadlessNotInHead(k, p);
          assert w == Head(k)[p..p + |Headless|];
        } else if p >= h + |v| {
          assert 'H' !in SafariTail;
          assert w[0] == SafariTail[p - h - |v|];
        } else {
          var q := if p < h then h else p;
          assert u[q] == v[q - h];
          assert w[q - p] == u[q];
          HeadlessLetters();
          assert Headless[q - p] in Headless;
        }
      }
    }
  }

  /** The user agent never claims to be headless, whatever version the
      browser reports. */
  lemma {:induction false} UserAgentNotHeadless(k: nat, browserVersion: string)
    requires k < 3
    ensures forall p :: !OccursAt(UserAgentFor(k, browserVersion), Headless, p)
  {
    var v := ExtractChromeVersion(browserVersion);
    VersionChars(browserVersion);
    SubstitutedShape(k, v);
    NotHeadless(k, v);
  }

  /** The template `pickUserAgentTemplate` selects from counter `t`: uniform
      without weights, by weight otherwise; `None` when the weights do not sum
      to a positive total, where the source throws. */
  function TemplateIndex(t: Uint32, weights: Option<Geo.OsWeights>): (i: Option<nat>)
    ensures i.Some? ==> i.value < 3
  {
    if weights.None? then Some(PickIndex(t, 3))
    else
      var items := WeightedTemplates(weights.value);
      if Total(items) > 0.0 then Some(WeightedIndex(items, Unit(Draw(t)) * Total(items)))
      else None
  }

  /** `pickUserAgentTemplate(rng, geoProfile)`. */
  method PickUserAgentTemplate(rng: Rng, weights: Option<Geo.OsWeights>) returns (r: Result<string>)
    modifies rng
    ensures TemplateIndex(old(rng.t), weights).None? ==> r.Err? && rng.t == old(rng.t)
    ensures TemplateIndex(old(rng.t), weights).Some? ==>
              r == Ok(Templates[TemplateIndex(old(rng.t), weights).value]) && rng.t == Step(old(rng.t))
  {
    if weights.None? {
      r := rng.Pick(Templates);
      return;
    }
    var items := WeightedTemplates(weights.value);
    r := PickWeighted(rng, items);
    if r.Ok? {
      TemplateItems(weights.value);
    }
  }

  /** The weighted items, in the order windows, mac, linux. */
  function WeightedTemplates(w: Geo.OsWeights): (items: seq<Item<string>>)
    ensures |items| == 3
  {
    [Item(Templates[0], w.windows), Item(Templates[1], w.mac), Item(Templates[2], w.linux)]
  }

  lemma {:induction false} TemplateItems(w: Geo.OsWeights)
    ensures forall i :: 0 <= i < 3 ==> WeightedTemplates(w)[i].value == Templates[i]
  {
  }

  /** Every country's weights sum to one, so the weighted pick never throws. */
  lemma {:induction false} CountryWeightsSumToOne(country: Option<string>, t: Uint32)
    ensures Total(WeightedTemplates(Geo.OsWeightsFor(country))) == 1.0
    ensures TemplateIndex(t, Some(Geo.OsWeightsFor(country))).Some?
  {
    var w := Geo.OsWeightsFor(country);
    var items := WeightedTemplates(w);
    assert Prefix(items, 1) == w.windows;
    assert Prefix(items, 2) == w.windows + w.mac;
  }
}
