/** The command line of the page renderer: `parseViewport` and `parseArgs`.
    A value read past the end of `argv` is JavaScript's `undefined`, written
    `None` here, as is a field left `null`. */
module Cli {
  import opened Maybe
  import opened Decimal

  datatype Viewport = Viewport(width: nat, height: nat)

  /** The index of the first `x` in `s` at or after `i`. */
  function FirstX(s: string, i: nat): (r: Option<nat>)
    requires i <= |s|
    ensures r.Some? ==> i <= r.value < |s| && s[r.value] == 'x'
    ensures r.Some? ==> forall k :: i <= k < r.value ==> s[k] != 'x'
    ensures r.None? ==> forall k :: i <= k < |s| ==> s[k] != 'x'
    decreases |s| - i
  {
    if i == |s| then None
    else if s[i] == 'x' then Some(i)
    else FirstX(s, i + 1)
  }

  /** `/^(\d+)x(\d+)$/` splits `s` at `i`. */
  ghost predicate DimsAt(s: string, i: nat) {
    && 0 < i < |s| - 1
    && s[i] == 'x'
    && AllDigits(s[..i])
    && AllDigits(s[i + 1..])
  }

  /** `parseViewport(s)`: digits, `x`, digits and nothing else, leading zeros
      allowed; a missing value is tested as "". */
  function ParseViewport(s: Option<string>): (r: Option<Viewport>)
  {
    var t := s.GetOr("");
    var i := FirstX(t, 0);
    if i.Some? && 0 < i.value < |t| - 1 && AllDigits(t[..i.value]) && AllDigits(t[i.value + 1..])
    then Some(Viewport(Value(t[..i.value]), Value(t[i.value + 1..])))
    else None
  }

  /** The pattern matches exactly the text split by an `x` into two runs of
      digits, and the viewport holds their values. */
  lemma {:induction false} ParseViewportExact(t: string, i: nat)
    requires DimsAt(t, i)
    ensures ParseViewport(Some(t)) == Some(Viewport(Value(t[..i]), Value(t[i + 1..])))
  {
    forall k | 0 <= k < i
      ensures t[k] != 'x'
    {
      assert t[..i][k] == t[k];
    }
  }

  lemma {:induction false} ParseViewportSound(t: string)
    requires ParseViewport(Some(t)).Some?
    ensures exists i :: DimsAt(t, i)
  {
    assert DimsAt(t, FirstX(t, 0).value);
  }

  /** Rendering a viewport and parsing it back gives the viewport. */
  lemma {:induction false} ViewportRoundTrip(w: nat, h: nat)
    ensures ParseViewport(Some(ToString(w) + "x" + ToString(h))) == Some(Viewport(w, h))
  {
    var a, b := ToString(w), ToString(h);
    var t := a + "x" + b;
    assert t[..|a|] == a;
    assert t[|a| + 1..] == b;
    ParseViewportExact(t, |a|);
    ValueOfToString(w);
    ValueOfToString(h);
  }

  lemma {:induction false} ValueExamples()
    ensures Value("0768") == 768
    ensures Value("01366") == 1366
  {
    assert "0768"[..3] == "076" && "076"[..2] == "07" && "07"[..1] == "0";
    assert "01366"[..4] == "0136" && "0136"[..3] == "013";
    assert "013"[..2] == "01" && "01"[..1] == "0";
  }

  /** Leading zeros are accepted and do not change the value. */
  lemma {:induction false} LeadingZerosAccepted()
    ensures ParseViewport(Some("01366x0768")) == Some(Viewport(1366, 768))
  {
    var t := "01366x0768";
    assert t[..5] == "01366" && t[6..] == "0768";
    ParseViewportExact(t, 5);
    ValueExamples();
  }

  lemma {:induction false} ViewportRejections()
    ensures ParseViewport(Some("1366x")) == None
    ensures ParseViewport(Some(" 1366x768")) == None
    ensures ParseViewport(None) == None
  {
    assert FirstX("1366x", 0) == Some(4);
    assert FirstX(" 1366x768", 0) == Some(5);
    assert " 1366x768"[..5][0] == ' ';
  }

  /** The options `parseArgs` fills in (`print` is `printMode` here); a
      `timeout` of `None` is a `Number` that is not finite, NaN included. */
  datatype Args = Args(
    url: Option<string>,
    outHtml: Option<string>,
    outText: Option<string>,
    outScreenshot: Option<string>,
    outMeta: Option<string>,
    channel: Option<string>,
    waitUntil: Option<string>,
    timeout: Option<real>,
    userAgent: Option<string>,
    viewport: Option<Viewport>,
    seed: Option<string>,
    ipinfo: Option<string>,
    printMode: Option<string>)

  const Defaults := Args(None, None, None, None, None, Some("chromium"), Some("networkidle"),
                         Some(60000.0), None, None, None, Some("on"), Some("none"))

  /** The options that take the next token as their value. */
  const Flags: seq<string> := ["--out-html", "--out-text", "--out-screenshot", "--out-meta",
                               "--channel", "--wait-until", "--timeout", "--user-agent",
                               "--seed", "--ipinfo", "--viewport", "--print"]

  const WaitUntilValues: seq<string> := ["domcontentloaded", "load", "networkidle"]
  const PrintValues: seq<string> := ["html", "text", "none"]
  const ChannelValues: seq<string> := ["chromium", "chrome", "msedge"]
  const IpInfoValues: seq<string> := ["on", "off"]

  predicate StartsWithDash(a: string) {
    |a| > 0 && a[0] == '-'
  }

  /** `argv[++i]` read from position `i`. */
  function ValueAfter(argv: seq<string>, i: nat): Option<string> {
    if i + 1 < |argv| then Some(argv[i + 1]) else None
  }

  /** One option applied to `out`; `None` where an invalid viewport makes the
      parser give up. */
  function ApplyFlag(out: Args, flag: string, v: Option<string>, toNumber: string -> Option<real>): Option<Args>
    requires flag in Flags
  {
    match flag
    case "--out-html" => Some(out.(outHtml := v))
    case "--out-text" => Some(out.(outText := v))
    case "--out-screenshot" => Some(out.(outScreenshot := v))
    case "--out-meta" => Some(out.(outMeta := v))
    case "--channel" => Some(out.(channel := v))
    case "--wait-until" => Some(out.(waitUntil := v))
    case "--timeout" => Some(out.(timeout := if v.Some? then toNumber(v.value) else None))
    case "--user-agent" => Some(out.(userAgent := v))
    case "--seed" => Some(out.(seed := v))
    case "--ipinfo" => Some(out.(ipinfo := v))
    case "--viewport" =>
      var vp := ParseViewport(v);
      if vp.None? then None else Some(out.(viewport := vp))
    case "--print" => Some(out.(printMode := v))
  }

  /** The token loop from position `i` with the options `out` and the
      positional arguments `positional` gathered so far. */
  function Scan(argv: seq<string>, toNumber: string -> Option<real>, i: nat, out: Args, positional: seq<string>):
    Option<(Args, seq<string>)>
    decreases |argv| - i
  {
    if i >= |argv| then Some((out, positional))
    else
      var a := argv[i];
      if a in Flags then
        var next := ApplyFlag(out, a, ValueAfter(argv, i), toNumber);
        if next.None? then None else Scan(argv, toNumber, i + 2, next.value, positional)
      else if StartsWithDash(a) then None
      else Scan(argv, toNumber, i + 1, out, positional + [a])
  }

  /** The checks after the loop: the first positional argument, if not empty,
      is the url, and every enumerated option holds one of its values. */
  function Finish(out: Args, positional: seq<string>): Option<Args> {
    if |positional| == 0 || positional[0] == "" then None
    else if !(out.waitUntil.Some? && out.waitUntil.value in WaitUntilValues) then None
    else if !(out.timeout.Some? && out.timeout.value > 0.0) then None
    else if !(out.printMode.Some? && out.printMode.value in PrintValues) then None
    else if !(out.channel.Some? && out.channel.value in ChannelValues) then None
    else if !(out.ipinfo.Some? && out.ipinfo.value in IpInfoValues) then None
    else Some(out.(url := Some(positional[0])))
  }

  /** What `parseArgs(argv)` returns; `None` is its `null`. */
  function Parsed(argv: seq<string>, toNumber: string -> Option<real>): Option<Args> {
    var s := Scan(argv, toNumber, 0, Defaults, []);
    if s.None? then None else Finish(s.value.0, s.value.1)
  }

  /** `parseArgs(argv)`, the loop that advances `i` and updates `out`. */
  method ParseArgs(argv: seq<string>, toNumber: string -> Option<real>) returns (r: Option<Args>)
    ensures r == Parsed(argv, toNumber)
  {
    var out := Defaults;
    var positional: seq<string> := [];
    var i := 0;
    while i < |argv|
      invariant Scan(argv, toNumber, i, out, positional) == Scan(argv, toNumber, 0, Defaults, [])
      decreases |argv| - i
    {
      var a := argv[i];
      if a in Flags {
        i := i + 1;
        var v := if i < |argv| then Some(argv[i]) else None;
        var next := ApplyFlag(out, a, v, toNumber);
        if next.None? {
          return None;
        }
        out := next.value;
      } else if StartsWithDash(a) {
        return None;
      } else {
        positional := positional + [a];
      }
      i := i + 1;
    }
    r := Finish(out, positional);
  }

  /** What the rest of the program relies on of an accepted command line. */
  predicate ValidArgs(a: Args) {
    && a.url.Some? && a.url.value != "" && !StartsWithDash(a.url.value)
    && a.waitUntil.Some? && a.waitUntil.value in WaitUntilValues
    && a.timeout.Some? && a.timeout.value > 0.0
    && a.printMode.Some? && a.printMode.value in PrintValues
    && a.channel.Some? && a.channel.value in ChannelValues
    && a.ipinfo.Some? && a.ipinfo.value in IpInfoValues
  }

  /** Positional arguments are tokens of `argv` that do not start with `-`. */
  lemma {:induction false} ScanPositionals(argv: seq<string>, toNumber: string -> Option<real>, i: nat, out: Args, positional: seq<string>)
    requires forall x :: x in positional ==> x in argv && !StartsWithDash(x)
    requires Scan(argv, toNumber, i, out, positional).Some?
    ensures forall x :: x in Scan(argv, toNumber, i, out, positional).value.1 ==> x in argv && !StartsWithDash(x)
    ensures positional <= Scan(argv, toNumber, i, out, positional).value.1
    decreases |argv| - i
  {
    if i < |argv| {
      var a := argv[i];
      if a in Flags {
        ScanPositionals(argv, toNumber, i + 2, ApplyFlag(out, a, ValueAfter(argv, i), toNumber).value, positional);
      } else {
        ScanPositionals(argv, toNumber, i + 1, out, positional + [a]);
      }
    }
  }

  /** An accepted command line is valid, and its url is a token of `argv`. */
  lemma {:induction false} ParsedIsValid(argv: seq<string>, toNumber: string -> Option<real>)
    requires Parsed(argv, toNumber).Some?
    ensures ValidArgs(Parsed(argv, toNumber).value)
    ensures Parsed(argv, toNumber).value.url.value in argv
  {
    var s := Scan(argv, toNumber, 0, Defaults, []).value;
    ScanPositionals(argv, toNumber, 0, Defaults, []);
    assert s.1[0] in s.1;
  }

  /** A single url gives the defaults with that url. */
  lemma {:induction false} UrlOnly(u: string, toNumber: string -> Option<real>)
    requires u != "" && !StartsWithDash(u)
    ensures Parsed([u], toNumber) == Some(Defaults.(url := Some(u)))
  {
    FlagsStartWithDash();
    assert u !in Flags;
    assert [] + [u] == [u];
    assert Scan([u], toNumber, 0, Defaults, []) == Scan([u], toNumber, 1, Defaults, [u]);
  }

  lemma {:induction false} FlagsStartWithDash()
    ensures forall f :: f in Flags ==> StartsWithDash(f)
  {
  }

  /** An unknown option rejects the command line, wherever it stands. */
  lemma {:induction false} UnknownOptionRejects(argv: seq<string>, toNumber: string -> Option<real>, i: nat, out: Args, positional: seq<string>, k: nat)
    requires i <= k < |argv| && argv[k] !in Flags && StartsWithDash(argv[k])
    requires forall j :: i <= j < k ==> argv[j] !in Flags
    ensures Scan(argv, toNumber, i, out, positional).None?
    decreases k - i
  {
    if i < k {
      var a := argv[i];
      if !StartsWithDash(a) {
        UnknownOptionRejects(argv, toNumber, i + 1, out, positional + [a], k);
      }
    }
  }

  lemma {:induction false} UnknownOptionExample(toNumber: string -> Option<real>)
    ensures Parsed(["https://example.com", "--verbose"], toNumber).None?
  {
    UnknownOptionRejects(["https://example.com", "--verbose"], toNumber, 0, Defaults, [], 1);
  }

  /** An option at the end of `argv` reads `undefined`: an output path is
      then simply absent, while an enumerated option fails its check. */
  lemma {:induction false} TrailingOption(toNumber: string -> Option<real>)
    ensures Parsed(["https://example.com", "--out-html"], toNumber) == Some(Defaults.(url := Some("https://example.com")))
    ensures Parsed(["https://example.com", "--channel"], toNumber).None?
    ensures Parsed(["https://example.com", "--timeout"], toNumber).None?
  {
  }

  /** An option takes the next token as its value even when it starts with `-`. */
  lemma {:induction false} DashValue(toNumber: string -> Option<real>)
    ensures Parsed(["--seed", "-1", "https://example.com"], toNumber) ==
            Some(Defaults.(url := Some("https://example.com"), seed := Some("-1")))
  {
  }

  lemma {:induction false} InvalidViewportRejects(toNumber: string -> Option<real>)
    ensures Parsed(["https://example.com", "--viewport", "800"], toNumber).None?
  {
    assert FirstX("800", 0).None?;
  }

  /** Only the first positional argument counts; an empty one leaves no url. */
  lemma {:induction false} EmptyFirstPositional(toNumber: string -> Option<real>)
    ensures Parsed(["", "https://example.com"], toNumber).None?
    ensures Parsed(["https://a.example", "https://b.example"], toNumber) == Some(Defaults.(url := Some("https://a.example")))
  {
  }

  /** A later option overrides an earlier one. */
  lemma {:induction false} LastOptionWins(toNumber: string -> Option<real>)
    ensures Parsed(["u", "--print", "html", "--print", "text"], toNumber) == Some(Defaults.(url := Some("u"), printMode := Some("text")))
  {
  }
}
