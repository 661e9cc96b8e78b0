/** The browsing identity the renderer builds before opening a page: seed,
    generator, geo profile, viewport and user agent, drawn in this order
    from one generator. */
module Identity {
  import opened Maybe
  import opened Seed
  import opened Mulberry
  import opened Weighted
  import Geo
  import IpInfo
  import Cli
  import opened UserAgent

  /** `DEFAULT_VIEWPORT_POOL`. */
  const ViewportPool: seq<Cli.Viewport> := [
    Cli.Viewport(1366, 768),
    Cli.Viewport(1536, 864),
    Cli.Viewport(1440, 900),
    Cli.Viewport(1280, 800),
    Cli.Viewport(1920, 1080)
  ]

  datatype Identity = Identity(geo: Geo.GeoProfile, viewport: Cli.Viewport, userAgent: string)

  /** The geo profile carries its country's weights whenever it carries any. */
  lemma {:induction false} GeoWeightsFromCountry(t: Uint32, data: Option<IpInfo.IpInfo>)
    ensures var g := Geo.DeriveGeoProfile(t, data).0;
            g.osWeights.Some? ==> g.osWeights.value == Geo.OsWeightsFor(g.country)
  {
  }

  /** The template index drawn from counter `t` for the profile derived from
      counter `t0`; a derived profile's weights always have a positive total,
      so there is one. */
  function TemplateFor(t: Uint32, t0: Uint32, data: Option<IpInfo.IpInfo>): (k: nat)
    ensures k < 3
  {
    ProfileHasTemplate(t, t0, data);
    TemplateIndex(t, Geo.DeriveGeoProfile(t0, data).0.osWeights).value
  }

  /** `pickUserAgentTemplate` never throws for a derived profile. */
  lemma {:induction false} ProfileHasTemplate(t: Uint32, t0: Uint32, data: Option<IpInfo.IpInfo>)
    ensures TemplateIndex(t, Geo.DeriveGeoProfile(t0, data).0.osWeights).Some?
  {
    var g := Geo.DeriveGeoProfile(t0, data).0;
    GeoWeightsFromCountry(t0, data);
    if g.osWeights.Some? {
      CountryWeightsSumToOne(g.country, t);
    }
  }

  /** Whether an override from the command line is used: `value || …`. */
  predicate Given(s: Option<string>) {
    s.Some? && s.value != ""
  }

  /** The identity built from the 32-bit seed, the ipinfo record, the two
      command-line overrides and the browser's version string, with the
      generator's final counter. */
  function IdentityFor(seed32: Uint32, data: Option<IpInfo.IpInfo>, viewportOverride: Option<Cli.Viewport>,
                       uaOverride: Option<string>, browserVersion: string): (Identity, Uint32)
  {
    var t0 := if seed32 == 0 then 1 else seed32;
    var (geo, t1) := Geo.DeriveGeoProfile(t0, data);
    var (viewport, t2) :=
      if viewportOverride.Some? then (viewportOverride.value, t1)
      else (ViewportPool[PickIndex(t1, |ViewportPool|)], Step(t1));
    if Given(uaOverride) then (Identity(geo, viewport, uaOverride.value), t2)
    else (Identity(geo, viewport, UserAgentFor(TemplateFor(t2, t0, data), browserVersion)), Step(t2))
  }

  /** The identity steps of `main`, from parsed arguments. */
  method BuildIdentity(args: Cli.Args, toNumber: string -> Option<real>, random: Uint32,
                       browserVersion: string, data: Option<IpInfo.IpInfo>) returns (id: Identity, rng: Rng)
    ensures fresh(rng)
    ensures (id, rng.t) == IdentityFor(SeedToUint32(args.seed, toNumber, random), data, args.viewport,
                                       args.userAgent, browserVersion)
  {
    var seed32 := SeedToUint32(args.seed, toNumber, random);
    rng := new Rng(seed32);
    ghost var t0 := rng.t;
    var chromeVersion := ExtractChromeVersion(browserVersion);
    var geo := Geo.DeriveGeo(rng, data);
    var viewport: Cli.Viewport;
    if args.viewport.Some? {
      viewport := args.viewport.value;
    } else {
      var picked := rng.Pick(ViewportPool);
      viewport := picked.value;
    }
    var userAgent: string;
    if Given(args.userAgent) {
      userAgent := args.userAgent.value;
    } else {
      ProfileHasTemplate(rng.t, t0, data);
      var template := PickUserAgentTemplate(rng, geo.osWeights);
      userAgent := ReplaceFirst(template.value, Placeholder, chromeVersion);
    }
    id := Identity(geo, viewport, userAgent);
  }

  /** The number of draws: those of the geo profile, then one for each
      default the command line does not override. */
  function Draws(data: Option<IpInfo.IpInfo>, viewportOverride: Option<Cli.Viewport>, uaOverride: Option<string>): nat {
    Geo.GeoDraws(data) + (if viewportOverride.Some? then 0 else 1) + (if Given(uaOverride) then 0 else 1)
  }

  /** The generator's final counter is the seed's counter advanced by `Draws`. */
  lemma {:induction false} IdentityDraws(seed32: Uint32, data: Option<IpInfo.IpInfo>, viewportOverride: Option<Cli.Viewport>,
                      uaOverride: Option<string>, browserVersion: string)
    ensures var t0 := if seed32 == 0 then 1 else seed32;
            IdentityFor(seed32, data, viewportOverride, uaOverride, browserVersion).1 ==
              Advance(t0, Draws(data, viewportOverride, uaOverride))
  {
    var t0 := if seed32 == 0 then 1 else seed32;
    var g := Geo.GeoDraws(data);
    Geo.DrawCount(t0, data);
    OutputsSnoc(t0, g);
    OutputsSnoc(t0, g + 1);
  }

  /** A viewport override removes the viewport draw, so the user-agent
      template is drawn one step earlier than without it. */
  lemma {:induction false} ViewportOverrideShiftsUa(seed32: Uint32, data: Option<IpInfo.IpInfo>, viewportOverride: Option<Cli.Viewport>,
                                 browserVersion: string)
    ensures var t0 := if seed32 == 0 then 1 else seed32;
            var k := Geo.GeoDraws(data) + (if viewportOverride.Some? then 0 else 1);
            IdentityFor(seed32, data, viewportOverride, None, browserVersion).0.userAgent ==
              UserAgentFor(TemplateFor(Advance(t0, k), t0, data), browserVersion)
  {
    var t0 := if seed32 == 0 then 1 else seed32;
    Geo.DrawCount(t0, data);
    OutputsSnoc(t0, Geo.GeoDraws(data));
  }

  /** Unless the command line sets one, the user agent never claims to be
      headless. */
  lemma {:induction false} IdentityNotHeadless(seed32: Uint32, data: Option<IpInfo.IpInfo>, viewportOverride: Option<Cli.Viewport>,
                            uaOverride: Option<string>, browserVersion: string)
    requires !Given(uaOverride)
    ensures forall p :: !OccursAt(IdentityFor(seed32, data, viewportOverride, uaOverride, browserVersion).0.userAgent, Headless, p)
  {
    var t0 := if seed32 == 0 then 1 else seed32;
    var (geo, t1) := Geo.DeriveGeoProfile(t0, data);
    var t2' := if viewportOverride.Some? then t1 else Step(t1);
    UserAgentNotHeadless(TemplateFor(t2', t0, data), browserVersion);
  }

  /** The viewport is the override when there is one, else one of the pool. */
  lemma {:induction false} ViewportChoice(seed32: Uint32, data: Option<IpInfo.IpInfo>, viewportOverride: Option<Cli.Viewport>,
                       uaOverride: Option<string>, browserVersion: string)
    ensures var v := IdentityFor(seed32, data, viewportOverride, uaOverride, browserVersion).0.viewport;
            if viewportOverride.Some? then v == viewportOverride.value else v in ViewportPool
  {
  }
}
