/** The geo profile: locale, Accept-Language, timezone and operating-system
    weights derived from an ipinfo record, drawing from the generator only
    where the tables have no answer. The generator is threaded as its counter:
    each function returns the counter after its draws. */
module Geo {
  import opened Maybe
  import opened Seed
  import opened Mulberry
  import opened Timezone
  import IpInfo

  datatype LocaleInfo = LocaleInfo(locale: string, acceptLanguage: string)

  datatype Profile = Profile(locale: string, timezoneId: string, acceptLanguage: string)

  /** Relative weights of the three user-agent templates. */
  datatype OsWeights = OsWeights(windows: real, mac: real, linux: real)

  datatype GeoProfile = GeoProfile(
    source: string,
    country: Option<string>,
    region: Option<string>,
    city: Option<string>,
    timezoneId: string,
    locale: string,
    acceptLanguage: string,
    osWeights: Option<OsWeights>)

  const DefaultProfiles: seq<Profile> := [
    Profile("en-US", "America/New_York", "en-US,en;q=0.9"),
    Profile("en-US", "America/Los_Angeles", "en-US,en;q=0.9"),
    Profile("en-GB", "Europe/London", "en-GB,en;q=0.9"),
    Profile("zh-CN", "Asia/Shanghai", "zh-CN,zh;q=0.9,en;q=0.8"),
    Profile("ja-JP", "Asia/Tokyo", "ja-JP,ja;q=0.9,en;q=0.8")
  ]

  /** `ipinfoCountryToLocale` on an upper-cased country code. */
  function CountryLocale(cc: string): Option<LocaleInfo> {
    match cc
    case "US" => Some(LocaleInfo("en-US", "en-US,en;q=0.9"))
    case "GB" => Some(LocaleInfo("en-GB", "en-GB,en;q=0.9"))
    case "CA" => Some(LocaleInfo("en-CA", "en-CA,en;q=0.9,fr-CA;q=0.7"))
    case "AU" => Some(LocaleInfo("en-AU", "en-AU,en;q=0.9"))
    case "NZ" => Some(LocaleInfo("en-NZ", "en-NZ,en;q=0.9"))
    case "IE" => Some(LocaleInfo("en-IE", "en-IE,en;q=0.9"))
    case "DE" => Some(LocaleInfo("de-DE", "de-DE,de;q=0.9,en;q=0.7"))
    case "FR" => Some(LocaleInfo("fr-FR", "fr-FR,fr;q=0.9,en;q=0.7"))
    case "ES" => Some(LocaleInfo("es-ES", "es-ES,es;q=0.9,en;q=0.7"))
    case "IT" => Some(LocaleInfo("it-IT", "it-IT,it;q=0.9,en;q=0.7"))
    case "BR" => Some(LocaleInfo("pt-BR", "pt-BR,pt;q=0.9,en;q=0.7"))
    case "MX" => Some(LocaleInfo("es-MX", "es-MX,es;q=0.9,en;q=0.7"))
    case "CN" => Some(LocaleInfo("zh-CN", "zh-CN,zh;q=0.9,en;q=0.8"))
    case "TW" => Some(LocaleInfo("zh-TW", "zh-TW,zh;q=0.9,en;q=0.8"))
    case "HK" => Some(LocaleInfo("zh-HK", "zh-HK,zh;q=0.9,en;q=0.8"))
    case "JP" => Some(LocaleInfo("ja-JP", "ja-JP,ja;q=0.9,en;q=0.8"))
    case "KR" => Some(LocaleInfo("ko-KR", "ko-KR,ko;q=0.9,en;q=0.7"))
    case "IN" => Some(LocaleInfo("en-IN", "en-IN,en;q=0.9,hi;q=0.6"))
    case _ => None
  }

  /** The first default profile with locale `l` (`Array.prototype.find`). */
  function FindProfile(l: string, ps: seq<Profile>): (r: Option<Profile>)
    ensures r.Some? ==> r.value in ps && r.value.locale == l
    ensures r.None? ==> forall p :: p in ps ==> p.locale != l
  {
    if |ps| == 0 then None
    else if ps[0].locale == l then Some(ps[0])
    else FindProfile(l, ps[1..])
  }

  /** `defaultTimezoneForLocale`. */
  function DefaultTimezone(l: string): Option<string> {
    var p := FindProfile(l, DefaultProfiles);
    if p.Some? then Some(p.value.timezoneId) else None
  }

  /** `defaultAcceptLanguageForLocale`. */
  function DefaultAcceptLanguage(l: string): Option<string> {
    var p := FindProfile(l, DefaultProfiles);
    if p.Some? then Some(p.value.acceptLanguage) else None
  }

  /** ASCII upper case (JavaScript's `toUpperCase` on ASCII letters). */
  function UpperChar(c: char): char {
    if 'a' <= c <= 'z' then (c as int - 32) as char else c
  }

  function Upper(s: string): (r: string)
    ensures |r| == |s| && forall i :: 0 <= i < |s| ==> r[i] == UpperChar(s[i])
  {
    if |s| == 0 then [] else [UpperChar(s[0])] + Upper(s[1..])
  }

  /** `s[i..]` starts with `w`, ignoring ASCII case (a regular expression with the `i` flag). */
  predicate MatchesAt(s: string, i: nat, w: string)
    requires i <= |s|
  {
    i + |w| <= |s| && forall j :: 0 <= j < |w| ==> UpperChar(s[i + j]) == UpperChar(w[j])
  }

  /** `/(w)/i.test(s)`: `w` occurs somewhere in `s`, ignoring case. */
  predicate ContainsIgnoringCase(s: string, w: string) {
    exists i :: 0 <= i <= |s| && MatchesAt(s, i, w)
  }

  /** The search `ContainsIgnoringCase` specifies, left to right from `i`. */
  function FindFrom(s: string, w: string, i: nat): (found: bool)
    requires i <= |s|
    ensures found <==> exists k :: i <= k <= |s| && MatchesAt(s, k, w)
    decreases |s| - i
  {
    if MatchesAt(s, i, w) then true
    else if i == |s| then false
    else FindFrom(s, w, i + 1)
  }

  /** `/(a|b|...)/i.test(s)`. */
  function MatchesAny(s: string, ws: seq<string>): (b: bool)
    ensures b <==> exists w :: w in ws && ContainsIgnoringCase(s, w)
  {
    if |ws| == 0 then false
    else
      assert forall w :: w in ws <==> w == ws[0] || w in ws[1..];
      var here := FindFrom(s, ws[0], 0);
      assert here <==> ContainsIgnoringCase(s, ws[0]);
      here || MatchesAny(s, ws[1..])
  }

  const WestStates := ["California", "Washington", "Oregon", "Nevada"]
  const EastStates := ["New York", "Massachusetts", "Virginia", "Maryland", "New Jersey",
                       "Pennsylvania", "Florida"]
  const CentralStates := ["Texas", "Illinois", "Minnesota", "Wisconsin", "Tennessee"]
  const MountainStates := ["Colorado", "Utah", "Arizona", "New Mexico"]

  /** The US region patterns, tried in order. */
  function UsRegionTimezone(r: string): Option<string> {
    if MatchesAny(r, WestStates) then Some("America/Los_Angeles")
    else if MatchesAny(r, EastStates) then Some("America/New_York")
    else if MatchesAny(r, CentralStates) then Some("America/Chicago")
    else if MatchesAny(r, MountainStates) then Some("America/Denver")
    else None
  }

  /** The countries outside North America with a fixed timezone. */
  function CountryTimezone(cc: string): Option<string> {
    match cc
    case "GB" => Some("Europe/London")
    case "DE" => Some("Europe/Berlin")
    case "FR" => Some("Europe/Paris")
    case "ES" => Some("Europe/Madrid")
    case "IT" => Some("Europe/Rome")
    case "BR" => Some("America/Sao_Paulo")
    case "MX" => Some("America/Mexico_City")
    case "CN" => Some("Asia/Shanghai")
    case "TW" => Some("Asia/Taipei")
    case "HK" => Some("Asia/Hong_Kong")
    case "JP" => Some("Asia/Tokyo")
    case "KR" => Some("Asia/Seoul")
    case "IN" => Some("Asia/Kolkata")
    case _ => None
  }

  /** `fallbackTimezoneForIpInfo` from counter `t`: only a US region that matches
      no pattern draws, with a 55% chance of New York. */
  function FallbackTimezone(cc: string, region: string, t: Uint32): (out: (Option<string>, Uint32))
    ensures out.1 == (if cc == "US" && UsRegionTimezone(region).None? then Step(t) else t)
    ensures cc == "US" ==> out.0.Some?
    ensures out.0.Some? ==> cc == "US" || cc == "CA" || CountryTimezone(cc).Some?
  {
    if cc == "US" then
      var z := UsRegionTimezone(region);
      if z.Some? then (z, t)
      else (Some(if BoolDraw(t, 0.55) then "America/New_York" else "America/Los_Angeles"), Step(t))
    else if cc == "CA" then
      (Some(if MatchesAny(region, ["British Columbia"]) then "America/Vancouver" else "America/Toronto"), t)
    else (CountryTimezone(cc), t)
  }

  /** The operating-system weights for a country (the `osWeightsByCountry` switch). */
  function OsWeightsFor(country: Option<string>): OsWeights {
    match country.GetOr("")
    case "CN" => OsWeights(0.86, 0.09, 0.05)
    case "JP" => OsWeights(0.7, 0.25, 0.05)
    case "KR" => OsWeights(0.75, 0.2, 0.05)
    case "US" => OsWeights(0.65, 0.25, 0.1)
    case "GB" => OsWeights(0.6, 0.3, 0.1)
    case "DE" => OsWeights(0.6, 0.3, 0.1)
    case "FR" => OsWeights(0.6, 0.3, 0.1)
    case _ => OsWeights(0.7, 0.2, 0.1)
  }

  /** `String(v || "") || null`. */
  function NonEmpty(v: Option<string>): (r: Option<string>)
    ensures r.Some? <==> v.Some? && v.value != ""
    ensures r.Some? ==> r == v
  {
    if v.Some? && v.value != "" then v else None
  }

  /** The profile `rng.pick(DEFAULT_LOCALE_PROFILES)` yields from counter `t`. */
  function PickedProfile(t: Uint32): Profile {
    DefaultProfiles[PickIndex(t, |DefaultProfiles|)]
  }

  /** The locale and Accept-Language of an ipinfo record: the country table,
      else a picked default profile's locale. */
  function LocaleFor(country: Option<string>, t: Uint32): (out: (string, string, Uint32))
    ensures CountryLocale(country.GetOr("")).Some? ==> out.2 == t
    ensures CountryLocale(country.GetOr("")).None? ==> out.2 == Step(t)
  {
    var mapped := CountryLocale(country.GetOr(""));
    if mapped.Some? then (mapped.value.locale, mapped.value.acceptLanguage, t)
    else
      var locale := PickedProfile(t).locale;
      (locale, DefaultAcceptLanguage(locale).GetOr("en-US,en;q=0.9"), Step(t))
  }

  /** The timezone of an ipinfo record: the snapshot's own text when it passes
      the IANA test (untrimmed), else the country/region table, else the
      locale's default, else a picked default profile's. */
  function TimezoneFor(info: IpInfo.IpInfo, country: Option<string>, region: Option<string>,
                       locale: string, t: Uint32): (out: (string, Uint32))
    ensures IsValidIanaTimezone(info.timezone) ==> out == (info.timezone.GetOr(""), t)
  {
    if IsValidIanaTimezone(info.timezone) then (info.timezone.GetOr(""), t)
    else
      var (fb, t1) := FallbackTimezone(country.GetOr(""), region.GetOr(""), t);
      if fb.Some? then (fb.value, t1)
      else if DefaultTimezone(locale).Some? then (DefaultTimezone(locale).value, t1)
      else (PickedProfile(t1).timezoneId, Step(t1))
  }

  /** `deriveGeoProfile` from counter `t`. */
  function DeriveGeoProfile(t: Uint32, data: Option<IpInfo.IpInfo>): (out: (GeoProfile, Uint32))
    ensures data.None? <==> out.0.source == "default"
    ensures data.None? <==> out.0.osWeights.None?
  {
    if data.None? then
      var p := PickedProfile(t);
      (GeoProfile("default", None, None, None, p.timezoneId, p.locale, p.acceptLanguage, None), Step(t))
    else
      var info := data.value;
      var country := NonEmpty(Some(Upper(info.country.GetOr(""))));
      var region := NonEmpty(info.region);
      var city := NonEmpty(info.city);
      var (locale, acceptLanguage, t1) := LocaleFor(country, t);
      var (tz, t2) := TimezoneFor(info, country, region, locale, t1);
      (GeoProfile("ipinfo", country, region, city, tz, locale, acceptLanguage, Some(OsWeightsFor(country))), t2)
  }

  /** The number of draws `deriveGeoProfile` makes; it depends on the record only. */
  function GeoDraws(data: Option<IpInfo.IpInfo>): nat {
    if data.None? then 1
    else
      var info := data.value;
      var cc := Upper(info.country.GetOr(""));
      if CountryLocale(cc).None? then 1
      else if IsValidIanaTimezone(info.timezone) then 0
      else if cc == "US" then (if UsRegionTimezone(info.region.GetOr("")).None? then 1 else 0)
      else if cc == "AU" || cc == "NZ" || cc == "IE" then 1
      else 0
  }

  /** Every locale of a default profile has a default timezone and Accept-Language. */
  lemma {:induction false} DefaultLocalesResolve(t: Uint32)
    ensures DefaultTimezone(PickedProfile(t).locale).Some?
    ensures DefaultAcceptLanguage(PickedProfile(t).locale).Some?
  {
    var p := PickedProfile(t);
    assert p in DefaultProfiles;
    assert FindProfile(p.locale, DefaultProfiles).Some?;
  }

  /** Every country with a fixed timezone has a locale. */
  lemma {:induction false} TimezoneCountriesMapped(cc: string)
    requires cc == "US" || cc == "CA" || CountryTimezone(cc).Some?
    ensures CountryLocale(cc).Some?
  {
  }

  /** Of the mapped countries, only AU, NZ and IE have neither a timezone
      table entry nor a default profile for their locale. */
  lemma {:induction false} MappedTimezoneGap(cc: string)
    requires CountryLocale(cc).Some? && cc != "US" && cc != "CA" && CountryTimezone(cc).None?
    ensures cc == "AU" || cc == "NZ" || cc == "IE"
    ensures DefaultTimezone(CountryLocale(cc).value.locale).None?
  {
  }

  /** The counter after `deriveGeoProfile` is the counter after `GeoDraws(data)`
      draws: one for a missing record, at most one otherwise. */
  lemma {:induction false} DrawCount(t: Uint32, data: Option<IpInfo.IpInfo>)
    ensures DeriveGeoProfile(t, data).1 == Advance(t, GeoDraws(data))
    ensures data.None? ==> GeoDraws(data) == 1
    ensures GeoDraws(data) <= 1
  {
    OutputsSnoc(t, 0);
    if data.Some? {
      var info := data.value;
      var country := NonEmpty(Some(Upper(info.country.GetOr(""))));
      var cc := Upper(info.country.GetOr(""));
      assert country.GetOr("") == cc;
      var mapped := CountryLocale(cc);
      if mapped.None? {
        DefaultLocalesResolve(t);
        if cc == "US" || cc == "CA" || CountryTimezone(cc).Some? {
          TimezoneCountriesMapped(cc);
        }
      } else if !IsValidIanaTimezone(info.timezone) && cc != "US" && cc != "CA" && CountryTimezone(cc).None? {
        MappedTimezoneGap(cc);
      }
    }
  }

  /** The Accept-Language header leads with the locale. */
  predicate LeadsWith(locale: string, acceptLanguage: string) {
    locale + "," <= acceptLanguage
  }

  lemma {:induction false} CountryLocalesLeadEnglish(cc: string)
    requires cc == "US" || cc == "GB" || cc == "CA" || cc == "AU" || cc == "NZ" || cc == "IE"
    ensures LeadsWith(CountryLocale(cc).value.locale, CountryLocale(cc).value.acceptLanguage)
  {
    if cc == "US" {
      assert LeadsWith(CountryLocale("US").value.locale, CountryLocale("US").value.acceptLanguage);
    } else if cc == "GB" {
      assert LeadsWith(CountryLocale("GB").value.locale, CountryLocale("GB").value.acceptLanguage);
    } else if cc == "CA" {
      assert LeadsWith(CountryLocale("CA").value.locale, CountryLocale("CA").value.acceptLanguage);
    } else if cc == "AU" {
      assert LeadsWith(CountryLocale("AU").value.locale, CountryLocale("AU").value.acceptLanguage);
    } else if cc == "NZ" {
      assert LeadsWith(CountryLocale("NZ").value.locale, CountryLocale("NZ").value.acceptLanguage);
    } else {
      assert LeadsWith(CountryLocale("IE").value.locale, CountryLocale("IE").value.acceptLanguage);
    }
  }

  lemma {:induction false} CountryLocalesLeadEurope(cc: string)
    requires cc == "DE" || cc == "FR" || cc == "ES" || cc == "IT" || cc == "BR" || cc == "MX"
    ensures LeadsWith(CountryLocale(cc).value.locale, CountryLocale(cc).value.acceptLanguage)
  {
    if cc == "DE" {
      assert LeadsWith(CountryLocale("DE").value.locale, CountryLocale("DE").value.acceptLanguage);
    } else if cc == "FR" {
      assert LeadsWith(CountryLocale("FR").value.locale, CountryLocale("FR").value.acceptLanguage);
    } else if cc == "ES" {
      assert LeadsWith(CountryLocale("ES").value.locale, CountryLocale("ES").value.acceptLanguage);
    } else if cc == "IT" {
      assert LeadsWith(CountryLocale("IT").value.locale, CountryLocale("IT").value.acceptLanguage);
    } else if cc == "BR" {
      assert LeadsWith(CountryLocale("BR").value.locale, CountryLocale("BR").value.acceptLanguage);
    } else {
      assert LeadsWith(CountryLocale("MX").value.locale, CountryLocale("MX").value.acceptLanguage);
    }
  }

  lemma {:induction false} CountryLocalesLeadAsia(cc: string)
    requires cc == "CN" || cc == "TW" || cc == "HK" || cc == "JP" || cc == "KR" || cc == "IN"
    ensures LeadsWith(CountryLocale(cc).value.locale, CountryLocale(cc).value.acceptLanguage)
  {
    if cc == "CN" {
      assert LeadsWith(CountryLocale("CN").value.locale, CountryLocale("CN").value.acceptLanguage);
    } else if cc == "TW" {
      assert LeadsWith(CountryLocale("TW").value.locale, CountryLocale("TW").value.acceptLanguage);
    } else if cc == "HK" {
      assert LeadsWith(CountryLocale("HK").value.locale, CountryLocale("HK").value.acceptLanguage);
    } else if cc == "JP" {
      assert LeadsWith(CountryLocale("JP").value.locale, CountryLocale("JP").value.acceptLanguage);
    } else if cc == "KR" {
      assert LeadsWith(CountryLocale("KR").value.locale, CountryLocale("KR").value.acceptLanguage);
    } else {
      assert LeadsWith(CountryLocale("IN").value.locale, CountryLocale("IN").value.acceptLanguage);
    }
  }

  /** Every mapped country's Accept-Language header leads with its locale. */
  lemma {:induction false} CountryLocalesLead(cc: string)
    requires CountryLocale(cc).Some?
    ensures LeadsWith(CountryLocale(cc).value.locale, CountryLocale(cc).value.acceptLanguage)
  {
    if cc == "US" || cc == "GB" || cc == "CA" || cc == "AU" || cc == "NZ" || cc == "IE" {
      CountryLocalesLeadEnglish(cc);
    } else if cc == "DE" || cc == "FR" || cc == "ES" || cc == "IT" || cc == "BR" || cc == "MX" {
      CountryLocalesLeadEurope(cc);
    } else {
      CountryLocalesLeadAsia(cc);
    }
  }

  lemma {:induction false} DefaultProfilesLead(p: Profile)
    requires p in DefaultProfiles
    ensures LeadsWith(p.locale, p.acceptLanguage)
  {
  }

  /** Whatever the record and the draws, the Accept-Language header leads with
      the chosen locale; in particular the "en-US,en;q=0.9" last resort is
      never used for a locale it does not belong to. */
  lemma {:induction false} AcceptLanguageLeadsWithLocale(t: Uint32, data: Option<IpInfo.IpInfo>)
    ensures var g := DeriveGeoProfile(t, data).0; LeadsWith(g.locale, g.acceptLanguage)
  {
    if data.None? {
      DefaultProfilesLead(PickedProfile(t));
    } else {
      var cc := NonEmpty(Some(Upper(data.value.country.GetOr("")))).GetOr("");
      if CountryLocale(cc).Some? {
        CountryLocalesLead(cc);
      } else {
        UnmappedAcceptLanguage(t);
      }
    }
  }

  /** For an unmapped country the Accept-Language comes from the picked
      locale's first default profile, never from the last resort. */
  lemma {:induction false} UnmappedAcceptLanguage(t: Uint32)
    ensures var l := PickedProfile(t).locale;
            && DefaultAcceptLanguage(l).Some?
            && LeadsWith(l, DefaultAcceptLanguage(l).value)
  {
    var l := PickedProfile(t).locale;
    DefaultLocalesResolve(t);
    var p := FindProfile(l, DefaultProfiles).value;
    DefaultProfilesLead(p);
  }

  /** A missing record: one pick, a default profile, no country, region or city. */
  lemma {:induction false} DefaultBranch(t: Uint32)
    ensures var (g, t1) := DeriveGeoProfile(t, None);
            && t1 == Step(t)
            && Profile(g.locale, g.timezoneId, g.acceptLanguage) in DefaultProfiles
            && g.country.None? && g.region.None? && g.city.None?
  {
  }

  /** A record whose timezone passes the IANA test keeps it verbatim, untrimmed,
      and never draws for the timezone. */
  lemma {:induction false} SnapshotTimezoneWins(t: Uint32, info: IpInfo.IpInfo)
    requires IsValidIanaTimezone(info.timezone)
    ensures info.timezone.Some?
    ensures DeriveGeoProfile(t, Some(info)).0.timezoneId == info.timezone.value
  {
    ValidHasSlash(info.timezone);
  }

  /** {JP, any timezone}: Japanese locale and header, the JP weights, no draw;
      the timezone is the snapshot's when valid and Asia/Tokyo otherwise. */
  lemma {:induction false} JapanScenario(t: Uint32, info: IpInfo.IpInfo)
    requires info.country == Some("JP")
    ensures var (g, t1) := DeriveGeoProfile(t, Some(info));
            && g.source == "ipinfo" && g.country == Some("JP")
            && g.locale == "ja-JP" && g.acceptLanguage == "ja-JP,ja;q=0.9,en;q=0.8"
            && g.osWeights == Some(OsWeights(0.7, 0.25, 0.05))
            && t1 == t
            && g.timezoneId == (if IsValidIanaTimezone(info.timezone) then info.timezone.value else "Asia/Tokyo")
  {
    assert Upper("JP") == "JP";
    IpInfoBranch(t, info, "JP");
    ValidHasSlashIfValid(info.timezone);
  }

  /** An ipinfo record whose country reads `cc` once upper-cased. */
  lemma {:induction false} IpInfoBranch(t: Uint32, info: IpInfo.IpInfo, cc: string)
    requires Upper(info.country.GetOr("")) == cc && cc != ""
    ensures var (g, t1) := DeriveGeoProfile(t, Some(info));
            var (locale, acceptLanguage, t2) := LocaleFor(Some(cc), t);
            var (tz, t3) := TimezoneFor(info, Some(cc), NonEmpty(info.region), locale, t2);
            g == GeoProfile("ipinfo", Some(cc), NonEmpty(info.region), NonEmpty(info.city), tz, locale,
                            acceptLanguage, Some(OsWeightsFor(Some(cc)))) && t1 == t3
  {
  }

  lemma {:induction false} ValidHasSlashIfValid(tz: Option<string>)
    ensures IsValidIanaTimezone(tz) ==> tz.Some?
  {
    if IsValidIanaTimezone(tz) {
      ValidHasSlash(tz);
    }
  }

  /** Every timezone the fallback tables and the default profiles name. */
  const AmericanZones := ["America/New_York", "America/Los_Angeles", "America/Chicago",
                          "America/Denver", "America/Vancouver", "America/Toronto",
                          "America/Sao_Paulo", "America/Mexico_City"]
  const OtherZones := ["Europe/London", "Europe/Berlin", "Europe/Paris", "Europe/Madrid",
                       "Europe/Rome", "Asia/Shanghai", "Asia/Taipei", "Asia/Hong_Kong",
                       "Asia/Tokyo", "Asia/Seoul", "Asia/Kolkata"]

  lemma {:induction false} AmericanZonesAccepted(z: string)
    requires z in AmericanZones
    ensures Accepts(z, 0, Start)
  {
    assert Accepts(z, 8, AfterSlash);
  }

  lemma {:induction false} OtherZonesAccepted(z: string)
    requires z in OtherZones
    ensures Accepts(z, 0, Start)
  {
  }

  /** Every fixed timezone passes the IANA test. */
  lemma {:induction false} FixedZonesValid(z: string)
    requires z in AmericanZones + OtherZones
    ensures IsValidIanaTimezone(Some(z))
  {
    if z in AmericanZones {
      AmericanZonesAccepted(z);
    } else {
      OtherZonesAccepted(z);
    }
    AcceptedIsValid(z);
  }

  /** The country and region tables only ever name fixed timezones. */
  lemma {:induction false} FallbackZoneFixed(cc: string, region: string, t: Uint32)
    ensures FallbackTimezone(cc, region, t).0.Some? ==>
              FallbackTimezone(cc, region, t).0.value in AmericanZones + OtherZones
  {
  }

  /** So do the default profiles. */
  lemma {:induction false} DefaultZonesFixed(p: Profile)
    requires p in DefaultProfiles
    ensures p.timezoneId in AmericanZones + OtherZones
  {
  }

  /** Whichever way it is chosen, the timezone of an ipinfo record passes the
      IANA test. */
  lemma {:induction false} TimezoneForValid(info: IpInfo.IpInfo, country: Option<string>,
                                            region: Option<string>, locale: string, t: Uint32)
    ensures IsValidIanaTimezone(Some(TimezoneFor(info, country, region, locale, t).0))
  {
    if IsValidIanaTimezone(info.timezone) {
      ValidHasSlash(info.timezone);
    } else {
      var (fb, t1) := FallbackTimezone(country.GetOr(""), region.GetOr(""), t);
      FallbackZoneFixed(country.GetOr(""), region.GetOr(""), t);
      if fb.Some? {
        FixedZonesValid(fb.value);
      } else if DefaultTimezone(locale).Some? {
        DefaultZonesFixed(FindProfile(locale, DefaultProfiles).value);
        FixedZonesValid(DefaultTimezone(locale).value);
      } else {
        DefaultZonesFixed(PickedProfile(t1));
        FixedZonesValid(PickedProfile(t1).timezoneId);
      }
    }
  }

  /** Every derived profile carries a timezone that passes the IANA test. */
  lemma {:induction false} TimezoneAlwaysValid(t: Uint32, data: Option<IpInfo.IpInfo>)
    ensures IsValidIanaTimezone(Some(DeriveGeoProfile(t, data).0.timezoneId))
  {
    if data.None? {
      DefaultZonesFixed(PickedProfile(t));
      FixedZonesValid(PickedProfile(t).timezoneId);
    } else {
      var info := data.value;
      var country := NonEmpty(Some(Upper(info.country.GetOr(""))));
      var (locale, acceptLanguage, t1) := LocaleFor(country, t);
      TimezoneForValid(info, country, NonEmpty(info.region), locale, t1);
    }
  }

  /** Every text contains itself, whatever the case. */
  lemma {:induction false} ContainsItself(w: string)
    ensures ContainsIgnoringCase(w, w)
  {
    assert MatchesAt(w, 0, w);
  }

  /** {US, a region naming California} without a usable timezone: Los Angeles,
      decided by the region pattern before any draw. */
  lemma {:induction false} CaliforniaScenario(t: Uint32, info: IpInfo.IpInfo)
    requires info.country == Some("US") && info.region.Some?
    requires ContainsIgnoringCase(info.region.value, "California")
    requires !IsValidIanaTimezone(info.timezone)
    ensures var (g, t1) := DeriveGeoProfile(t, Some(info));
            g.timezoneId == "America/Los_Angeles" && g.locale == "en-US" && t1 == t
  {
    assert Upper("US") == "US";
    assert "California" in WestStates;
    assert info.region.value != "";
  }

  lemma {:induction false} CaliforniaExample(t: Uint32)
    ensures var info := IpInfo.IpInfo(None, None, Some("Los Angeles"), Some("California"),
                                      Some("US"), None, None, None, None);
            DeriveGeoProfile(t, Some(info)).0.timezoneId == "America/Los_Angeles"
  {
    ContainsItself("California");
    assert !IsValidIanaTimezone(None);
    CaliforniaScenario(t, IpInfo.IpInfo(None, None, Some("Los Angeles"), Some("California"),
                                        Some("US"), None, None, None, None));
  }

  /** {US, a region no pattern knows}: the 55/45 draw decides between New York
      and Los Angeles. */
  lemma {:induction false} UnknownUsRegion(t: Uint32, info: IpInfo.IpInfo)
    requires info.country == Some("US")
    requires UsRegionTimezone(info.region.GetOr("")).None?
    requires !IsValidIanaTimezone(info.timezone)
    ensures var (g, t1) := DeriveGeoProfile(t, Some(info));
            && t1 == Step(t)
            && g.timezoneId == (if BoolDraw(t, 0.55) then "America/New_York" else "America/Los_Angeles")
  {
    assert Upper("US") == "US";
    if info.region.Some? && info.region.value == "" {
      assert UsRegionTimezone("") == UsRegionTimezone(info.region.value);
    }
  }

  /** {AU, no usable timezone}: the locale is mapped but no table gives a
      timezone, so the last-resort pick decides it. */
  lemma {:induction false} AustraliaScenario(t: Uint32, info: IpInfo.IpInfo)
    requires info.country == Some("AU")
    requires !IsValidIanaTimezone(info.timezone)
    ensures var (g, t1) := DeriveGeoProfile(t, Some(info));
            && g.locale == "en-AU" && g.acceptLanguage == "en-AU,en;q=0.9"
            && g.timezoneId == PickedProfile(t).timezoneId
            && t1 == Step(t)
  {
    assert Upper("AU") == "AU";
    MappedTimezoneGap("AU");
  }

  /** An unmapped country whose picked default profile is en-US/Los Angeles
      still gets America/New_York: the timezone is looked up by locale, and
      the first en-US profile is New York's. */
  lemma {:induction false} PickedLosAngelesYieldsNewYork(t: Uint32, info: IpInfo.IpInfo)
    requires CountryLocale(Upper(info.country.GetOr(""))).None?
    requires !IsValidIanaTimezone(info.timezone)
    requires PickIndex(t, |DefaultProfiles|) == 1
    ensures var (g, t1) := DeriveGeoProfile(t, Some(info));
            && PickedProfile(t).timezoneId == "America/Los_Angeles"
            && g.locale == "en-US" && g.timezoneId == "America/New_York"
            && t1 == Step(t)
  {
    var cc := Upper(info.country.GetOr(""));
    assert NonEmpty(Some(cc)).GetOr("") == cc;
    if cc == "US" || cc == "CA" || CountryTimezone(cc).Some? {
      TimezoneCountriesMapped(cc);
    }
  }

  /** `fallbackTimezoneForIpInfo` on the generator object. */
  method FallbackTimezoneWith(rng: Rng, cc: string, region: string) returns (tz: Option<string>)
    modifies rng
    ensures (tz, rng.t) == FallbackTimezone(cc, region, old(rng.t))
  {
    if cc == "US" {
      tz := UsRegionTimezone(region);
      if tz.None? {
        var b := rng.Bool(0.55);
        tz := Some(if b then "America/New_York" else "America/Los_Angeles");
      }
    } else if cc == "CA" {
      tz := Some(if MatchesAny(region, ["British Columbia"]) then "America/Vancouver" else "America/Toronto");
    } else {
      tz := CountryTimezone(cc);
    }
  }

  /** `rng.pick(DEFAULT_LOCALE_PROFILES)`. */
  method PickProfile(rng: Rng) returns (p: Profile)
    modifies rng
    ensures p == PickedProfile(old(rng.t)) && rng.t == Step(old(rng.t))
  {
    var r := rng.Pick(DefaultProfiles);
    p := r.value;
  }

  /** `deriveGeoProfile({ rng, ipinfoData })`, drawing from the generator in the
      source's order: the locale pick, then the timezone's draws. */
  method DeriveGeo(rng: Rng, data: Option<IpInfo.IpInfo>) returns (g: GeoProfile)
    modifies rng
    ensures (g, rng.t) == DeriveGeoProfile(old(rng.t), data)
  {
    if data.None? {
      var fallback := PickProfile(rng);
      return GeoProfile("default", None, None, None, fallback.timezoneId, fallback.locale,
                        fallback.acceptLanguage, None);
    }
    var info := data.value;
    var country := NonEmpty(Some(Upper(info.country.GetOr(""))));
    var region := NonEmpty(info.region);
    var city := NonEmpty(info.city);
    var mapped := CountryLocale(country.GetOr(""));
    var locale, acceptLanguage;
    if mapped.Some? {
      locale, acceptLanguage := mapped.value.locale, mapped.value.acceptLanguage;
    } else {
      var fallback := PickProfile(rng);
      locale := fallback.locale;
      acceptLanguage := DefaultAcceptLanguage(locale).GetOr("en-US,en;q=0.9");
    }
    var timezoneId;
    if IsValidIanaTimezone(info.timezone) {
      timezoneId := info.timezone.GetOr("");
    } else {
      var fb := FallbackTimezoneWith(rng, country.GetOr(""), region.GetOr(""));
      if fb.Some? {
        timezoneId := fb.value;
      } else if DefaultTimezone(locale).Some? {
        timezoneId := DefaultTimezone(locale).value;
      } else {
        var last := PickProfile(rng);
        timezoneId := last.timezoneId;
      }
    }
    g := GeoProfile("ipinfo", country, region, city, timezoneId, locale, acceptLanguage,
                    Some(OsWeightsFor(country)));
  }
}
