# Identity synthesis and Markdown rendering, in Dafny

This project models two scripts of the `miscellany` repository and proves
properties of the models.

**`render_url_playwright.mjs`** (headless web viewer). Before it opens a page,
the script synthesises a browser identity:

- a 32-bit seed, from `--seed` (a number, or text hashed with FNV-1a) or from
  random bytes;
- a Mulberry32-style generator seeded with it;
- a geo profile (locale, timezone, Accept-Language, operating-system weights),
  derived from an ipinfo.io snapshot that is cached on disk for ten minutes,
  or picked from a default list;
- a viewport, given or drawn from a pool;
- a desktop Chrome user agent, drawn by the geo weights, with the browser's
  own version substituted.

The command line is parsed first and rejected on any unknown option or
invalid value.

**`render_md_to_html.py`** (deep-dive report). The script renders a small
Markdown subset to HTML, line by line: fenced code (mermaid included),
headings with unique anchors, lists, block quotes and paragraphs. Inline
code spans and links are turned into tags. It also renders a table of
contents.

The model follows the scripts:
- Pure computations are functions, and the properties are lemmas about them.
- Each loop is a method proved equal to a function: the FNV-1a hash, the
  argument scan, the weighted pick, the anchor dedupe and the two loops of
  the table of contents.
- Each object updated in place is a class whose methods are proved against
  a function of the old state: the generator `Rng`, the memoised ipinfo
  service and the Markdown parser's loop state.

The random generator is a counter `t`. Every drawing operation is a function
of the counter, which advances by one `Step` per draw. So the lemmas can
count draws and replay a run.

## Model

`JS` is `agent/skills/headless-web-viewer/scripts/render_url_playwright.mjs`.
`PY` is `agent/skills/repo-deep-dive-report/scripts/render_md_to_html.py`.
The table gives full paths.

| member | source | states |
|---|---|---|
| Seed.CodeUnits | agent/skills/headless-web-viewer/scripts/render_url_playwright.mjs:41-42 | `charCodeAt` units: a BMP character is one unit equal to its code point, an astral one a high and a low surrogate |
| Seed.Utf16OfBmp | agent/skills/headless-web-viewer/scripts/render_url_playwright.mjs:41-42 | text without astral characters has one unit per character, each its code point |
| Seed.FnvSnoc | agent/skills/headless-web-viewer/scripts/render_url_playwright.mjs:41-44 | one more unit is one more xor-then-multiply round |
| Seed.Fnv1a32 | agent/skills/headless-web-viewer/scripts/render_url_playwright.mjs:38-46 | the loop returns the left fold of FNV-1a rounds over the string's UTF-16 units, from offset basis 0x811c9dc5 |
| Seed.Fnv1aVectors | agent/skills/headless-web-viewer/scripts/render_url_playwright.mjs:38-46 | the hash of "", "a" and "foobar" is the published 32-bit FNV-1a vector (0x811c9dc5, 0xe40c292c, 0xbf9cf968) |
| Seed.SeedToUint32 | agent/skills/headless-web-viewer/scripts/render_url_playwright.mjs:48-55 | a given seed never yields 0; an absent seed yields the random draw |
| Seed.NumericSeed | agent/skills/headless-web-viewer/scripts/render_url_playwright.mjs:52-53 | a finite numeric seed yields its truncation modulo 2^32, with 1 in place of 0 |
| Seed.SeedExamples | agent/skills/headless-web-viewer/scripts/render_url_playwright.mjs:52-53 | `-1` gives 4294967295; `4294967296` and the empty text (read as 0) give 1 |
| Seed.TextSeed | agent/skills/headless-web-viewer/scripts/render_url_playwright.mjs:54 | a non-numeric seed yields its FNV-1a hash, with 1 in place of 0 |
| Mulberry.DeferredIsMix | agent/skills/headless-web-viewer/scripts/render_url_playwright.mjs:60-64 | a draw is the output function applied to the advanced counter |
| Mulberry.AdvanceUnwrapped | agent/skills/headless-web-viewer/scripts/render_url_playwright.mjs:58-60 | the counter after k draws is JavaScript's unwrapped `t + k * 0x6d2b79f5` reduced modulo 2^32 |
| Mulberry.AdvanceAdd | agent/skills/headless-web-viewer/scripts/render_url_playwright.mjs:60 | advancing a then b draws is advancing a + b draws |
| Mulberry.OutputsSnoc | agent/skills/headless-web-viewer/scripts/render_url_playwright.mjs:59-65 | the n+1 first outputs are the n first followed by the draw from the counter after n steps |
| Mulberry.MixValues | agent/skills/headless-web-viewer/scripts/render_url_playwright.mjs:61-64 | the output function on three counters, as 32-bit constants |
| Mulberry.StepValues | agent/skills/headless-web-viewer/scripts/render_url_playwright.mjs:60 | the counter after one, two and three steps from 1 |
| Mulberry.GoldenDraws | agent/skills/headless-web-viewer/scripts/render_url_playwright.mjs:57-65 | seed 1 yields the draws 0xa087eaf3, 0x00b349c9, 0x8706c4eb |
| Mulberry.Unit | agent/skills/headless-web-viewer/scripts/render_url_playwright.mjs:64 | `float()` lies in [0, 1) |
| Mulberry.Scaled | agent/skills/headless-web-viewer/scripts/render_url_playwright.mjs:69-78 | a positive scale gives an index below it |
| Mulberry.ScaledIsFloor | agent/skills/headless-web-viewer/scripts/render_url_playwright.mjs:69-78 | the integer quotient `x * n div 2^32` equals `Math.floor(float() * n)` |
| Mulberry.Ceil | agent/skills/headless-web-viewer/scripts/render_url_playwright.mjs:70 | `Math.ceil`: the least integer at or above the argument |
| Mulberry.PickIndex | agent/skills/headless-web-viewer/scripts/render_url_playwright.mjs:77 | the picked index is within the array |
| Mulberry.Rng.constructor | agent/skills/headless-web-viewer/scripts/render_url_playwright.mjs:58 | the counter starts at the seed, with 1 in place of 0 |
| Mulberry.Rng.Next | agent/skills/headless-web-viewer/scripts/render_url_playwright.mjs:59-65 | the counter steps once and the draw is taken from the old counter |
| Mulberry.Rng.Float | agent/skills/headless-web-viewer/scripts/render_url_playwright.mjs:68 | one step; the result is the draw over 2^32, in [0, 1) |
| Mulberry.Rng.Int | agent/skills/headless-web-viewer/scripts/render_url_playwright.mjs:69-74 | an empty range throws without drawing; otherwise one draw gives a value within [ceil(min), floor(max)] |
| Mulberry.Rng.Pick | agent/skills/headless-web-viewer/scripts/render_url_playwright.mjs:75-78 | an empty array throws without drawing; otherwise one draw gives an element of the array |
| Mulberry.Rng.Bool | agent/skills/headless-web-viewer/scripts/render_url_playwright.mjs:79-81 | one draw; true exactly when the float falls below p |
| Mulberry.DrawBoth | agent/skills/headless-web-viewer/scripts/render_url_playwright.mjs:57-65 | two generators on the same counter draw the same value and stay equal |
| Mulberry.SameSeedSameDraws | agent/skills/headless-web-viewer/scripts/render_url_playwright.mjs:57-65 | the same seed gives the same sequence of draws, namely `Outputs` from the seeded counter |
| Weighted.PositiveTotalNonEmpty | agent/skills/headless-web-viewer/scripts/render_url_playwright.mjs:186-187 | a positive total implies at least one item |
| Weighted.WeightedIndex | agent/skills/headless-web-viewer/scripts/render_url_playwright.mjs:188-193 | the chosen index is the first whose running sum reaches the target, or the last item |
| Weighted.NoFallThrough | agent/skills/headless-web-viewer/scripts/render_url_playwright.mjs:188-193 | for a float below 1 the target never passes the chosen item's running sum, so the final fallback never decides alone |
| Weighted.WeightedIndexUnique | agent/skills/headless-web-viewer/scripts/render_url_playwright.mjs:189-193 | any index meeting the stopping rule is the chosen index |
| Weighted.ZeroWeightSkipped | agent/skills/headless-web-viewer/scripts/render_url_playwright.mjs:189-191 | an item of weight zero after the first is never picked |
| Weighted.FirstOfOneZero | agent/skills/headless-web-viewer/scripts/render_url_playwright.mjs:185-194 | weights 1 and 0 always pick the first item |
| Weighted.SumWeights | agent/skills/headless-web-viewer/scripts/render_url_playwright.mjs:186 | the loop returns the left-folded total |
| Weighted.PickWeighted | agent/skills/headless-web-viewer/scripts/render_url_playwright.mjs:185-194 | a non-positive total throws without drawing; otherwise one draw, and the result is the weighted index's value |
| Timezone.Trim | agent/skills/headless-web-viewer/scripts/render_url_playwright.mjs:181 | `trim` leaves no JavaScript white space at either end |
| Timezone.Lead | agent/skills/headless-web-viewer/scripts/render_url_playwright.mjs:181 | the end of the leading white space: all before it is white space, the character at it is not |
| Timezone.Trail | agent/skills/headless-web-viewer/scripts/render_url_playwright.mjs:181 | the start of the trailing white space: all after it is white space, the character before it is not |
| Timezone.TrimUnpadded | agent/skills/headless-web-viewer/scripts/render_url_playwright.mjs:181 | text without white space at either end is its own trim |
| Timezone.TrimIdempotent | agent/skills/headless-web-viewer/scripts/render_url_playwright.mjs:181 | trimming twice is trimming once |
| Timezone.InSegmentExact | agent/skills/headless-web-viewer/scripts/render_url_playwright.mjs:182 | inside a segment the recogniser accepts exactly a rest of segments |
| Timezone.AfterSlashExact | agent/skills/headless-web-viewer/scripts/render_url_playwright.mjs:182 | after a slash it accepts exactly a non-empty segment and a rest of segments |
| Timezone.InAreaExact | agent/skills/headless-web-viewer/scripts/render_url_playwright.mjs:182 | inside the area it accepts exactly area characters up to a slash and then segments |
| Timezone.RecognizerIsShape | agent/skills/headless-web-viewer/scripts/render_url_playwright.mjs:182 | the recogniser accepts exactly `[A-Za-z_]+(/[A-Za-z0-9_+-]+)+` |
| Timezone.ValidIffShape | agent/skills/headless-web-viewer/scripts/render_url_playwright.mjs:180-183 | `isValidIanaTimezone` holds exactly when the trimmed text has that shape |
| Timezone.ValidHasSlash | agent/skills/headless-web-viewer/scripts/render_url_playwright.mjs:180-183 | a valid timezone is present and holds a slash |
| Timezone.ValidUnpadded | agent/skills/headless-web-viewer/scripts/render_url_playwright.mjs:181-182 | on unpadded text the test is the recogniser itself |
| Timezone.NewYorkAccepted | agent/skills/headless-web-viewer/scripts/render_url_playwright.mjs:182 | the recogniser accepts "America/New_York" |
| Timezone.EtcAccepted | agent/skills/headless-web-viewer/scripts/render_url_playwright.mjs:182 | the recogniser accepts "Etc/GMT+5" |
| Timezone.ThreePartsAccepted | agent/skills/headless-web-viewer/scripts/render_url_playwright.mjs:182 | the recogniser accepts "America/Indiana/Knox" |
| Timezone.AcceptedExamples | agent/skills/headless-web-viewer/scripts/render_url_playwright.mjs:180-183 | New York, Etc/GMT+5 and a three-part name are valid |
| Timezone.AcceptedIsValid | agent/skills/headless-web-viewer/scripts/render_url_playwright.mjs:180-183 | a name the recogniser accepts is valid as written, with no trimming needed |
| Timezone.RejectedShapes | agent/skills/headless-web-viewer/scripts/render_url_playwright.mjs:182 | "UTC", "America", "America/", "9Z/Foo" and a double slash are rejected |
| Timezone.RejectedExamples | agent/skills/headless-web-viewer/scripts/render_url_playwright.mjs:180-183 | "UTC", "America", the empty text, blanks and a missing value are invalid |
| Timezone.PaddedExample | agent/skills/headless-web-viewer/scripts/render_url_playwright.mjs:181 | surrounding white space is trimmed before the test |
| IpInfo.StringField | agent/skills/headless-web-viewer/scripts/render_url_playwright.mjs:394-402 | a field is kept exactly when it is present and a string |
| IpInfo.SanitizeIpInfo | agent/skills/headless-web-viewer/scripts/render_url_playwright.mjs:391-404 | a record exactly for objects (arrays included); an array yields all nine fields null |
| IpInfo.SanitizeFields | agent/skills/headless-web-viewer/scripts/render_url_playwright.mjs:393-403 | each of the nine fields holds v exactly when the raw object holds the string v under that key |
| IpInfo.SanitizeOnlyNineFields | agent/skills/headless-web-viewer/scripts/render_url_playwright.mjs:393-403 | objects that agree on the nine string fields sanitise alike, whatever else they hold |
| IpInfo.EncodeInfo | agent/skills/headless-web-viewer/scripts/render_url_playwright.mjs:421-426 | the written record is an object with all nine keys |
| IpInfo.SanitizeEncode | agent/skills/headless-web-viewer/scripts/render_url_playwright.mjs:391-404 | sanitising an encoded record gives the record back |
| IpInfo.SanitizeIdempotent | agent/skills/headless-web-viewer/scripts/render_url_playwright.mjs:391-404 | sanitising a sanitised record changes nothing |
| IpInfo.TryReadCache | agent/skills/headless-web-viewer/scripts/render_url_playwright.mjs:406-419 | an entry exactly for an object with a numeric `fetchedAtMs` and an object `data`, carrying that time |
| IpInfo.ReadWritten | agent/skills/headless-web-viewer/scripts/render_url_playwright.mjs:406-435 | reading back what the writer stores gives the time and the record it wrote |
| IpInfo.WriteCache | agent/skills/headless-web-viewer/scripts/render_url_playwright.mjs:421-435 | the file changes only for an object answer and a successful write, and then holds exactly the encoded entry |
| IpInfo.FreshBoundaries | agent/skills/headless-web-viewer/scripts/render_url_playwright.mjs:453-455 | the time to live is 600000 ms; ages 0 and 600000 are fresh, 600000.5 and -1 stale |
| IpInfo.RunLookup | agent/skills/headless-web-viewer/scripts/render_url_playwright.mjs:450-513 | always enabled; a hit carries cached data; stale only on a failed fetch; ok exactly when the fetch succeeded or an entry exists; the file changes only after a successful fetch |
| IpInfo.FreshHitIgnoresFetch | agent/skills/headless-web-viewer/scripts/render_url_playwright.mjs:451-470 | a fresh entry answers whatever the network would have said, and leaves the file alone |
| IpInfo.StaleFallback | agent/skills/headless-web-viewer/scripts/render_url_playwright.mjs:484-503 | a failed fetch with a stale entry answers that entry, marked stale, with the error and the age at the second clock reading |
| IpInfo.FailureWithoutEntry | agent/skills/headless-web-viewer/scripts/render_url_playwright.mjs:504-511 | a failed fetch without an entry answers not ok, no data, with the error |
| IpInfo.NonObjectAnswer | agent/skills/headless-web-viewer/scripts/render_url_playwright.mjs:473-483 | a non-object answer is ok without data, and nothing is written |
| IpInfo.WriteThenHit | agent/skills/headless-web-viewer/scripts/render_url_playwright.mjs:421-470 | after a successful fetch, a later run within the time to live is a fresh hit on the same data |
| IpInfo.IpInfoService.constructor | agent/skills/headless-web-viewer/scripts/render_url_playwright.mjs:178 | the memo starts empty |
| IpInfo.IpInfoService.GetIpInfoOnce | agent/skills/headless-web-viewer/scripts/render_url_playwright.mjs:437-517 | "off" answers disabled and touches nothing; a filled memo is returned unchanged; otherwise the lookup runs once and is remembered |
| IpInfo.SecondCallRemembers | agent/skills/headless-web-viewer/scripts/render_url_playwright.mjs:449-516 | a second call returns the first call's result, whatever its own fetch would give |
| Geo.FindProfile | agent/skills/headless-web-viewer/scripts/render_url_playwright.mjs:240-250 | `find` returns a profile of that locale from the list, or none exactly when no profile has it |
| Geo.Upper | agent/skills/headless-web-viewer/scripts/render_url_playwright.mjs:197 | `toUpperCase` maps every character, keeping the length |
| Geo.FindFrom | agent/skills/headless-web-viewer/scripts/render_url_playwright.mjs:257-265 | true exactly when the word occurs, ignoring case, at or after i |
| Geo.MatchesAny | agent/skills/headless-web-viewer/scripts/render_url_playwright.mjs:257-265 | an alternation pattern with the `i` flag matches exactly when one of its words occurs, ignoring case |
| Geo.FallbackTimezone | agent/skills/headless-web-viewer/scripts/render_url_playwright.mjs:252-283 | draws only for a US region no pattern knows; always answers for US; answers only for US, CA or a country in the table |
| Geo.NonEmpty | agent/skills/headless-web-viewer/scripts/render_url_playwright.mjs:300-302 | `String(v \|\| "") \|\| null`: present exactly when v is a non-empty string, and then v |
| Geo.LocaleFor | agent/skills/headless-web-viewer/scripts/render_url_playwright.mjs:304-312 | a mapped country draws nothing; an unmapped one draws once |
| Geo.TimezoneFor | agent/skills/headless-web-viewer/scripts/render_url_playwright.mjs:314-318 | a valid snapshot timezone is used as is (untrimmed), without a draw |
| Geo.AmericanZonesAccepted | agent/skills/headless-web-viewer/scripts/render_url_playwright.mjs:256-274 | each American timezone the fallback tables name is accepted by the recogniser |
| Geo.OtherZonesAccepted | agent/skills/headless-web-viewer/scripts/render_url_playwright.mjs:268-280 | each European and Asian timezone the country table names is accepted by the recogniser |
| Geo.FixedZonesValid | agent/skills/headless-web-viewer/scripts/render_url_playwright.mjs:252-283 | every fixed timezone passes `isValidIanaTimezone` |
| Geo.FallbackZoneFixed | agent/skills/headless-web-viewer/scripts/render_url_playwright.mjs:252-283 | the country and region tables answer only with fixed timezones |
| Geo.DefaultZonesFixed | agent/skills/headless-web-viewer/scripts/render_url_playwright.mjs:164-170 | every default profile's timezone is a fixed timezone |
| Geo.TimezoneForValid | agent/skills/headless-web-viewer/scripts/render_url_playwright.mjs:314-318 | the chosen timezone passes `isValidIanaTimezone` on every branch: snapshot, tables, locale default, picked profile |
| Geo.TimezoneAlwaysValid | agent/skills/headless-web-viewer/scripts/render_url_playwright.mjs:285-349 | every derived profile's `timezoneId` passes `isValidIanaTimezone`, with or without a snapshot |
| Geo.DeriveGeoProfile | agent/skills/headless-web-viewer/scripts/render_url_playwright.mjs:285-349 | the source is "default" and there are no weights exactly when no snapshot is given (the timezone's validity is `Geo.TimezoneAlwaysValid`) |
| Geo.DefaultLocalesResolve | agent/skills/headless-web-viewer/scripts/render_url_playwright.mjs:240-250 | a picked default locale always has a default timezone and Accept-Language |
| Geo.TimezoneCountriesMapped | agent/skills/headless-web-viewer/scripts/render_url_playwright.mjs:196-283 | every country with a timezone rule also has a locale |
| Geo.MappedTimezoneGap | agent/skills/headless-web-viewer/scripts/render_url_playwright.mjs:196-283 | the mapped countries without a timezone rule are exactly AU, NZ and IE, and their locales have no default timezone |
| Geo.DrawCount | agent/skills/headless-web-viewer/scripts/render_url_playwright.mjs:285-349 | the profile advances the generator by `GeoDraws` draws: one without a snapshot, never more than one |
| Geo.CountryLocalesLeadEnglish | agent/skills/headless-web-viewer/scripts/render_url_playwright.mjs:199-210 | for US, GB, CA, AU, NZ and IE the Accept-Language header starts with the locale |
| Geo.CountryLocalesLeadEurope | agent/skills/headless-web-viewer/scripts/render_url_playwright.mjs:211-222 | the same for DE, FR, ES, IT, BR and MX |
| Geo.CountryLocalesLeadAsia | agent/skills/headless-web-viewer/scripts/render_url_playwright.mjs:223-234 | the same for CN, TW, HK, JP, KR and IN |
| Geo.CountryLocalesLead | agent/skills/headless-web-viewer/scripts/render_url_playwright.mjs:196-238 | every mapped country's header starts with its locale |
| Geo.DefaultProfilesLead | agent/skills/headless-web-viewer/scripts/render_url_playwright.mjs:164-170 | every default profile's header starts with its locale |
| Geo.AcceptLanguageLeadsWithLocale | agent/skills/headless-web-viewer/scripts/render_url_playwright.mjs:285-349 | every derived profile's Accept-Language starts with its locale |
| Geo.UnmappedAcceptLanguage | agent/skills/headless-web-viewer/scripts/render_url_playwright.mjs:305-312 | an unmapped country takes the picked locale's own header, never the "en-US" literal |
| Geo.DefaultBranch | agent/skills/headless-web-viewer/scripts/render_url_playwright.mjs:286-298 | without a snapshot: one draw, a profile from the default list, no country, region or city |
| Geo.SnapshotTimezoneWins | agent/skills/headless-web-viewer/scripts/render_url_playwright.mjs:314-315 | a valid snapshot timezone is the profile's timezone |
| Geo.IpInfoBranch | agent/skills/headless-web-viewer/scripts/render_url_playwright.mjs:300-348 | with a snapshot, the profile is built from the locale step and then the timezone step, in that order of draws |
| Geo.JapanScenario | agent/skills/headless-web-viewer/scripts/render_url_playwright.mjs:285-349 | JP: Japanese locale and header, JP weights, no draw, the snapshot's timezone if valid and Asia/Tokyo otherwise |
| Geo.CaliforniaScenario | agent/skills/headless-web-viewer/scripts/render_url_playwright.mjs:256-257 | a US region naming California, ignoring case, with no valid snapshot timezone, gives Los Angeles and an en-US locale with no draw |
| Geo.CaliforniaExample | agent/skills/headless-web-viewer/scripts/render_url_playwright.mjs:257 | region "California" gives America/Los_Angeles |
| Geo.UnknownUsRegion | agent/skills/headless-web-viewer/scripts/render_url_playwright.mjs:262 | an unknown US region draws once: New York below 0.55, Los Angeles otherwise |
| Geo.AustraliaScenario | agent/skills/headless-web-viewer/scripts/render_url_playwright.mjs:304-318 | AU without a valid timezone: Australian locale, and one draw for a default profile's timezone |
| Geo.PickedLosAngelesYieldsNewYork | agent/skills/headless-web-viewer/scripts/render_url_playwright.mjs:305-317 | an unmapped country picking the Los Angeles profile ends with New York: the timezone comes from the locale, not from the picked profile |
| Geo.FallbackTimezoneWith | agent/skills/headless-web-viewer/scripts/render_url_playwright.mjs:252-283 | the method on the generator equals `FallbackTimezone` on its counter |
| Geo.PickProfile | agent/skills/headless-web-viewer/scripts/render_url_playwright.mjs:287 | one draw gives the profile at `PickIndex` |
| Geo.DeriveGeo | agent/skills/headless-web-viewer/scripts/render_url_playwright.mjs:285-349 | the method on the generator equals `DeriveGeoProfile` on its counter |
| UserAgent.GroupsEnd | agent/skills/headless-web-viewer/scripts/render_url_playwright.mjs:149-151 | the end of a match of n dotted digit groups lies past its start |
| UserAgent.DigitRunTo | agent/skills/headless-web-viewer/scripts/render_url_playwright.mjs:149 | a run of digits that a non-digit or the end follows is the whole run |
| UserAgent.GroupsEndSound | agent/skills/headless-web-viewer/scripts/render_url_playwright.mjs:149-151 | what a match covers is n non-empty digit groups joined by dots, and no digit follows it |
| UserAgent.FirstGroup | agent/skills/headless-web-viewer/scripts/render_url_playwright.mjs:149-151 | a split of n groups starts with the whole first digit run, then a dot, then n - 1 groups |
| UserAgent.GroupsEndComplete | agent/skills/headless-web-viewer/scripts/render_url_playwright.mjs:149-151 | n digit groups that no digit follows are exactly where a match starting with them ends |
| UserAgent.GroupsEndIff | agent/skills/headless-web-viewer/scripts/render_url_playwright.mjs:149-151 | a match at i ends at j if and only if n digit groups run from i to j and no digit follows |
| UserAgent.GroupsEndFinds | agent/skills/headless-web-viewer/scripts/render_url_playwright.mjs:149-151 | when n digit groups start at i, the match at i succeeds |
| UserAgent.LeftmostFrom | agent/skills/headless-web-viewer/scripts/render_url_playwright.mjs:149-151 | `exec` finds the leftmost start: no earlier position matches, and none at all when it fails |
| UserAgent.LeftmostIsFirstMatch | agent/skills/headless-web-viewer/scripts/render_url_playwright.mjs:149-151 | `exec` returns n digit groups that no digit follows, with no n groups starting anywhere before; a failed `exec` means no n groups occur in the text at all |
| UserAgent.Leftmost | agent/skills/headless-web-viewer/scripts/render_url_playwright.mjs:149-152 | the matched text is n non-empty digit groups joined by dots |
| UserAgent.AppendGroup | agent/skills/headless-web-viewer/scripts/render_url_playwright.mjs:152 | appending ".0" to n groups gives n + 1 groups |
| UserAgent.FallbackGroups | agent/skills/headless-web-viewer/scripts/render_url_playwright.mjs:153 | the fallback "122.0.6261.69" is four digit groups |
| UserAgent.ExtractChromeVersion | agent/skills/headless-web-viewer/scripts/render_url_playwright.mjs:147-154 | the version is always four non-empty digit groups joined by dots |
| UserAgent.GroupsChars | agent/skills/headless-web-viewer/scripts/render_url_playwright.mjs:149-152 | digit groups hold digits and dots only |
| UserAgent.VersionChars | agent/skills/headless-web-viewer/scripts/render_url_playwright.mjs:147-154 | the version holds digits and dots only |
| UserAgent.ExtractIdempotent | agent/skills/headless-web-viewer/scripts/render_url_playwright.mjs:149-150 | a four-group version is kept as it is |
| UserAgent.ExtractTwice | agent/skills/headless-web-viewer/scripts/render_url_playwright.mjs:147-154 | extracting twice is extracting once |
| UserAgent.ExtractEmpty | agent/skills/headless-web-viewer/scripts/render_url_playwright.mjs:148-153 | a missing version gives the fallback |
| UserAgent.ExtractThreeGroups | agent/skills/headless-web-viewer/scripts/render_url_playwright.mjs:151-152 | "1.2.3" gives "1.2.3.0" |
| UserAgent.LeftmostGroups | agent/skills/headless-web-viewer/scripts/render_url_playwright.mjs:149 | in "v1.2.3.4.5" the leftmost four-group match runs from 1 to 8 |
| UserAgent.ExtractLeftmost | agent/skills/headless-web-viewer/scripts/render_url_playwright.mjs:149-150 | "v1.2.3.4.5" gives "1.2.3.4" |
| UserAgent.IndexOf | agent/skills/headless-web-viewer/scripts/render_url_playwright.mjs:577 | the first occurrence at or after i, or none when there is none |
| UserAgent.IndexOfFirst | agent/skills/headless-web-viewer/scripts/render_url_playwright.mjs:577 | an occurrence with none before it is the one found |
| UserAgent.ReplaceFirst | agent/skills/headless-web-viewer/scripts/render_url_playwright.mjs:577 | `replace` with a string pattern swaps the first occurrence only, and leaves the text unchanged without one |
| UserAgent.HeadHasNoBrace | agent/skills/headless-web-viewer/scripts/render_url_playwright.mjs:142-144 | no template holds a `{` before its placeholder |
| UserAgent.ReplaceAfterHead | agent/skills/headless-web-viewer/scripts/render_url_playwright.mjs:577 | with no brace before it, the placeholder is the first occurrence and is swapped for the version |
| UserAgent.SubstitutedShape | agent/skills/headless-web-viewer/scripts/render_url_playwright.mjs:140-145 | each template with the version substituted is its head, the version and the Safari tail |
| UserAgent.HeadlessLetters | agent/skills/headless-web-viewer/scripts/render_url_playwright.mjs:141 | "HeadlessChrome" is all letters |
| UserAgent.HeadlessNotAcross | agent/skills/headless-web-viewer/scripts/render_url_playwright.mjs:141 | the word cannot start in text without `H`, nor cover a fourth letter in text without `d` |
| UserAgent.HeadlessNotInHead | agent/skills/headless-web-viewer/scripts/render_url_playwright.mjs:141-144 | no template head contains "HeadlessChrome" |
| UserAgent.NotHeadless | agent/skills/headless-web-viewer/scripts/render_url_playwright.mjs:141-144 | a template with any digits-and-dots version substituted does not contain "HeadlessChrome" |
| UserAgent.UserAgentNotHeadless | agent/skills/headless-web-viewer/scripts/render_url_playwright.mjs:575-577 | the synthesised user agent never says "HeadlessChrome", whatever version the browser reports |
| UserAgent.TemplateIndex | agent/skills/headless-web-viewer/scripts/render_url_playwright.mjs:351-359 | the chosen template index is one of the three |
| UserAgent.PickUserAgentTemplate | agent/skills/headless-web-viewer/scripts/render_url_playwright.mjs:351-359 | uniform pick without weights, weighted pick otherwise; one draw, or a throw and no draw for a non-positive total |
| UserAgent.WeightedTemplates | agent/skills/headless-web-viewer/scripts/render_url_playwright.mjs:354-358 | three weighted items |
| UserAgent.TemplateItems | agent/skills/headless-web-viewer/scripts/render_url_playwright.mjs:355-357 | the items are the Windows, macOS and Linux templates in that order |
| UserAgent.CountryWeightsSumToOne | agent/skills/headless-web-viewer/scripts/render_url_playwright.mjs:320-337 | every country's weights sum to 1, so the weighted pick never throws |
| Cli.FirstX | agent/skills/headless-web-viewer/scripts/render_url_playwright.mjs:33 | the first `x` at or after i, or none |
| Cli.ParseViewportExact | agent/skills/headless-web-viewer/scripts/render_url_playwright.mjs:32-36 | digits, `x`, digits parse to their values |
| Cli.ParseViewportSound | agent/skills/headless-web-viewer/scripts/render_url_playwright.mjs:32-36 | only text of that shape parses |
| Cli.ViewportRoundTrip | agent/skills/headless-web-viewer/scripts/render_url_playwright.mjs:32-36 | printing a width and a height and parsing them back gives them back |
| Cli.LeadingZerosAccepted | agent/skills/headless-web-viewer/scripts/render_url_playwright.mjs:33-35 | "01366x0768" parses to 1366 by 768 |
| Cli.ValueExamples | agent/skills/headless-web-viewer/scripts/render_url_playwright.mjs:34-35 | `Number` reads "0768" as 768 and "01366" as 1366 |
| Cli.ViewportRejections | agent/skills/headless-web-viewer/scripts/render_url_playwright.mjs:33-34 | a missing height, a leading space and a missing value are rejected |
| Cli.ParseArgs | agent/skills/headless-web-viewer/scripts/render_url_playwright.mjs:90-138 | the loop returns the scan-and-validate function `Parsed` |
| Cli.ScanPositionals | agent/skills/headless-web-viewer/scripts/render_url_playwright.mjs:107-127 | positionals are arguments of argv that do not start with a dash, kept in order |
| Cli.ParsedIsValid | agent/skills/headless-web-viewer/scripts/render_url_playwright.mjs:129-137 | accepted arguments have a URL from argv and every value among the allowed ones |
| Cli.UrlOnly | agent/skills/headless-web-viewer/scripts/render_url_playwright.mjs:91-137 | a lone URL gives the defaults with that URL |
| Cli.FlagsStartWithDash | agent/skills/headless-web-viewer/scripts/render_url_playwright.mjs:110-124 | every known option starts with a dash |
| Cli.UnknownOptionRejects | agent/skills/headless-web-viewer/scripts/render_url_playwright.mjs:125 | an unknown dash argument reached by the scan rejects the command line |
| Cli.UnknownOptionExample | agent/skills/headless-web-viewer/scripts/render_url_playwright.mjs:125 | `--verbose` is rejected |
| Cli.TrailingOption | agent/skills/headless-web-viewer/scripts/render_url_playwright.mjs:110-134 | a trailing `--out-html` is accepted (undefined value); a trailing `--channel` or `--timeout` is rejected |
| Cli.DashValue | agent/skills/headless-web-viewer/scripts/render_url_playwright.mjs:118 | an option's value is taken even when it starts with a dash |
| Cli.InvalidViewportRejects | agent/skills/headless-web-viewer/scripts/render_url_playwright.mjs:120-122 | an unparsable viewport rejects the command line |
| Cli.EmptyFirstPositional | agent/skills/headless-web-viewer/scripts/render_url_playwright.mjs:129-130 | only the first positional is the URL, and an empty one is rejected |
| Cli.LastOptionWins | agent/skills/headless-web-viewer/scripts/render_url_playwright.mjs:124 | a repeated option keeps its last value |
| Identity.GeoWeightsFromCountry | agent/skills/headless-web-viewer/scripts/render_url_playwright.mjs:320-347 | a profile's weights, when present, are its country's |
| Identity.TemplateFor | agent/skills/headless-web-viewer/scripts/render_url_playwright.mjs:351-359 | the template chosen for a profile is one of the three |
| Identity.ProfileHasTemplate | agent/skills/headless-web-viewer/scripts/render_url_playwright.mjs:351-359 | picking a template for a derived profile never throws |
| Identity.BuildIdentity | agent/skills/headless-web-viewer/scripts/render_url_playwright.mjs:569-577 | the method on a fresh generator equals `IdentityFor` of the converted seed |
| Identity.IdentityDraws | agent/skills/headless-web-viewer/scripts/render_url_playwright.mjs:569-577 | the generator ends `Draws` steps past the seed: the geo draws, one for the viewport pool and one for the template unless given |
| Identity.ViewportOverrideShiftsUa | agent/skills/headless-web-viewer/scripts/render_url_playwright.mjs:573-577 | the template is drawn after the geo draws and the viewport draw, so a given viewport changes which template is picked |
| Identity.IdentityNotHeadless | agent/skills/headless-web-viewer/scripts/render_url_playwright.mjs:575-577 | without a given user agent, the identity never claims to be headless |
| Identity.ViewportChoice | agent/skills/headless-web-viewer/scripts/render_url_playwright.mjs:574 | the viewport is the given one, else one from the pool |
| Decimal.ValueOfToString | agent/skills/headless-web-viewer/scripts/render_url_playwright.mjs:35 | reading back a printed number gives the number |
| Decimal.ToString | agent/skills/repo-deep-dive-report/scripts/render_md_to_html.py:137 | a printed number is non-empty decimal digits without a leading zero |
| Decimal.ToStringInjective | agent/skills/repo-deep-dive-report/scripts/render_md_to_html.py:137 | distinct numbers print differently |
| PyText.SkipSpace | agent/skills/repo-deep-dive-report/scripts/render_md_to_html.py:27-30 | the end of the white space starting at i |
| PyText.Strip | agent/skills/repo-deep-dive-report/scripts/render_md_to_html.py:36 | `strip` leaves no white space at either end, and is empty exactly for blank text |
| PyText.StripUnpadded | agent/skills/repo-deep-dive-report/scripts/render_md_to_html.py:36 | unpadded text is its own strip |
| PyText.StripIdempotent | agent/skills/repo-deep-dive-report/scripts/render_md_to_html.py:36 | stripping twice is stripping once |
| PyText.StripChars | agent/skills/repo-deep-dive-report/scripts/render_md_to_html.py:36 | strip adds no character |
| PyText.Lower | agent/skills/repo-deep-dive-report/scripts/render_md_to_html.py:36 | `lower` maps each character and leaves no upper-case letter |
| PyText.LowerChar | agent/skills/repo-deep-dive-report/scripts/render_md_to_html.py:36 | a lowered character is never upper case, and other characters are kept |
| PyText.EscapeChar | agent/skills/repo-deep-dive-report/scripts/render_md_to_html.py:44-46 | one escaped character holds no `<` or `>`, and no quote when quoting |
| PyText.HtmlEscape | agent/skills/repo-deep-dive-report/scripts/render_md_to_html.py:44-46 | escaped text holds no `<` or `>` (nor quotes when quoting), never shrinks, and adds only reference characters |
| PyText.HtmlEscapeConcat | agent/skills/repo-deep-dive-report/scripts/render_md_to_html.py:44-46 | escaping distributes over concatenation |
| PyText.HtmlEscapePlain | agent/skills/repo-deep-dive-report/scripts/render_md_to_html.py:44-46 | text without special characters is unchanged |
| PyText.UnescapeChar | agent/skills/repo-deep-dive-report/scripts/render_md_to_html.py:44-46 | each escaped character reads back as itself |
| PyText.UnescapeEscape | agent/skills/repo-deep-dive-report/scripts/render_md_to_html.py:44-46 | unescaping escaped text gives the text back |
| PyText.Join | agent/skills/repo-deep-dive-report/scripts/render_md_to_html.py:177 | joining one piece is that piece |
| PyText.JoinCons | agent/skills/repo-deep-dive-report/scripts/render_md_to_html.py:177 | a join is the first piece, the separator and the join of the rest |
| PyText.JoinDropLast | agent/skills/repo-deep-dive-report/scripts/render_md_to_html.py:177 | a join is the join of all but the last, the separator and the last |
| PyText.SplitNl | agent/skills/repo-deep-dive-report/scripts/render_md_to_html.py:58 | there is at least one piece, and no piece holds a line break |
| PyText.JoinSplitNl | agent/skills/repo-deep-dive-report/scripts/render_md_to_html.py:58 | joining the pieces with line breaks gives the text back |
| PyText.Lines | agent/skills/repo-deep-dive-report/scripts/render_md_to_html.py:58 | the lines hold no line break |
| PyText.LinesRoundTrip | agent/skills/repo-deep-dive-report/scripts/render_md_to_html.py:58 | the lines joined with line breaks are the text, less one final line break |
| Slug.Keep | agent/skills/repo-deep-dive-report/scripts/render_md_to_html.py:37 | only word, CJK, white-space and dash characters of the input remain |
| Slug.SpacesToDash | agent/skills/repo-deep-dive-report/scripts/render_md_to_html.py:38 | no white space remains; only input characters and dashes |
| Slug.SqueezeDashes | agent/skills/repo-deep-dive-report/scripts/render_md_to_html.py:39 | no two dashes in a row remain; only input characters |
| Slug.SlugShape | agent/skills/repo-deep-dive-report/scripts/render_md_to_html.py:35-40 | a slug is non-empty, lower case, of word, CJK and dash characters, without white space or a double dash |
| Slug.SlugFixed | agent/skills/repo-deep-dive-report/scripts/render_md_to_html.py:35-40 | text already shaped like a slug is its own slug |
| Slug.KeepFixed | agent/skills/repo-deep-dive-report/scripts/render_md_to_html.py:37 | text of kept characters only passes the filter unchanged |
| Slug.SpacesToDashFixed | agent/skills/repo-deep-dive-report/scripts/render_md_to_html.py:38 | text without white space passes the dash step unchanged |
| Slug.SqueezeDashesFixed | agent/skills/repo-deep-dive-report/scripts/render_md_to_html.py:39 | text without a double dash passes the squeeze unchanged |
| Slug.SlugifyIdempotent | agent/skills/repo-deep-dive-report/scripts/render_md_to_html.py:35-40 | slugging a slug changes nothing |
| Slug.FallbackExample | agent/skills/repo-deep-dive-report/scripts/render_md_to_html.py:40 | text with nothing to keep becomes "section" |
| Slug.SpaceRunDropped | agent/skills/repo-deep-dive-report/scripts/render_md_to_html.py:38 | inside a run of white space nothing more is written |
| Slug.SpacesToDashPrefix | agent/skills/repo-deep-dive-report/scripts/render_md_to_html.py:38 | text without white space is copied as it is |
| Slug.SpaceRunOneDash | agent/skills/repo-deep-dive-report/scripts/render_md_to_html.py:38 | a run of white space between two words becomes exactly one dash |
| Inline.LinkEnd | agent/skills/repo-deep-dive-report/scripts/render_md_to_html.py:31 | a link ends at a `)` after its start |
| Inline.SafeConcat | agent/skills/repo-deep-dive-report/scripts/render_md_to_html.py:43-47 | safe text followed by safe text is safe |
| Inline.CodeSubSafe | agent/skills/repo-deep-dive-report/scripts/render_md_to_html.py:45 | on text without `<`, the code pass adds only whole code tags |
| Inline.TagLength | agent/skills/repo-deep-dive-report/scripts/render_md_to_html.py:45-46 | an inserted tag holds no `[`, so the link pass copies it whole |
| Inline.LinkSubCopies | agent/skills/repo-deep-dive-report/scripts/render_md_to_html.py:46 | characters that cannot open a link are copied |
| Inline.LinkTagSafe | agent/skills/repo-deep-dive-report/scripts/render_md_to_html.py:46 | a link becomes a safe tag |
| Inline.LinkSubSafe | agent/skills/repo-deep-dive-report/scripts/render_md_to_html.py:46 | the link pass keeps every `<` the start of a tag |
| Inline.EscapeInlineSafe | agent/skills/repo-deep-dive-report/scripts/render_md_to_html.py:43-47 | every `<` of the result opens `<code>`, `</code>`, `<a href="` or `</a>`: no markup of the input survives |
| Inline.CodeSubPlain | agent/skills/repo-deep-dive-report/scripts/render_md_to_html.py:45 | text without a backtick passes the code pass unchanged |
| Inline.EscapeInlinePlain | agent/skills/repo-deep-dive-report/scripts/render_md_to_html.py:43-47 | text without `&`, `<`, `>`, backtick or `[` is returned unchanged |
| Inline.LinkSubNoBracket | agent/skills/repo-deep-dive-report/scripts/render_md_to_html.py:46 | text without `[` passes the link pass unchanged |
| Inline.CodeSubSpan | agent/skills/repo-deep-dive-report/scripts/render_md_to_html.py:45 | a code span becomes a code tag around its escaped content |
| Inline.CodeSubSpanAt | agent/skills/repo-deep-dive-report/scripts/render_md_to_html.py:45 | a closed code span at i becomes a code tag around its quoted-escaped content, and the pass continues after the span |
| Inline.CodeSpanEscapedTwice | agent/skills/repo-deep-dive-report/scripts/render_md_to_html.py:44-45 | a code span's content is escaped twice: once for the whole text, once with quotes inside the tag |
| Inline.LinkSubSpan | agent/skills/repo-deep-dive-report/scripts/render_md_to_html.py:46 | `[x](u)` becomes an anchor with u as the quoted address and x as its text |
| Inline.EscapeLinkText | agent/skills/repo-deep-dive-report/scripts/render_md_to_html.py:44 | escaping `[x](u)` escapes x and u and keeps the brackets |
| Inline.LinkEscapedTwice | agent/skills/repo-deep-dive-report/scripts/render_md_to_html.py:44-46 | a link's address and text are escaped twice |
| Blocks.RunOf | agent/skills/repo-deep-dive-report/scripts/render_md_to_html.py:27-28 | the end of a run of one character |
| Blocks.WordEnd | agent/skills/repo-deep-dive-report/scripts/render_md_to_html.py:28 | the end of a run of word characters |
| Blocks.Classify | agent/skills/repo-deep-dive-report/scripts/render_md_to_html.py:106-170 | a heading has a level of 1 to 6; a plain text line is not blank |
| Blocks.FenceExact | agent/skills/repo-deep-dive-report/scripts/render_md_to_html.py:28 | three backticks, a word and white space match, with the word as the language (none when it is empty) |
| Blocks.FenceSound | agent/skills/repo-deep-dive-report/scripts/render_md_to_html.py:28 | only lines of that shape match |
| Blocks.HeadingExact | agent/skills/repo-deep-dive-report/scripts/render_md_to_html.py:27 | one to six `#`, white space and text match, with that level and the stripped text |
| Blocks.NoDeepHeading | agent/skills/repo-deep-dive-report/scripts/render_md_to_html.py:27 | seven or more `#` never match |
| Blocks.DeepHashIsText | agent/skills/repo-deep-dive-report/scripts/render_md_to_html.py:106-170 | a line of seven or more `#` is plain text whatever follows: no other pattern matches it and it is not blank |
| Blocks.HeadingSound | agent/skills/repo-deep-dive-report/scripts/render_md_to_html.py:27 | only lines of that shape match |
| Blocks.ItemExact | agent/skills/repo-deep-dive-report/scripts/render_md_to_html.py:29 | white space, a dash, white space and a body match, with that body |
| Blocks.QuoteExact | agent/skills/repo-deep-dive-report/scripts/render_md_to_html.py:30 | white space, `>`, an optional space and a body match, with the body less that space |
| Anchor.CandidateInjective | agent/skills/repo-deep-dive-report/scripts/render_md_to_html.py:135-137 | distinct counters give distinct candidates |
| Anchor.TriedSize | agent/skills/repo-deep-dive-report/scripts/render_md_to_html.py:134-136 | before counter i, exactly i - 2 candidates were tried |
| Anchor.FirstFree | agent/skills/repo-deep-dive-report/scripts/render_md_to_html.py:134-136 | the search ends on a free candidate, every earlier one taken |
| Anchor.Dedupe | agent/skills/repo-deep-dive-report/scripts/render_md_to_html.py:132-137 | the anchor is not in use, and a free slug is kept as it is |
| Anchor.DedupeSmallest | agent/skills/repo-deep-dive-report/scripts/render_md_to_html.py:133-137 | a taken slug gets the smallest free suffix from 2 on |
| Anchor.UniqueAnchor | agent/skills/repo-deep-dive-report/scripts/render_md_to_html.py:132-137 | the loop returns `Dedupe` |
| Markdown.StrippedLines | agent/skills/repo-deep-dive-report/scripts/render_md_to_html.py:74 | the stripped, non-empty paragraph lines, at most as many |
| Markdown.MarkdownParser.constructor | agent/skills/repo-deep-dive-report/scripts/render_md_to_html.py:59-68 | the loop state starts empty |
| Markdown.MarkdownParser.FlushPara | agent/skills/repo-deep-dive-report/scripts/render_md_to_html.py:70-77 | the new state is `ParaFlushed` of the old |
| Markdown.MarkdownParser.FlushUl | agent/skills/repo-deep-dive-report/scripts/render_md_to_html.py:79-83 | the new state is `UlClosed` of the old |
| Markdown.MarkdownParser.FlushBq | agent/skills/repo-deep-dive-report/scripts/render_md_to_html.py:85-89 | the new state is `BqClosed` of the old |
| Markdown.MarkdownParser.FlushCode | agent/skills/repo-deep-dive-report/scripts/render_md_to_html.py:91-103 | the new state is `CodeFlushed` of the old |
| Markdown.MarkdownParser.CloseBlocks | agent/skills/repo-deep-dive-report/scripts/render_md_to_html.py:111-113 | the paragraph, list and quote are closed in that order |
| Markdown.MarkdownParser.OpenFence | agent/skills/repo-deep-dive-report/scripts/render_md_to_html.py:110-116 | blocks closed, then code mode with the language and no lines |
| Markdown.MarkdownParser.AddHeading | agent/skills/repo-deep-dive-report/scripts/render_md_to_html.py:124-140 | blocks closed, then the heading with its deduplicated anchor is recorded and written |
| Markdown.MarkdownParser.AddItem | agent/skills/repo-deep-dive-report/scripts/render_md_to_html.py:143-150 | paragraph and quote closed, the list opened if needed, the item written |
| Markdown.MarkdownParser.AddQuote | agent/skills/repo-deep-dive-report/scripts/render_md_to_html.py:153-162 | paragraph and list closed, the quote opened if needed, non-blank text written |
| Markdown.MarkdownParser.Feed | agent/skills/repo-deep-dive-report/scripts/render_md_to_html.py:105-170 | one loop iteration: the new state is `Next` of the old state and the line |
| Markdown.ParseMarkdown | agent/skills/repo-deep-dive-report/scripts/render_md_to_html.py:57-177 | the method returns `Parse` of the text's lines |
| MarkdownFacts.ContentLines | agent/skills/repo-deep-dive-report/scripts/render_md_to_html.py:70-150 | paragraph, item, heading and code lines are never a list or quote delimiter |
| MarkdownFacts.ScanContent | agent/skills/repo-deep-dive-report/scripts/render_md_to_html.py:70-150 | a content line leaves list and quote nesting unchanged |
| MarkdownFacts.ScanStep | agent/skills/repo-deep-dive-report/scripts/render_md_to_html.py:79-89 | an opening tag on a closed block opens it; a closing tag on an open block closes it |
| MarkdownFacts.ParaFlushedValid | agent/skills/repo-deep-dive-report/scripts/render_md_to_html.py:70-77 | flushing a paragraph keeps the state valid |
| MarkdownFacts.UlClosedValid | agent/skills/repo-deep-dive-report/scripts/render_md_to_html.py:79-83 | closing the list keeps the state valid |
| MarkdownFacts.BqClosedValid | agent/skills/repo-deep-dive-report/scripts/render_md_to_html.py:85-89 | closing the quote keeps the state valid |
| MarkdownFacts.BlocksClosedValid | agent/skills/repo-deep-dive-report/scripts/render_md_to_html.py:111-113 | closing all blocks keeps the state valid and leaves no list or quote open |
| MarkdownFacts.CodeFlushedValid | agent/skills/repo-deep-dive-report/scripts/render_md_to_html.py:91-103 | flushing code keeps the state valid |
| MarkdownFacts.AnchorsExtend | agent/skills/repo-deep-dive-report/scripts/render_md_to_html.py:132-138 | a heading with an unused anchor keeps the anchors distinct |
| MarkdownFacts.WithHeadingValid | agent/skills/repo-deep-dive-report/scripts/render_md_to_html.py:128-139 | adding a heading keeps the state valid (anchors distinct) |
| MarkdownFacts.WithItemValid | agent/skills/repo-deep-dive-report/scripts/render_md_to_html.py:146-149 | adding an item outside a quote keeps the state valid |
| MarkdownFacts.WithQuoteValid | agent/skills/repo-deep-dive-report/scripts/render_md_to_html.py:156-161 | adding quote text outside a list keeps the state valid |
| MarkdownFacts.NextValid | agent/skills/repo-deep-dive-report/scripts/render_md_to_html.py:105-170 | every line keeps the state valid: `in_ul` and `in_bq` match the tags written, and the anchors are distinct |
| MarkdownFacts.RunValid | agent/skills/repo-deep-dive-report/scripts/render_md_to_html.py:105-170 | any run of lines keeps the state valid |
| MarkdownFacts.ParseWellFormed | agent/skills/repo-deep-dive-report/scripts/render_md_to_html.py:57-177 | every `<ul>` and `<blockquote>` is closed, never nested or left open, and all anchors are distinct |
| MarkdownFacts.NextFlags | agent/skills/repo-deep-dive-report/scripts/render_md_to_html.py:123-168 | an item leaves only the list open, quote text only the quote; text keeps both; anything else closes both |
| MarkdownFacts.RunConcat | agent/skills/repo-deep-dive-report/scripts/render_md_to_html.py:105 | running two blocks of lines is running one after the other |
| MarkdownFacts.RunCode | agent/skills/repo-deep-dive-report/scripts/render_md_to_html.py:119-121 | inside a fence, lines without a fence are collected verbatim |
| MarkdownFacts.OpeningFence | agent/skills/repo-deep-dive-report/scripts/render_md_to_html.py:105-116 | three backticks and a word are a fence with that language |
| MarkdownFacts.ClosingFence | agent/skills/repo-deep-dive-report/scripts/render_md_to_html.py:105-109 | three bare backticks are a fence without a language |
| MarkdownFacts.FencedBody | agent/skills/repo-deep-dive-report/scripts/render_md_to_html.py:107-121 | an opened fence collects its body |
| MarkdownFacts.FencedBlock | agent/skills/repo-deep-dive-report/scripts/render_md_to_html.py:91-121 | a fenced block renders as one code block of its body and records no heading |
| MarkdownFacts.UnclosedFence | agent/skills/repo-deep-dive-report/scripts/render_md_to_html.py:172-175 | an unclosed fence is still written out at the end |
| MarkdownFacts.MermaidBlock | agent/skills/repo-deep-dive-report/scripts/render_md_to_html.py:96-97 | a mermaid block renders as `<pre class="mermaid">` around its escaped body |
| MarkdownFacts.RunText | agent/skills/repo-deep-dive-report/scripts/render_md_to_html.py:170 | plain text lines accumulate in the paragraph |
| MarkdownFacts.StrippedAll | agent/skills/repo-deep-dive-report/scripts/render_md_to_html.py:74 | with no blank line, every line is kept, stripped |
| MarkdownFacts.CollectedParagraph | agent/skills/repo-deep-dive-report/scripts/render_md_to_html.py:70-77 | collected non-blank lines render as one paragraph of the stripped lines joined by spaces |
| MarkdownFacts.Paragraph | agent/skills/repo-deep-dive-report/scripts/render_md_to_html.py:70-77 | consecutive text lines render as one paragraph |
| MarkdownFacts.TextCollected | agent/skills/repo-deep-dive-report/scripts/render_md_to_html.py:170 | text lines are collected verbatim, and none is blank |
| MarkdownFacts.BlankParagraph | agent/skills/repo-deep-dive-report/scripts/render_md_to_html.py:72-77 | a paragraph of blank lines writes nothing and is cleared |
| MarkdownFacts.BlankStripped | agent/skills/repo-deep-dive-report/scripts/render_md_to_html.py:74 | blank lines leave nothing to join |
| Toc.Listed | agent/skills/repo-deep-dive-report/scripts/render_md_to_html.py:181 | the filter never lengthens the headings |
| Toc.ListedExactly | agent/skills/repo-deep-dive-report/scripts/render_md_to_html.py:181 | a heading is listed exactly when it is one of the headings and no deeper than the maximum level |
| Toc.ListedConcat | agent/skills/repo-deep-dive-report/scripts/render_md_to_html.py:181 | the filter keeps the input order |
| Toc.RenderToc | agent/skills/repo-deep-dive-report/scripts/render_md_to_html.py:180-194 | the two loops return `TocHtml` |
| Toc.TocEmpty | agent/skills/repo-deep-dive-report/scripts/render_md_to_html.py:182-183 | the placeholder appears exactly when every heading is deeper than the maximum level |
| Toc.ListedPositions | agent/skills/repo-deep-dive-report/scripts/render_md_to_html.py:181 | the listed headings sit at increasing positions of the input, which are exactly those of the headings no deeper than the maximum level |
| Toc.TocLines | agent/skills/repo-deep-dive-report/scripts/render_md_to_html.py:185-194 | with a heading to list, the table is `<ul class="toc">`, one `TocItem(h)` for exactly the headings h no deeper than the maximum level, in input order, and `</ul>` |
| Toc.IndentByLevel | agent/skills/repo-deep-dive-report/scripts/render_md_to_html.py:187 | twelve pixels per level below the first: 0 for level 1, at most 60 |

## Left out

- Playwright, the browser, page loading, `randomPause`, `maybeScroll`, the
  page outputs, `usage`, `ensureParentDir`, `loadPlaywright` and the rest of
  `main` after the identity is built. These are I/O; only the identity
  composition in `main` is modelled.
- `fetchJsonHttps`. The network answer is a parameter: a JSON value, or a
  failure with its message. The HTTP status and timeout handling are part
  of that failure.
- The file system and the clock in the ipinfo cache. The cache file is a
  parameter holding the JSON it contains, or nothing when it is missing or
  unreadable. Success of the write and rename is a boolean. The two clock
  readings are the parameters `now` and `later`. `IpInfo.RunLookup` reads
  that one parameter both times the cache is consulted, so a cache file
  another process writes between the first read and the re-read after a
  failed lookup is not seen.
- The temporary file name of `writeIpInfoCache` and its random suffix.
  The file is written or not, and only the final path is modelled.
- `crypto.randomBytes`. It is a parameter of the seed conversion.
- JavaScript's `Number(...)` and `Number.isFinite` as `--seed` and
  `--timeout` use them. They are injected as a function from text to an
  optional real. The `--timeout` value is kept as that real.
- Cli.ParseViewportExact: the width and height are exact naturals read from
  the digit runs. JavaScript's `Number` rounds a run above 2^53 to the
  nearest double (9007199254740993 reads as 9007199254740992) and turns a
  run past about 1.8e308 into `Infinity`, which is still accepted.
- Cli.ViewportRoundTrip: the round trip is proved for every natural. In
  JavaScript it holds only below 2^53, for the reason just given.
- IpInfo.IpInfoService.GetIpInfoOnce: the memoised promise is a field set on
  the first call. Concurrent callers awaiting one pending promise are not
  modelled.
- Weighted.PickWeighted: weights, totals and the running difference are
  exact reals, not doubles. Rounding in `r -= it.weight` is not modelled.
- Mulberry.Rng.Bool: the draw is compared with the exact real `p`, not
  its double.
- Mulberry.Rng.Int: the error for an empty range is the fixed text
  "Invalid rng.int range", without the `min-max` suffix JavaScript's number
  formatting adds. The scaled draw is the exact floor of `unit * (hi - lo + 1)`,
  which equals the double computation only while that product stays below
  2^53. Its only callers, `randomPause` and `maybeScroll`, are left out.
- Mulberry.Rng.Next: the counter is held modulo 2^32. JavaScript keeps it
  as a growing double, which differs only after about 4.9 million draws,
  once the double loses precision.
- Geo.Upper: `toUpperCase` is modelled on ASCII letters only.
- PyText.Lower: `str.lower` is modelled on ASCII letters only.
- PyText.IsWordChar: `\w` is modelled on ASCII only. The slug adds the CJK
  block as the pattern does, but other Unicode letters and digits are
  dropped rather than kept. The fence pattern uses `\w` too, so a fence
  line whose language has a non-ASCII letter ("```café") is paragraph text
  in the model, where Python opens a code block with that language.
- PyText.Lines: `str.splitlines` is modelled as a split on `\n` only. The
  other line boundaries Python recognises (`\r`, `\r\n`, `\x0b`, `\x0c`,
  `\x1c` to `\x1e`, `\x85`, `\u2028`, `\u2029`) stay inside lines.
- `_html_page`, `main` and argument handling of `render_md_to_html.py`:
  page assembly, the date and file I/O.
- `repo_snapshot.py` is not part of this model.
