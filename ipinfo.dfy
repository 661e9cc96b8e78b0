/** The geolocation lookup of `getIpInfoOnce` and its cross-process cache.
    The HTTPS fetch, the cache file and the clock are inputs: the file is the
    parsed JSON it holds (`None` when it is missing or does not parse), the
    fetch is its outcome, and two clock readings are taken, one before the
    fetch and one after it. */
module IpInfo {
  import opened Maybe

  /** A parsed JSON value. */
  datatype Json =
    | JNull
    | JBool(b: bool)
    | JNumber(n: real)
    | JString(text: string)
    | JArray(items: seq<Json>)
    | JObject(fields: map<string, Json>)
  {
    /** `!!v && typeof v === "object"`: objects and arrays. */
    predicate IsObjectLike() {
      JObject? || JArray?
    }
  }

  /** The nine fields kept from an ipinfo.io answer, each a string or null. */
  datatype IpInfo = IpInfo(
    ip: Option<string>,
    hostname: Option<string>,
    city: Option<string>,
    region: Option<string>,
    country: Option<string>,
    loc: Option<string>,
    org: Option<string>,
    postal: Option<string>,
    timezone: Option<string>)

  const NoInfo := IpInfo(None, None, None, None, None, None, None, None, None)

  const FieldNames: seq<string> :=
    ["ip", "hostname", "city", "region", "country", "loc", "org", "postal", "timezone"]

  /** The field of `info` stored under `key` (one of `FieldNames`). */
  function Get(info: IpInfo, key: string): Option<string> {
    match key
    case "ip" => info.ip
    case "hostname" => info.hostname
    case "city" => info.city
    case "region" => info.region
    case "country" => info.country
    case "loc" => info.loc
    case "org" => info.org
    case "postal" => info.postal
    case "timezone" => info.timezone
    case _ => None
  }

  /** `typeof raw[key] === "string" ? raw[key] : null` on an object. */
  function StringField(m: map<string, Json>, key: string): (r: Option<string>)
    ensures r.Some? <==> key in m && m[key].JString?
    ensures r.Some? ==> m[key] == JString(r.value)
  {
    if key in m && m[key].JString? then Some(m[key].text) else None
  }

  /** `sanitizeIpInfo(raw)`: null unless `raw` is an object or an array; an
      array has none of the fields. */
  function SanitizeIpInfo(raw: Json): (r: Option<IpInfo>)
    ensures r.Some? <==> raw.IsObjectLike()
    ensures raw.JArray? ==> r == Some(NoInfo)
  {
    match raw
    case JObject(m) =>
      Some(IpInfo(StringField(m, "ip"), StringField(m, "hostname"), StringField(m, "city"),
                  StringField(m, "region"), StringField(m, "country"), StringField(m, "loc"),
                  StringField(m, "org"), StringField(m, "postal"), StringField(m, "timezone")))
    case JArray(_) => Some(NoInfo)
    case _ => None
  }

  /** Each kept field is present exactly when the object holds a string under
      that name, and then it is that string. */
  lemma {:induction false} SanitizeFields(m: map<string, Json>, key: string, v: string)
    requires key in FieldNames
    ensures Get(SanitizeIpInfo(JObject(m)).value, key) == Some(v) <==> key in m && m[key] == JString(v)
  {
  }

  /** Only the nine field names matter: objects that agree on them sanitize alike. */
  lemma {:induction false} SanitizeOnlyNineFields(m1: map<string, Json>, m2: map<string, Json>)
    requires forall k :: k in FieldNames ==> StringField(m1, k) == StringField(m2, k)
    ensures SanitizeIpInfo(JObject(m1)) == SanitizeIpInfo(JObject(m2))
  {
    assert "ip" in FieldNames && "hostname" in FieldNames && "city" in FieldNames;
    assert "region" in FieldNames && "country" in FieldNames && "loc" in FieldNames;
    assert "org" in FieldNames && "postal" in FieldNames && "timezone" in FieldNames;
  }

  function Encode(v: Option<string>): Json {
    if v.Some? then JString(v.value) else JNull
  }

  /** `JSON.stringify` of a sanitized record: every field written, null included. */
  function EncodeInfo(info: IpInfo): (j: Json)
    ensures j.JObject? && forall k :: k in FieldNames ==> k in j.fields
  {
    JObject(map["ip" := Encode(info.ip), "hostname" := Encode(info.hostname),
                "city" := Encode(info.city), "region" := Encode(info.region),
                "country" := Encode(info.country), "loc" := Encode(info.loc),
                "org" := Encode(info.org), "postal" := Encode(info.postal),
                "timezone" := Encode(info.timezone)])
  }

  /** Sanitizing what was written gives back the record. */
  lemma {:induction false} SanitizeEncode(info: IpInfo)
    ensures SanitizeIpInfo(EncodeInfo(info)) == Some(info)
  {
  }

  /** Sanitizing is idempotent through a write and a read. */
  lemma {:induction false} SanitizeIdempotent(raw: Json)
    requires raw.IsObjectLike()
    ensures SanitizeIpInfo(EncodeInfo(SanitizeIpInfo(raw).value)) == SanitizeIpInfo(raw)
  {
    SanitizeEncode(SanitizeIpInfo(raw).value);
  }

  /** A cache entry: when it was fetched and what was kept. */
  datatype Entry = Entry(fetchedAtMs: real, data: IpInfo)

  /** `tryReadIpInfoCache`: the file must hold an object with a numeric
      `fetchedAtMs` and an object (or array) `data`; anything else reads as no entry. */
  function TryReadCache(file: Option<Json>): (r: Option<Entry>)
    ensures r.Some? <==>
              && file.Some? && file.value.JObject?
              && "fetchedAtMs" in file.value.fields && file.value.fields["fetchedAtMs"].JNumber?
              && "data" in file.value.fields && file.value.fields["data"].IsObjectLike()
    ensures r.Some? ==> r.value.fetchedAtMs == file.value.fields["fetchedAtMs"].n
  {
    if file.None? || !file.value.JObject? then None
    else
      var m := file.value.fields;
      if "fetchedAtMs" !in m || !m["fetchedAtMs"].JNumber? then None
      else if "data" !in m || !m["data"].IsObjectLike() then None
      else Some(Entry(m["fetchedAtMs"].n, SanitizeIpInfo(m["data"]).value))
  }

  /** The payload `writeIpInfoCache` stores. */
  function EncodeEntry(now: real, info: IpInfo): Json {
    JObject(map["fetchedAtMs" := JNumber(now), "data" := EncodeInfo(info)])
  }

  /** Reading back a written entry gives the time and the record that were written. */
  lemma {:induction false} ReadWritten(now: real, info: IpInfo)
    ensures TryReadCache(Some(EncodeEntry(now, info))) == Some(Entry(now, info))
  {
    SanitizeEncode(info);
  }

  /** `writeIpInfoCache(raw)` at time `now`: nothing is written when `raw`
      sanitizes to null or the write fails (`writeOk` false). */
  function WriteCache(file: Option<Json>, now: real, raw: Json, writeOk: bool): (f: Option<Json>)
    ensures f != file ==> raw.IsObjectLike() && f == Some(EncodeEntry(now, SanitizeIpInfo(raw).value))
    ensures !raw.IsObjectLike() || !writeOk ==> f == file
  {
    var data := SanitizeIpInfo(raw);
    if data.None? || !writeOk then file else Some(EncodeEntry(now, data.value))
  }

  const TimeoutMs := 5000
  const CacheTtlMs: real := (10 * 60 * 1000) as real

  /** An entry is fresh when its age is between zero and the time to live. */
  predicate Fresh(ageMs: real) {
    0.0 <= ageMs <= CacheTtlMs
  }

  lemma {:induction false} FreshBoundaries()
    ensures CacheTtlMs == 600000.0
    ensures Fresh(0.0) && Fresh(600000.0)
    ensures !Fresh(600000.5) && !Fresh(-1.0)
  {
  }

  /** The outcome of `fetchJsonHttps`: the parsed body, or the error's message. */
  datatype Fetch = Fetched(body: Json) | FetchFailed(message: string)

  /** The object `getIpInfoOnce` resolves to (timeout, path and time to live are
      the constants above and are not repeated). */
  datatype Lookup = Lookup(
    enabled: bool,
    ok: bool,
    hit: bool,
    stale: bool,
    ageMs: Option<real>,
    data: Option<IpInfo>,
    error: Option<string>)

  const Disabled := Lookup(false, false, false, false, None, None, None)

  /** The lookup run the first time the memo is empty: the clock reads `now`
      before the fetch and `later` after it. Returns the result and the new
      file contents. */
  function RunLookup(file: Option<Json>, now: real, fetch: Fetch, later: real, writeOk: bool)
    : (out: (Lookup, Option<Json>))
    ensures out.0.enabled
    ensures out.0.hit ==> out.0.data.Some? && TryReadCache(file).Some?
    ensures out.0.stale ==> out.0.hit && fetch.FetchFailed?
    ensures out.0.ok <==> fetch.Fetched? || TryReadCache(file).Some?
    ensures out.1 != file ==> fetch.Fetched? && !out.0.hit
  {
    var cached := TryReadCache(file);
    if cached.Some? && Fresh(now - cached.value.fetchedAtMs) then
      (Lookup(true, true, true, false, Some(now - cached.value.fetchedAtMs), Some(cached.value.data), None), file)
    else
      match fetch
      case Fetched(raw) =>
        (Lookup(true, true, false, false, None, SanitizeIpInfo(raw), None), WriteCache(file, later, raw, writeOk))
      case FetchFailed(msg) =>
        var again := TryReadCache(file);
        if again.Some? then
          (Lookup(true, true, true, true, Some(later - again.value.fetchedAtMs), Some(again.value.data), Some(msg)), file)
        else
          (Lookup(true, false, false, false, None, None, Some(msg)), file)
  }

  /** A fresh entry answers without fetching: the result is the same whatever
      the fetch would have returned, and the file is untouched. */
  lemma {:induction false} FreshHitIgnoresFetch(file: Option<Json>, now: real, f1: Fetch, f2: Fetch, later: real, writeOk: bool)
    requires TryReadCache(file).Some? && Fresh(now - TryReadCache(file).value.fetchedAtMs)
    ensures RunLookup(file, now, f1, later, writeOk) == RunLookup(file, now, f2, later, writeOk)
    ensures var (r, f) := RunLookup(file, now, f1, later, writeOk);
            && r.hit && !r.stale && r.ok && f == file
            && r.data == Some(TryReadCache(file).value.data)
  {
  }

  /** A failed fetch falls back to a stale entry, carrying the error text. */
  lemma {:induction false} StaleFallback(file: Option<Json>, now: real, msg: string, later: real, writeOk: bool)
    requires TryReadCache(file).Some? && !Fresh(now - TryReadCache(file).value.fetchedAtMs)
    ensures var (r, f) := RunLookup(file, now, FetchFailed(msg), later, writeOk);
            && r.ok && r.hit && r.stale && r.error == Some(msg)
            && r.data == Some(TryReadCache(file).value.data)
            && r.ageMs == Some(later - TryReadCache(file).value.fetchedAtMs)
            && f == file
  {
  }

  /** A failed fetch with no usable entry yields no data. */
  lemma {:induction false} FailureWithoutEntry(file: Option<Json>, now: real, msg: string, later: real, writeOk: bool)
    requires TryReadCache(file).None?
    ensures RunLookup(file, now, FetchFailed(msg), later, writeOk)
            == (Lookup(true, false, false, false, None, None, Some(msg)), file)
  {
  }

  /** A successful fetch whose body is not an object or array is still `ok`,
      carries no data and writes nothing. */
  lemma {:induction false} NonObjectAnswer(file: Option<Json>, now: real, raw: Json, later: real, writeOk: bool)
    requires !raw.IsObjectLike()
    requires TryReadCache(file).None? || !Fresh(now - TryReadCache(file).value.fetchedAtMs)
    ensures var (r, f) := RunLookup(file, now, Fetched(raw), later, writeOk);
            r.ok && r.data.None? && !r.hit && f == file
  {
  }

  /** What one run fetched and wrote is served, without a fetch, by a later
      run that starts within the time to live. */
  lemma {:induction false} WriteThenHit(file: Option<Json>, now: real, raw: Json, later: real,
                     now2: real, fetch2: Fetch, later2: real, writeOk2: bool)
    requires raw.IsObjectLike()
    requires TryReadCache(file).None? || !Fresh(now - TryReadCache(file).value.fetchedAtMs)
    requires 0.0 <= now2 - later <= CacheTtlMs
    ensures var (r1, f1) := RunLookup(file, now, Fetched(raw), later, true);
            var (r2, f2) := RunLookup(f1, now2, fetch2, later2, writeOk2);
            && r1.data == SanitizeIpInfo(raw)
            && r2.hit && !r2.stale && r2.data == r1.data && f2 == f1
  {
    var info := SanitizeIpInfo(raw).value;
    ReadWritten(later, info);
  }

  /** `getIpInfoOnce`: the module-level memo becomes a field; the cache file is
      the other piece of state. */
  class IpInfoService {
    var memo: Option<Lookup>
    var cacheFile: Option<Json>

    constructor (file: Option<Json>)
      ensures memo.None? && cacheFile == file
    {
      memo := None;
      cacheFile := file;
    }

    /** Mode "off" answers disabled and leaves everything alone; otherwise the
        first call runs the lookup and remembers it, and later calls return
        the remembered result without touching the file. */
    method GetIpInfoOnce(mode: string, now: real, fetch: Fetch, later: real, writeOk: bool)
      returns (r: Lookup)
      modifies this
      ensures mode == "off" ==> r == Disabled && memo == old(memo) && cacheFile == old(cacheFile)
      ensures mode != "off" && old(memo).Some? ==>
                r == old(memo).value && memo == old(memo) && cacheFile == old(cacheFile)
      ensures mode != "off" && old(memo).None? ==>
                && (r, cacheFile) == RunLookup(old(cacheFile), now, fetch, later, writeOk)
                && memo == Some(r)
    {
      if mode == "off" {
        return Disabled;
      }
      if memo.None? {
        var (res, file) := RunLookup(cacheFile, now, fetch, later, writeOk);
        memo := Some(res);
        cacheFile := file;
      }
      r := memo.value;
    }
  }

  /** Every call after the first that is not "off" gives the first call's answer. */
  method SecondCallRemembers(file: Option<Json>, now: real, f1: Fetch, f2: Fetch, later: real)
    returns (r1: Lookup, r2: Lookup)
    ensures r1 == r2 == RunLookup(file, now, f1, later, true).0
  {
    var svc := new IpInfoService(file);
    r1 := svc.GetIpInfoOnce("on", now, f1, later, true);
    r2 := svc.GetIpInfoOnce("on", now + 1000.0, f2, later + 1000.0, true);
  }
}
