/** The library half of the feeder: the defaults, the two records decoded from an AIS
    message (station and weather), their ERDDAP query arguments, and the configuration. */
module Lib {
  import opened Wrappers
  import opened Decimal
  import opened Json
  import opened RxTime

  const DefaultMmsi: string := "00000"
  const DefaultUrl: string := "https://erddap.example.com/erddap/tabledap/data_set"
  const DefaultKey: string := "username_password"

  /** The station name used when an MMSI has no entry in the lookup table. */
  const Unknown: string := "UNKNOWN"

  /** Why decoding a message panics: indexing the map with an absent key, or an `unwrap`
      of an accessor or of the time parser that found nothing. */
  datatype DecodeError =
    | MissingKey(key: string)
    | NotU64(key: string)
    | NotF64(key: string)
    | NotStr(key: string)
    | BadRxTime(text: string)

  /** `msg[key]` on the message map. */
  function Index(m: Message, key: string): (r: Result<Value, DecodeError>)
    ensures r.Ok? <==> key in m
    ensures r.Ok? ==> r.value == m[key]
    ensures r.Err? ==> r.error == MissingKey(key)
  {
    if key in m then Ok(m[key]) else Err(MissingKey(key))
  }

  /** `msg[key].as_u64().unwrap()` */
  function ReadU64(m: Message, key: string): Result<U64, DecodeError> {
    var v :- Index(m, key);
    match AsU64(v)
    case Some(n) => Ok(n)
    case None => Err(NotU64(key))
  }

  /** `msg[key].as_f64().unwrap()` */
  function ReadF64(m: Message, key: string): Result<Number, DecodeError> {
    var v :- Index(m, key);
    match AsF64(v)
    case Some(x) => Ok(x)
    case None => Err(NotF64(key))
  }

  /** `msg[key].as_str().unwrap()` */
  function ReadStr(m: Message, key: string): Result<string, DecodeError> {
    var v :- Index(m, key);
    match AsStr(v)
    case Some(s) => Ok(s)
    case None => Err(NotStr(key))
  }

  /** The chrono parse followed by `unwrap`; placing the result at offset 0 cannot fail. */
  function ReadRxTime(text: string, lc: LibraryCalls): Result<DateTime, DecodeError> {
    match lc.parseTime(text)
    case Some(t) => Ok(t)
    case None => Err(BadRxTime(text))
  }

  // ---------------------------------------------------------------------------------
  // Station data

  datatype AisStationData = AisStationData(
    latitude: Number,
    longitude: Number,
    mmsi: U64,
    signalPower: Number,
    rxtime: DateTime)

  /** `AisStationData::from`: `rxtime` is read first, then the fields in declaration order;
      the first read that fails is the reported panic.  Every station key is mandatory, and
      a decoded record holds exactly the message's values. */
  function StationFromMessage(m: Message, lc: LibraryCalls): (r: Result<AisStationData, DecodeError>)
    ensures r.Ok? <==> StationReadable(m, lc)
    ensures r.Ok? ==>
      r.value == AisStationData(m["lat"].n, m["lon"].n, m["mmsi"].n.u, m["signalpower"].n,
                                lc.parseTime(m["rxtime"].s).value)
  {
    var text :- ReadStr(m, "rxtime");
    var rxtime :- ReadRxTime(text, lc);
    var latitude :- ReadF64(m, "lat");
    var longitude :- ReadF64(m, "lon");
    var mmsi :- ReadU64(m, "mmsi");
    var signalPower :- ReadF64(m, "signalpower");
    Ok(AisStationData(latitude, longitude, mmsi, signalPower, rxtime))
  }

  /** A message the station decoder accepts: every key present, with a value of the kind
      its accessor wants, and an `rxtime` that chrono reads. */
  predicate StationReadable(m: Message, lc: LibraryCalls) {
    && "rxtime" in m && m["rxtime"].Str? && lc.parseTime(m["rxtime"].s).Some?
    && "lat" in m && m["lat"].Num?
    && "lon" in m && m["lon"].Num?
    && "mmsi" in m && m["mmsi"].Num? && m["mmsi"].n.PosInt?
    && "signalpower" in m && m["signalpower"].Num?
  }

  /** The library calls the decoder and the query builder make, taken as functions:
      Rust's `format!("{:.3}", x)` (`fixed3`) and `x.to_string()` (`display`) on floats,
      which the model leaves open, and chrono's parse of `rxtime` (`parseTime`) and its
      `%Y-%m-%dT%H:%M:%SZ` rendering (`formatTime`), which `RxTime` defines. */
  datatype LibraryCalls = LibraryCalls(
    fixed3: Number -> string,
    display: Number -> string,
    parseTime: string -> Option<DateTime>,
    formatTime: DateTime -> string)

  /** The chrono calls are chrono's as modelled in `RxTime`. */
  ghost predicate IsChrono(lc: LibraryCalls) {
    && (forall text :: lc.parseTime(text) == ParseRxTime(text))
    && (forall dt :: lc.formatTime(dt) == FormatIso(dt))
  }

  type QueryPair = (string, string)

  function Names(q: seq<QueryPair>): (ns: seq<string>)
    ensures |ns| == |q| && forall i :: 0 <= i < |q| ==> ns[i] == q[i].0
  {
    seq(|q|, i requires 0 <= i < |q| => q[i].0)
  }

  const StationNames: seq<string> := ["latitude", "longitude", "time", "Signal_Power", "Station_ID", "MMSI"]

  /** The station name for an MMSI: the table entry under its decimal text, else `UNKNOWN`. */
  function StationId(mmsi: U64, lookup: map<string, string>): string {
    var key := NatToString(mmsi);
    if key in lookup then lookup[key] else Unknown
  }

  /** `AisStationData::as_query_arguments` */
  function StationQuery(d: AisStationData, lookup: map<string, string>, lc: LibraryCalls): (q: seq<QueryPair>)
    ensures Names(q) == StationNames
  {
    [ ("latitude", lc.fixed3(d.latitude)),
      ("longitude", lc.fixed3(d.longitude)),
      ("time", lc.formatTime(d.rxtime)),
      ("Signal_Power", lc.fixed3(d.signalPower)),
      ("Station_ID", StationId(d.mmsi, lookup)),
      ("MMSI", NatToString(d.mmsi)) ]
  }

  /** Each value of the station block comes from its own field: the three floats through
      `{:.3}`, the time through its ISO rendering, the `MMSI` text reads back as the MMSI, and
      the `Station_ID` is the table entry for that same text or `UNKNOWN`. */
  lemma StationQuerySpec(d: AisStationData, lookup: map<string, string>, lc: LibraryCalls)
    ensures var q := StationQuery(d, lookup, lc);
      && q[0].1 == lc.fixed3(d.latitude)
      && q[1].1 == lc.fixed3(d.longitude)
      && q[2].1 == lc.formatTime(d.rxtime)
      && q[3].1 == lc.fixed3(d.signalPower)
      && AllDigits(q[5].1) && DigitsValue(q[5].1) == d.mmsi
      && (q[5].1 in lookup ==> q[4].1 == lookup[q[5].1])
      && (q[5].1 !in lookup ==> q[4].1 == Unknown)
  {
    DigitsValueOfNatToString(d.mmsi);
  }

  /** With chrono's parser, a decodable `rxtime` is thirteen or fourteen digits (the
      greedy four-digit year can leave the last field a single digit). */
  lemma StationRxTimeShape(m: Message, lc: LibraryCalls)
    requires IsChrono(lc) && StationReadable(m, lc)
    ensures AllDigits(m["rxtime"].s) && 13 <= |m["rxtime"].s| <= 14
  {
    ParseRxTimeShape(m["rxtime"].s);
  }

  /** The decimal text used as lookup key has no leading zero, so a table key such as
      "00000" is never looked up. */
  lemma LookupKeyHasNoLeadingZero(mmsi: U64, key: string)
    requires |key| >= 2 && key[0] == '0'
    ensures NatToString(mmsi) != key
  {
    NatToStringLeadingZero(mmsi);
  }

  /** Adding or changing a table entry whose key starts with a zero never changes the
      station name of any MMSI; the default entry "00000" is such a key. */
  lemma LeadingZeroEntryIsInert(mmsi: U64, lookup: map<string, string>, key: string, name: string)
    requires |key| >= 2 && key[0] == '0'
    ensures StationId(mmsi, lookup[key := name]) == StationId(mmsi, lookup)
  {
    LookupKeyHasNoLeadingZero(mmsi, key);
  }

  // ---------------------------------------------------------------------------------
  // Weather data

  datatype AisWeatherData = AisWeatherData(
    windSpeed: U64,
    windGustSpeed: U64,
    windDirection: U64,
    windGustDirection: U64,
    waveHeight: Number,
    wavePeriod: U64)

  /** `AisWeatherData::from`: the fields are read in declaration order; no field has a
      default, and a decoded record holds exactly the message's values. */
  function WeatherFromMessage(m: Message): (r: Result<AisWeatherData, DecodeError>)
    ensures r.Ok? <==> WeatherReadable(m)
    ensures r.Ok? ==>
      r.value == AisWeatherData(m["wspeed"].n.u, m["wgust"].n.u, m["wdir"].n.u,
                                m["wgustdir"].n.u, m["waveheight"].n, m["waveperiod"].n.u)
  {
    var windSpeed :- ReadU64(m, "wspeed");
    var windGustSpeed :- ReadU64(m, "wgust");
    var windDirection :- ReadU64(m, "wdir");
    var windGustDirection :- ReadU64(m, "wgustdir");
    var waveHeight :- ReadF64(m, "waveheight");
    var wavePeriod :- ReadU64(m, "waveperiod");
    Ok(AisWeatherData(windSpeed, windGustSpeed, windDirection, windGustDirection, waveHeight, wavePeriod))
  }

  predicate HasU64(m: Message, key: string) {
    key in m && m[key].Num? && m[key].n.PosInt?
  }

  /** A message the weather decoder accepts: no defaults, every key mandatory. */
  predicate WeatherReadable(m: Message) {
    && HasU64(m, "wspeed") && HasU64(m, "wgust") && HasU64(m, "wdir") && HasU64(m, "wgustdir")
    && "waveheight" in m && m["waveheight"].Num?
    && HasU64(m, "waveperiod")
  }

  const WeatherNames: seq<string> :=
    ["Wind_Speed", "Wind_Gust_Speed", "Wind_Direction", "Wind_Gust_Direction", "Wave_Height", "Wave_Period"]

  /** `AisWeatherData::as_query_arguments` */
  function WeatherQuery(w: AisWeatherData, lc: LibraryCalls): (q: seq<QueryPair>)
    ensures Names(q) == WeatherNames
  {
    [ ("Wind_Speed", NatToString(w.windSpeed)),
      ("Wind_Gust_Speed", NatToString(w.windGustSpeed)),
      ("Wind_Direction", NatToString(w.windDirection)),
      ("Wind_Gust_Direction", NatToString(w.windGustDirection)),
      ("Wave_Height", lc.display(w.waveHeight)),
      ("Wave_Period", NatToString(w.wavePeriod)) ]
  }

  /** Each integer value of the weather block reads back as the field it was written from,
      and the wave height is the float's display text. */
  lemma WeatherQuerySpec(w: AisWeatherData, lc: LibraryCalls)
    ensures var q := WeatherQuery(w, lc);
      && AllDigits(q[0].1) && DigitsValue(q[0].1) == w.windSpeed
      && AllDigits(q[1].1) && DigitsValue(q[1].1) == w.windGustSpeed
      && AllDigits(q[2].1) && DigitsValue(q[2].1) == w.windDirection
      && AllDigits(q[3].1) && DigitsValue(q[3].1) == w.windGustDirection
      && q[4].1 == lc.display(w.waveHeight)
      && AllDigits(q[5].1) && DigitsValue(q[5].1) == w.wavePeriod
  {
    DigitsValueOfNatToString(w.windSpeed);
    DigitsValueOfNatToString(w.windGustSpeed);
    DigitsValueOfNatToString(w.windDirection);
    DigitsValueOfNatToString(w.windGustDirection);
    DigitsValueOfNatToString(w.wavePeriod);
  }

  // ---------------------------------------------------------------------------------
  // Configuration

  datatype MmsiLookup = MmsiLookup(mmsi: string, stationId: string)

  datatype AppConfig = AppConfig(
    erddapUrl: string,
    erddapKey: string,
    ignoreMmsi: seq<U64>,
    mmsiLookup: seq<MmsiLookup>)

  /** `AppConfig::default()`: the placeholder configuration written when none exists.  Its
      URL and key are the placeholders, and its table is the one entry for the placeholder
      MMSI "00000", so each of the three start-up checks on placeholders would refuse it. */
  function DefaultConfig(): (cfg: AppConfig)
    ensures cfg.erddapUrl == DefaultUrl && cfg.erddapKey == DefaultKey && cfg.ignoreMmsi == []
    ensures |cfg.mmsiLookup| == 1 && cfg.mmsiLookup[0] == MmsiLookup(DefaultMmsi, "MMSI Name")
    ensures exists i :: 0 <= i < |cfg.mmsiLookup| && cfg.mmsiLookup[i].mmsi == DefaultMmsi
  {
    var cfg := AppConfig(DefaultUrl, DefaultKey, [], [MmsiLookup(DefaultMmsi, "MMSI Name")]);
    assert cfg.mmsiLookup[0].mmsi == DefaultMmsi;
    cfg
  }

  /** What every request handler is given.  `dumpAllPackets` only switches logging and
      `ignoreMmsi` is never read. */
  datatype ArgsState = ArgsState(
    url: string,
    authorKey: string,
    dumpAllPackets: bool,
    mmsiLookup: map<string, string>,
    ignoreMmsi: seq<U64>)
}
