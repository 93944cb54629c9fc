/** The service half of the feeder: building the MMSI table, the start-up validation of the
    configuration, assembling the ERDDAP request, and the packet handler that forwards every
    IMO289 weather message (type 8, fid 31). */
module Feeder {
  import opened Wrappers
  import opened Decimal
  import opened Json
  import opened RxTime
  import opened Lib

  // ---------------------------------------------------------------------------------
  // Exit codes

  datatype Exit =
    | CouldNotLoadConfigFile
    | CouldNotCreateConfigFile
    | CouldNotGetConfigFilePath
    | EmptyMmsiLookup
    | DefaultMmsiLookup
    | DefaultErddapUrl
    | DefaultErddapKey
  {
    /** The process exit status. */
    function Code(): int {
      match this
      case CouldNotLoadConfigFile => 1
      case CouldNotCreateConfigFile => 2
      case CouldNotGetConfigFilePath => 3
      case EmptyMmsiLookup => 4
      case DefaultMmsiLookup => 5
      case DefaultErddapUrl => 6
      case DefaultErddapKey => 7
    }
  }

  /** The exit statuses are 1 to 7 and tell the reasons apart. */
  lemma ExitCodesDistinct(a: Exit, b: Exit)
    ensures 1 <= a.Code() <= 7
    ensures a.Code() == b.Code() ==> a == b
  {
  }

  // ---------------------------------------------------------------------------------
  // MMSI table

  /** The table the entries give when inserted one after the other. */
  function StationTable(entries: seq<MmsiLookup>): map<string, string>
    decreases |entries|
  {
    if entries == [] then map[]
    else
      var last := entries[|entries| - 1];
      StationTable(entries[..|entries| - 1])[last.mmsi := last.stationId]
  }

  /** The table has a key for every configured MMSI text, and no other. */
  lemma {:induction false} StationTableKeys(entries: seq<MmsiLookup>)
    ensures StationTable(entries).Keys == set i | 0 <= i < |entries| :: entries[i].mmsi
    decreases |entries|
  {
    if entries != [] {
      var init := entries[..|entries| - 1];
      StationTableKeys(init);
      assert forall i :: 0 <= i < |init| ==> init[i] == entries[i];
      var last := |entries| - 1;
      assert (set i | 0 <= i < |entries| :: entries[i].mmsi)
          == (set i | 0 <= i < |init| :: init[i].mmsi) + {entries[last].mmsi};
    }
  }

  /** With duplicates, the last entry for an MMSI text wins. */
  lemma {:induction false} StationTableLastWins(entries: seq<MmsiLookup>, i: nat)
    requires i < |entries|
    requires forall j :: i < j < |entries| ==> entries[j].mmsi != entries[i].mmsi
    ensures entries[i].mmsi in StationTable(entries)
    ensures StationTable(entries)[entries[i].mmsi] == entries[i].stationId
    decreases |entries|
  {
    if i < |entries| - 1 {
      var init := entries[..|entries| - 1];
      assert init[i] == entries[i];
      StationTableLastWins(init, i);
    }
  }

  /** `build_mmsi_to_station_id_map` */
  method BuildMmsiToStationIdMap(config: AppConfig) returns (table: map<string, string>)
    ensures table == StationTable(config.mmsiLookup)
  {
    var entries := config.mmsiLookup;
    table := map[];
    for i := 0 to |entries|
      invariant table == StationTable(entries[..i])
    {
      assert entries[..i + 1][..i] == entries[..i];
      table := table[entries[i].mmsi := entries[i].stationId];
    }
    assert entries[..|entries|] == entries;
  }

  // ---------------------------------------------------------------------------------
  // Start-up validation

  predicate HasDefaultLookup(cfg: AppConfig) {
    exists i :: 0 <= i < |cfg.mmsiLookup| && cfg.mmsiLookup[i].mmsi == DefaultMmsi
  }

  /** What `load_config` does with a loaded configuration: the first failing check picks the
      exit status, in this order, else the configuration is used as loaded.  With an empty
      table the default file is written first, and a failed write exits with status 2.  A
      configuration is never altered, and the statuses for a missing or unreadable file
      (1 and 3) never come from these checks. */
  function ConfigVerdict(cfg: AppConfig, defaultStored: bool): (r: Result<AppConfig, Exit>)
    ensures r.Ok? ==> r.value == cfg
    ensures r.Err? ==> r.error.Code() in {2, 4, 5, 6, 7}
  {
    if |cfg.mmsiLookup| == 0 then
      if defaultStored then Err(EmptyMmsiLookup) else Err(CouldNotCreateConfigFile)
    else if HasDefaultLookup(cfg) then Err(DefaultMmsiLookup)
    else if cfg.erddapUrl == DefaultUrl then Err(DefaultErddapUrl)
    else if cfg.erddapKey == DefaultKey then Err(DefaultErddapKey)
    else Ok(cfg)
  }

  /** The checks of `load_config` after the file is loaded, including its search of the
      table for the default entry. */
  method LoadConfig(cfg: AppConfig, defaultStored: bool) returns (r: Result<AppConfig, Exit>)
    ensures r == ConfigVerdict(cfg, defaultStored)
  {
    if |cfg.mmsiLookup| == 0 {
      if !defaultStored {
        return Err(CouldNotCreateConfigFile);
      }
      return Err(EmptyMmsiLookup);
    }
    for i := 0 to |cfg.mmsiLookup|
      invariant forall j :: 0 <= j < i ==> cfg.mmsiLookup[j].mmsi != DefaultMmsi
    {
      if cfg.mmsiLookup[i].mmsi == DefaultMmsi {
        return Err(DefaultMmsiLookup);
      }
    }
    if cfg.erddapUrl == DefaultUrl {
      return Err(DefaultErddapUrl);
    }
    if cfg.erddapKey == DefaultKey {
      return Err(DefaultErddapKey);
    }
    return Ok(cfg);
  }

  /** A configuration that passes start-up is the loaded one, and none of its settings is a
      placeholder: in particular its MMSI table has no "00000" key. */
  lemma AcceptedConfig(cfg: AppConfig, defaultStored: bool)
    requires ConfigVerdict(cfg, defaultStored).Ok?
    ensures ConfigVerdict(cfg, defaultStored).value == cfg
    ensures |cfg.mmsiLookup| > 0 && cfg.erddapUrl != DefaultUrl && cfg.erddapKey != DefaultKey
    ensures DefaultMmsi !in StationTable(cfg.mmsiLookup)
  {
    StationTableKeys(cfg.mmsiLookup);
  }

  /** The exit status of each refusal, by the first check that fails: 2 or 4 for an empty
      table (by whether the default file could be written), 5 for a "00000" entry, 6 for the
      placeholder URL, 7 for the placeholder key; a configuration passing all four is kept. */
  lemma ConfigExitCodes(cfg: AppConfig, defaultStored: bool)
    ensures var r := ConfigVerdict(cfg, defaultStored);
      && (r.Err? && r.error.Code() == 2 <==> |cfg.mmsiLookup| == 0 && !defaultStored)
      && (r.Err? && r.error.Code() == 4 <==> |cfg.mmsiLookup| == 0 && defaultStored)
      && (r.Err? && r.error.Code() == 5 <==>
            |cfg.mmsiLookup| > 0 && HasDefaultLookup(cfg))
      && (r.Err? && r.error.Code() == 6 <==>
            |cfg.mmsiLookup| > 0 && !HasDefaultLookup(cfg) && cfg.erddapUrl == DefaultUrl)
      && (r.Err? && r.error.Code() == 7 <==>
            |cfg.mmsiLookup| > 0 && !HasDefaultLookup(cfg) && cfg.erddapUrl != DefaultUrl && cfg.erddapKey == DefaultKey)
      && (r.Ok? <==>
            |cfg.mmsiLookup| > 0 && !HasDefaultLookup(cfg) && cfg.erddapUrl != DefaultUrl && cfg.erddapKey != DefaultKey)
      && (r.Err? ==> r.error.Code() in {2, 4, 5, 6, 7})
  {
  }

  /** The placeholder configuration is refused with status 5, its default MMSI entry being
      found before its default URL and key are looked at. */
  lemma DefaultConfigRejected(defaultStored: bool)
    ensures ConfigVerdict(DefaultConfig(), defaultStored) == Err(DefaultMmsiLookup)
    ensures ConfigVerdict(DefaultConfig(), defaultStored).error.Code() == 5
  {
    assert DefaultConfig().mmsiLookup[0].mmsi == DefaultMmsi;
  }

  // ---------------------------------------------------------------------------------
  // The request to ERDDAP

  /** An HTTP GET to `endpoint` with the query pairs in order. */
  datatype Request = Request(endpoint: string, query: seq<QueryPair>)

  function QueryArguments(station: AisStationData, weather: AisWeatherData, args: ArgsState, lc: LibraryCalls): seq<QueryPair> {
    StationQuery(station, args.mmsiLookup, lc) + WeatherQuery(weather, lc) + [("author", args.authorKey)]
  }

  function ErddapRequest(station: AisStationData, weather: AisWeatherData, args: ArgsState, lc: LibraryCalls): Request {
    Request(args.url + ".insert", QueryArguments(station, weather, args, lc))
  }

  lemma NamesAppend(a: seq<QueryPair>, b: seq<QueryPair>)
    ensures Names(a + b) == Names(a) + Names(b)
  {
  }

  /** The query is the six station pairs, the six weather pairs and one `author` pair, last. */
  lemma QueryArgumentsLayout(station: AisStationData, weather: AisWeatherData, args: ArgsState, lc: LibraryCalls)
    ensures var q := QueryArguments(station, weather, args, lc);
      && |q| == 13
      && q[..6] == StationQuery(station, args.mmsiLookup, lc)
      && q[6..12] == WeatherQuery(weather, lc)
      && q[12] == ("author", args.authorKey)
      && Names(q) == StationNames + WeatherNames + ["author"]
      && forall i :: 0 <= i < 12 ==> q[i].0 != "author"
  {
    StationQuerySpec(station, args.mmsiLookup, lc);
    WeatherQuerySpec(weather, lc);
    var sq, wq, aq := StationQuery(station, args.mmsiLookup, lc), WeatherQuery(weather, lc), [("author", args.authorKey)];
    BlockLayout(sq, wq, aq);
  }

  lemma BlockLayout(sq: seq<QueryPair>, wq: seq<QueryPair>, aq: seq<QueryPair>)
    requires Names(sq) == StationNames && Names(wq) == WeatherNames && Names(aq) == ["author"]
    ensures var q := sq + wq + aq;
      && |q| == 13 && q[..6] == sq && q[6..12] == wq && q[12] == aq[0]
      && Names(q) == StationNames + WeatherNames + ["author"]
      && forall i :: 0 <= i < 12 ==> q[i].0 != "author"
  {
    var q := sq + wq + aq;
    NamesAppend(sq, wq);
    NamesAppend(sq + wq, aq);
    assert q[..6] == sq;
    assert q[6..12] == wq;
    forall i | 0 <= i < 12
      ensures q[i].0 != "author"
    {
      assert q[i].0 == (StationNames + WeatherNames)[i];
    }
  }

  /** `send_to_erddap`, up to the GET it issues: the query is grown by extending an empty
      list with the station, weather and author pairs. */
  method SendToErddap(station: AisStationData, weather: AisWeatherData, args: ArgsState, lc: LibraryCalls)
    returns (request: Request)
    ensures request == ErddapRequest(station, weather, args, lc)
  {
    var asdQuery := StationQuery(station, args.mmsiLookup, lc);
    var weatherQuery := WeatherQuery(weather, lc);
    var author := [("author", args.authorKey)];
    var queryArgs: seq<QueryPair> := [];
    queryArgs := queryArgs + asdQuery;
    queryArgs := queryArgs + weatherQuery;
    queryArgs := queryArgs + author;
    request := Request(args.url + ".insert", queryArgs);
  }

  // ---------------------------------------------------------------------------------
  // Classifying and forwarding one message

  /** Reads `type` and, for type 8 only, `fid`; true for an IMO289 weather report.  `dac`
      is never read. */
  function IsWeatherReport(m: Message): (r: Result<bool, DecodeError>)
    ensures r.Ok? <==> Classifiable(m)
    ensures r.Ok? ==> (r.value <==> Qualifies(m))
  {
    var msgType :- ReadU64(m, "type");
    if msgType != 8 then Ok(false)
    else
      var fid :- ReadU64(m, "fid");
      Ok(fid == 31)
  }

  /** The message is forwarded: its `type` is the integer 8 and its `fid` the integer 31. */
  predicate Qualifies(m: Message) {
    HasU64(m, "type") && m["type"].n.u == 8 && HasU64(m, "fid") && m["fid"].n.u == 31
  }

  /** The handler can decide about the message without panicking. */
  predicate Classifiable(m: Message) {
    HasU64(m, "type") && (m["type"].n.u == 8 ==> HasU64(m, "fid"))
  }

  /** The handler gets past the message without panicking. */
  predicate Handled(m: Message, lc: LibraryCalls) {
    Classifiable(m) && (Qualifies(m) ==> StationReadable(m, lc) && WeatherReadable(m))
  }

  /** What the loop body does with one message: nothing, one request, or a panic.  It
      panics exactly on a message it cannot handle, and sends exactly for one that
      qualifies. */
  function Forward(m: Message, args: ArgsState, lc: LibraryCalls): (r: Result<Option<Request>, DecodeError>)
    ensures r.Ok? <==> Handled(m, lc)
    ensures r.Ok? ==> (r.value.Some? <==> Qualifies(m))
  {
    var weatherReport :- IsWeatherReport(m);
    if !weatherReport then Ok(None)
    else
      var asd :- StationFromMessage(m, lc);
      var awd :- WeatherFromMessage(m);
      Ok(Some(ErddapRequest(asd, awd, args, lc)))
  }

  /** The request forwarded for a message that qualifies and decodes. */
  function RequestFor(m: Message, args: ArgsState, lc: LibraryCalls): Request
    requires StationReadable(m, lc) && WeatherReadable(m)
  {
    ErddapRequest(StationFromMessage(m, lc).value, WeatherFromMessage(m).value, args, lc)
  }

  /** A qualifying message that decodes is forwarded as the request built from its two
      decoded records. */
  lemma ForwardSpec(m: Message, args: ArgsState, lc: LibraryCalls)
    ensures Handled(m, lc) && Qualifies(m) ==> Forward(m, args, lc) == Ok(Some(RequestFor(m, args, lc)))
  {
  }

  /** The two messages agree on a key: both lack it or both hold the same value. */
  predicate Agree(m: Message, m': Message, k: string) {
    Index(m, k) == Index(m', k)
  }

  /** The two messages agree on every key the handler reads. */
  predicate AgreeOnReads(m: Message, m': Message) {
    && Agree(m, m', "type") && Agree(m, m', "fid")
    && Agree(m, m', "rxtime") && Agree(m, m', "lat") && Agree(m, m', "lon")
    && Agree(m, m', "mmsi") && Agree(m, m', "signalpower")
    && Agree(m, m', "wspeed") && Agree(m, m', "wgust") && Agree(m, m', "wdir")
    && Agree(m, m', "wgustdir") && Agree(m, m', "waveheight") && Agree(m, m', "waveperiod")
  }

  /** One message's outcome depends on the keys the handler reads and on nothing else in
      the message (`dac`, for one, is never read). */
  lemma ForwardReadsOnly(m: Message, m': Message, args: ArgsState, lc: LibraryCalls)
    requires AgreeOnReads(m, m')
    ensures Forward(m, args, lc) == Forward(m', args, lc)
  {
    assert IsWeatherReport(m) == IsWeatherReport(m');
    assert StationFromMessage(m, lc) == StationFromMessage(m', lc);
    assert WeatherFromMessage(m) == WeatherFromMessage(m');
  }

  // ---------------------------------------------------------------------------------
  // The packet handler

  /** What the loop body does with one message: nothing, one request, or a panic. */
  type Action = Result<Option<Request>, DecodeError>

  /** Requests sent so far, and the count so far or the panic that ended the handler. */
  datatype Outcome = Outcome(sent: seq<Request>, status: Result<nat, DecodeError>)

  /** One turn of the loop: a send is counted, a panic ends the loop. */
  function Step(o: Outcome, a: Action): Outcome {
    if o.status.Err? then o
    else
      match a
      case Err(e) => Outcome(o.sent, Err(e))
      case Ok(None) => o
      case Ok(Some(request)) => Outcome(o.sent + [request], Ok(o.status.value + 1))
  }

  /** The loop over the messages, in order, each handled by `act`.  At most one request
      goes out per message, and a finished loop's count is the number of requests sent. */
  function Run(msgs: seq<Message>, act: Message -> Action): (o: Outcome)
    ensures |o.sent| <= |msgs|
    ensures o.status.Ok? ==> o.status.value == |o.sent|
    decreases |msgs|
  {
    if msgs == [] then Outcome([], Ok(0))
    else Step(Run(msgs[..|msgs| - 1], act), act(msgs[|msgs| - 1]))
  }

  /** The requests of the messages whose action is a send, in order. */
  function Sends(msgs: seq<Message>, act: Message -> Action): seq<Request>
    decreases |msgs|
  {
    if msgs == [] then []
    else
      var a := act(msgs[|msgs| - 1]);
      Sends(msgs[..|msgs| - 1], act) + (if a.Ok? && a.value.Some? then [a.value.value] else [])
  }

  /** The loop finishes exactly when no action panics, and then it has sent every requested
      send, in order, and counted each. */
  lemma {:induction false} RunSucceeds(msgs: seq<Message>, act: Message -> Action)
    ensures Run(msgs, act).status.Ok? <==> forall i :: 0 <= i < |msgs| ==> act(msgs[i]).Ok?
    ensures Run(msgs, act).status.Ok? ==>
      Run(msgs, act).sent == Sends(msgs, act) && Run(msgs, act).status.value == |Sends(msgs, act)|
    decreases |msgs|
  {
    if msgs != [] {
      var init, last := msgs[..|msgs| - 1], msgs[|msgs| - 1];
      RunSucceeds(init, act);
      assert Run(msgs, act) == Step(Run(init, act), act(last));
      assert forall i :: 0 <= i < |init| ==> msgs[i] == init[i];
      if !act(last).Ok? {
        assert !act(msgs[|msgs| - 1]).Ok?;
      } else if !Run(init, act).status.Ok? {
        var j :| 0 <= j < |init| && !act(init[j]).Ok?;
        assert !act(msgs[j]).Ok?;
      }
    }
  }

  /** The loop over one more message is one more step. */
  lemma RunSnoc(msgs: seq<Message>, i: nat, act: Message -> Action, o: Outcome, a: Action)
    requires i < |msgs| && Run(msgs[..i], act) == o && act(msgs[i]) == a
    ensures Run(msgs[..i + 1], act) == Step(o, a)
  {
    assert msgs[..i + 1][..i] == msgs[..i];
  }

  /** Once an action has panicked, later messages change nothing. */
  lemma {:induction false} RunFailureSticks(msgs: seq<Message>, k: nat, act: Message -> Action)
    requires k <= |msgs| && Run(msgs[..k], act).status.Err?
    ensures Run(msgs, act) == Run(msgs[..k], act)
    decreases |msgs| - k
  {
    if k < |msgs| {
      assert msgs[..k + 1][..k] == msgs[..k];
      if k + 1 == |msgs| {
        assert msgs[..k + 1] == msgs;
      } else {
        RunFailureSticks(msgs, k + 1, act);
      }
    } else {
      assert msgs[..k] == msgs;
    }
  }

  /** The first panicking action ends the loop with its error, after the sends before it. */
  lemma RunFails(msgs: seq<Message>, i: nat, act: Message -> Action)
    requires i < |msgs| && act(msgs[i]).Err?
    requires forall j :: 0 <= j < i ==> act(msgs[j]).Ok?
    ensures Run(msgs, act) == Outcome(Sends(msgs[..i], act), Err(act(msgs[i]).error))
  {
    var pre := msgs[..i];
    assert forall j :: 0 <= j < |pre| ==> pre[j] == msgs[j];
    RunSucceeds(pre, act);
    assert msgs[..i + 1][..i] == pre;
    assert msgs[..i + 1][i] == msgs[i];
    RunFailureSticks(msgs, i + 1, act);
  }

  /** Messages whose actions agree one by one give the same run. */
  lemma {:induction false} RunCongruent(msgs: seq<Message>, msgs': seq<Message>, act: Message -> Action)
    requires |msgs| == |msgs'|
    requires forall i :: 0 <= i < |msgs| ==> act(msgs[i]) == act(msgs'[i])
    ensures Run(msgs, act) == Run(msgs', act)
    decreases |msgs|
  {
    if msgs != [] {
      var n := |msgs|;
      RunCongruent(msgs[..n - 1], msgs'[..n - 1], act);
    }
  }

  /** The action of the handler's loop body. */
  function Act(args: ArgsState, lc: LibraryCalls): Message -> Action {
    m => Forward(m, args, lc)
  }

  lemma ActIsForward(m: Message, args: ArgsState, lc: LibraryCalls)
    ensures Act(args, lc)(m) == Forward(m, args, lc)
  {
  }

  /** The handler's loop over the messages of a packet: at most one request per message,
      and the count it reports is the number of requests it sent. */
  function Handle(msgs: seq<Message>, args: ArgsState, lc: LibraryCalls): (o: Outcome)
    ensures |o.sent| <= |msgs|
    ensures o.status.Ok? ==> o.status.value == |o.sent|
  {
    Run(msgs, Act(args, lc))
  }

  /** The body of the HTTP response: `format!("Processed {} messages", count)`.  Between
      the fixed words stands a run of digits that reads back as the count. */
  function ResponseMessage(count: nat): (r: string)
    ensures 11 <= |r| - 9 && r[..10] == "Processed " && r[|r| - 9..] == " messages"
    ensures AllDigits(r[10..|r| - 9]) && DigitsValue(r[10..|r| - 9]) == count
  {
    var t := NatToString(count);
    var r := "Processed " + t + " messages";
    assert r[10..|r| - 9] == t;
    DigitsValueOfNatToString(count);
    r
  }

  /** The number of qualifying messages. */
  function CountQualifying(msgs: seq<Message>): nat
    decreases |msgs|
  {
    if msgs == [] then 0
    else CountQualifying(msgs[..|msgs| - 1]) + (if Qualifies(msgs[|msgs| - 1]) then 1 else 0)
  }

  /** One request per qualifying message that decodes, in input order. */
  function Requests(msgs: seq<Message>, args: ArgsState, lc: LibraryCalls): seq<Request>
    decreases |msgs|
  {
    if msgs == [] then []
    else
      var last := msgs[|msgs| - 1];
      Requests(msgs[..|msgs| - 1], args, lc)
        + (if Qualifies(last) && StationReadable(last, lc) && WeatherReadable(last) then [RequestFor(last, args, lc)] else [])
  }

  /** When every message is handled, the handler's sends are the qualifying messages'
      requests, one each. */
  lemma {:induction false} SendsAreRequests(msgs: seq<Message>, args: ArgsState, lc: LibraryCalls)
    requires forall i :: 0 <= i < |msgs| ==> Handled(msgs[i], lc)
    ensures Sends(msgs, Act(args, lc)) == Requests(msgs, args, lc)
    ensures |Requests(msgs, args, lc)| == CountQualifying(msgs)
    decreases |msgs|
  {
    if msgs != [] {
      var init, last := msgs[..|msgs| - 1], msgs[|msgs| - 1];
      assert forall i :: 0 <= i < |init| ==> init[i] == msgs[i];
      SendsAreRequests(init, args, lc);
      ForwardSpec(last, args, lc);
    }
  }

  /** The handler answers exactly when every message is handled, and it then has sent, in
      input order, one request per qualifying message and reports their number. */
  lemma HandleSucceeds(msgs: seq<Message>, args: ArgsState, lc: LibraryCalls)
    ensures Handle(msgs, args, lc).status.Ok? <==> forall i :: 0 <= i < |msgs| ==> Handled(msgs[i], lc)
    ensures Handle(msgs, args, lc).status.Ok? ==>
      && Handle(msgs, args, lc).sent == Requests(msgs, args, lc)
      && Handle(msgs, args, lc).status.value == CountQualifying(msgs) == |Requests(msgs, args, lc)|
  {
    var act := Act(args, lc);
    RunSucceeds(msgs, act);
    forall i | 0 <= i < |msgs|
      ensures act(msgs[i]).Ok? <==> Handled(msgs[i], lc)
    {
      ForwardSpec(msgs[i], args, lc);
    }
    if forall i :: 0 <= i < |msgs| ==> Handled(msgs[i], lc) {
      SendsAreRequests(msgs, args, lc);
    }
  }

  /** The first message that is not handled ends the handler with its panic, after the
      requests of the messages before it. */
  lemma HandleFails(msgs: seq<Message>, i: nat, args: ArgsState, lc: LibraryCalls)
    requires i < |msgs| && !Handled(msgs[i], lc)
    requires forall j :: 0 <= j < i ==> Handled(msgs[j], lc)
    ensures Handle(msgs, args, lc).sent == Requests(msgs[..i], args, lc)
    ensures Forward(msgs[i], args, lc).Err?
    ensures Handle(msgs, args, lc).status == Err(Forward(msgs[i], args, lc).error)
  {
    var act := Act(args, lc);
    forall j | 0 <= j < i
      ensures act(msgs[j]).Ok?
    {
      ForwardSpec(msgs[j], args, lc);
    }
    ForwardSpec(msgs[i], args, lc);
    RunFails(msgs, i, act);
    var pre := msgs[..i];
    assert forall j :: 0 <= j < |pre| ==> pre[j] == msgs[j];
    SendsAreRequests(pre, args, lc);
  }

  /** The handler's behaviour depends only on the keys it reads, message by message. */
  lemma HandleReadsOnly(msgs: seq<Message>, msgs': seq<Message>, args: ArgsState, lc: LibraryCalls)
    requires |msgs| == |msgs'|
    requires forall i :: 0 <= i < |msgs| ==> AgreeOnReads(msgs[i], msgs'[i])
    ensures Handle(msgs, args, lc) == Handle(msgs', args, lc)
  {
    var act := Act(args, lc);
    forall i | 0 <= i < |msgs|
      ensures act(msgs[i]) == act(msgs'[i])
    {
      ForwardReadsOnly(msgs[i], msgs'[i], args, lc);
    }
    RunCongruent(msgs, msgs', act);
  }

  /** Agreement away from one key. */
  lemma AgreeAwayFrom(m: Message, m': Message, d: string, k: string)
    requires m - {d} == m' - {d} && k != d
    ensures Agree(m, m', k)
  {
    assert k in m <==> k in m - {d};
    assert k in m' <==> k in m' - {d};
    if k in m {
      assert (m - {d})[k] == m[k];
      assert (m' - {d})[k] == m'[k];
    }
  }

  /** Changing or dropping `dac` changes nothing the handler does. */
  lemma HandleIgnoresDac(msgs: seq<Message>, msgs': seq<Message>, args: ArgsState, lc: LibraryCalls)
    requires |msgs| == |msgs'|
    requires forall i :: 0 <= i < |msgs| ==> msgs[i] - {"dac"} == msgs'[i] - {"dac"}
    ensures Handle(msgs, args, lc) == Handle(msgs', args, lc)
  {
    forall i | 0 <= i < |msgs|
      ensures AgreeOnReads(msgs[i], msgs'[i])
    {
      forall k | k != "dac"
        ensures Agree(msgs[i], msgs'[i], k)
      {
        AgreeAwayFrom(msgs[i], msgs'[i], "dac", k);
      }
    }
    HandleReadsOnly(msgs, msgs', args, lc);
  }

  /** Different counts give different response bodies. */
  lemma ResponseMessageInjective(a: nat, b: nat)
    requires ResponseMessage(a) == ResponseMessage(b)
    ensures a == b
  {
    var p := "Processed ";
    var sa, sb := NatToString(a), NatToString(b);
    assert ResponseMessage(a)[|p|..|ResponseMessage(a)| - |" messages"|] == sa;
    assert ResponseMessage(b)[|p|..|ResponseMessage(b)| - |" messages"|] == sb;
    NatToStringInjective(a, b);
  }

  /** The request forwarded for a qualifying message goes to the `.insert` endpoint and
      carries the message's receive time in ISO form, its MMSI in decimal, and the author
      key last. */
  lemma ForwardedRequestContent(m: Message, args: ArgsState, lc: LibraryCalls)
    requires IsChrono(lc) && Qualifies(m) && StationReadable(m, lc) && WeatherReadable(m)
    ensures var r := RequestFor(m, args, lc);
      && r.endpoint == args.url + ".insert"
      && |r.query| == 13
      && r.query[2] == ("time", FormatIso(ParseRxTime(m["rxtime"].s).value))
      && r.query[5].0 == "MMSI" && DigitsValue(r.query[5].1) == m["mmsi"].n.u
      && r.query[12] == ("author", args.authorKey)
  {
    var asd, awd := StationFromMessage(m, lc).value, WeatherFromMessage(m).value;
    QueryArgumentsLayout(asd, awd, args, lc);
    StationQuerySpec(asd, args.mmsiLookup, lc);
    var q := QueryArguments(asd, awd, args, lc);
    assert q[2] == StationQuery(asd, args.mmsiLookup, lc)[2];
    assert q[5] == StationQuery(asd, args.mmsiLookup, lc)[5];
  }

  /** A fourteen-digit `rxtime` reaches the database as the same digits with the ISO
      separators put in. */
  lemma ForwardedTime14(m: Message, args: ArgsState, lc: LibraryCalls)
    requires IsChrono(lc) && Qualifies(m) && StationReadable(m, lc) && WeatherReadable(m)
    requires |m["rxtime"].s| == 14
    ensures RequestFor(m, args, lc).query[2] == ("time", IsoOf14(m["rxtime"].s))
  {
    var text := m["rxtime"].s;
    ForwardedRequestContent(m, args, lc);
    StationRxTimeShape(m, lc);
    ParseRxTime14(text);
    FormatFields14(text);
  }

  /** One more turn of the handler's loop, by the kind of action. */
  lemma HandleAdvance(msgs: seq<Message>, i: nat, args: ArgsState, lc: LibraryCalls, o: Outcome, a: Action)
    requires i < |msgs| && Run(msgs[..i], Act(args, lc)) == o && o.status.Ok?
    requires a == Forward(msgs[i], args, lc)
    ensures a == Ok(None) ==> Run(msgs[..i + 1], Act(args, lc)) == o
    ensures a.Ok? && a.value.Some? ==>
      Run(msgs[..i + 1], Act(args, lc)) == Outcome(o.sent + [a.value.value], Ok(o.status.value + 1))
    ensures a.Err? ==> Handle(msgs, args, lc) == Outcome(o.sent, Err(a.error))
  {
    var act := Act(args, lc);
    ActIsForward(msgs[i], args, lc);
    RunSnoc(msgs, i, act, o, a);
    if a.Err? {
      RunFailureSticks(msgs, i + 1, act);
    }
  }

  /** The body of the loop of `process_ais_message` for one message: the `match` on its
      type and fid, and for a weather report the two decodes and the request. */
  method ForwardMessage(msg: Message, args: ArgsState, lc: LibraryCalls) returns (action: Action)
    ensures action == Forward(msg, args, lc)
  {
    var msgType := ReadU64(msg, "type");
    if msgType.Err? {
      return Err(msgType.error);
    }
    if msgType.value != 8 {
      return Ok(None);
    }
    var fid := ReadU64(msg, "fid");
    if fid.Err? {
      return Err(fid.error);
    }
    if fid.value != 31 {
      return Ok(None);
    }
    var asd := StationFromMessage(msg, lc);
    if asd.Err? {
      return Err(asd.error);
    }
    var awd := WeatherFromMessage(msg);
    if awd.Err? {
      return Err(awd.error);
    }
    var request := SendToErddap(asd.value, awd.value, args, lc);
    return Ok(Some(request));
  }

  /** `process_ais_message`: the loop over the packet's messages with its running count.
      `sent` are the requests issued, in order; an `Err` response stands for the panic that
      ends the handler, after the requests issued before it. */
  method ProcessAisMessage(args: ArgsState, msgs: seq<Message>, lc: LibraryCalls)
    returns (sent: seq<Request>, response: Result<string, DecodeError>)
    ensures sent == Handle(msgs, args, lc).sent
    ensures response == match Handle(msgs, args, lc).status
                        case Ok(c) => Ok(ResponseMessage(c))
                        case Err(e) => Err(e)
  {
    sent := [];
    var count: nat := 0;
    for i := 0 to |msgs|
      invariant Run(msgs[..i], Act(args, lc)) == Outcome(sent, Ok(count))
    {
      var action := ForwardMessage(msgs[i], args, lc);
      HandleAdvance(msgs, i, args, lc, Outcome(sent, Ok(count)), action);
      match action
      case Err(e) =>
        return sent, Err(e);
      case Ok(None) =>
      case Ok(Some(request)) =>
        sent := sent + [request];
        count := count + 1;
    }
    assert msgs[..|msgs|] == msgs;
    response := Ok(ResponseMessage(count));
  }
}
