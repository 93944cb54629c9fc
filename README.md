# erddap-feeder, modelled in Dafny

erddap-feeder is a small service. AIS-catcher posts it JSON packets of decoded AIS
messages. For every message in a packet of type 8 with fid 31 (meant as the IMO289
weather report; `dac` is not checked), it sends one HTTP GET to an ERDDAP server's `.insert` endpoint. The GET
carries the station's position, receive time, signal power, station name and MMSI, the
weather values, and the author key.

At start-up the service loads its configuration. It refuses to run with an empty or
placeholder configuration, and it turns the configured MMSI list into a lookup table.

The model covers the following:
- the lookup table;
- the start-up validation;
- decoding a message into its station and weather records, with every `unwrap` panic as an `Err`;
- the two query blocks and the request built from them;
- the packet handler's loop, with its running count and its response text.

Modules:

- `Wrappers` — `Option` and `Result`.
- `Decimal` — decimal digit strings:
  - `u64::to_string` as `NatToString`;
  - chrono's zero-padded fields as `ZeroPad`;
  - the value of a run of digits as `DigitsValue`.
- `Json` — the serde_json values a message holds, and the accessors `as_u64`, `as_f64` and `as_str`. A message is a map from keys to values.
- `RxTime` — chrono's parse of `rxtime` with `%Y%m%d%H%M%S`, and its `%Y-%m-%dT%H:%M:%SZ` rendering. The parse is greedy: the year takes up to four digits, every other field up to two, each at least one, and the whole text must be used. The date and time must be valid, with second 60 allowed as chrono's leap second.
- `Lib` (`src/lib.rs`):
  - the default constants;
  - the station and weather records and their decoders;
  - their query blocks;
  - the configuration records and `AppConfig::default()`.
- `Feeder` (`src/main.rs`):
  - the exit statuses;
  - `build_mmsi_to_station_id_map` as a loop;
  - the checks of `load_config` as a loop with early returns;
  - `send_to_erddap` up to the GET it issues;
  - the loop body of `process_ais_message` (`ForwardMessage`) and the loop itself (`ProcessAisMessage`).

Both methods of the handler are proved against specification functions:
- `Forward`: what one message does;
- `Run` / `Handle`: the loop as a fold over the messages.

The lemmas about those functions state what the handler does:
- it finishes exactly when every message is handled;
- it then sends one request per qualifying message, in input order, and reports their number;
- it stops at the first panic, keeping the requests already sent;
- it never looks at `dac`.

The library calls the code makes are parameters of the model, gathered in the record
`Lib.LibraryCalls`:
- `fixed3`: `format!("{:.3}", x)` on a float;
- `display`: `x.to_string()` on a float;
- `parseTime`: chrono's parse of `rxtime`;
- `formatTime`: chrono's rendering of the time.

The two float renderings are left open. The two chrono calls are defined in `RxTime` and
proved there. The predicate `Lib.IsChrono` ties them to those definitions in the lemmas
that follow a message all the way to the `time` value it is sent with.

## Model

| member | source | states |
|---|---|---|
| Json.AsU64 | src/lib.rs:85 | `as_u64` gives a value exactly for a non-negative integer, and gives that integer |
| Json.AsF64 | src/lib.rs:83 | `as_f64` gives a value for every number, and for nothing else |
| Json.AsStr | src/lib.rs:78 | `as_str` gives a value exactly for a string, and gives that string |
| Lib.Index | src/lib.rs:78 | indexing the message map succeeds exactly for a present key; otherwise it is the missing-key panic |
| Lib.StationFromMessage | src/lib.rs:73-90 | the station decode succeeds exactly when `rxtime` is a string the time parser accepts, `lat`, `lon` and `signalpower` are numbers, and `mmsi` is a non-negative integer; the record then holds exactly those values |
| Lib.StationQuery | src/lib.rs:92-111 | the station block is the six names `latitude, longitude, time, Signal_Power, Station_ID, MMSI`, in this order |
| Lib.StationQuerySpec | src/lib.rs:92-111 | `latitude`, `longitude` and `Signal_Power` are the `{:.3}` renderings of their own fields; `time` is the rendered receive time; the `MMSI` text is all digits and reads back as the MMSI; `Station_ID` is the table entry under that text when present, and `UNKNOWN` otherwise |
| Lib.StationRxTimeShape | src/lib.rs:77-79 | with chrono's parser, a decodable `rxtime` is all digits, thirteen or fourteen of them |
| Lib.LookupKeyHasNoLeadingZero | src/lib.rs:95 | the decimal text of an MMSI never equals a key of two or more characters that starts with `0`, such as `"00000"` |
| Lib.LeadingZeroEntryIsInert | src/lib.rs:94-98 | adding or changing a table entry under such a key changes the station name of no MMSI |
| Lib.WeatherFromMessage | src/lib.rs:125-137 | the weather decode succeeds exactly when `wspeed`, `wgust`, `wdir`, `wgustdir` and `waveperiod` are non-negative integers and `waveheight` is a number; the record then holds exactly those values |
| Lib.WeatherQuery | src/lib.rs:139-153 | the weather block is the six names `Wind_Speed, Wind_Gust_Speed, Wind_Direction, Wind_Gust_Direction, Wave_Height, Wave_Period`, in this order |
| Lib.WeatherQuerySpec | src/lib.rs:139-153 | each integer value is all digits and reads back as its field; `Wave_Height` is the float rendering |
| Lib.DefaultConfig | src/lib.rs:170-182 | the default configuration has the placeholder URL and key, no ignored MMSIs, and a table of one entry, `"00000"` named `MMSI Name`; that entry is what each of the three placeholder checks would refuse |
| Decimal.NatToString | src/lib.rs:108 | the decimal text of a `u64` is a non-empty run of digits |
| Decimal.DigitsValueOfNatToString | src/lib.rs:108 | the decimal text of a `u64` reads back as the same number |
| Decimal.NatToStringInjective | src/lib.rs:108 | different numbers have different decimal texts |
| Decimal.NatToStringLeadingZero | src/lib.rs:95 | a decimal text starts with `0` only for zero, and is then exactly `"0"` |
| Decimal.ZeroPadDigitsValue | src/lib.rs:104 | zero-padding a field's value to the field's width gives the field's digits back |
| RxTime.LeadingDigits | src/lib.rs:78 | a numeric field takes at most its maximum of digits, all of them digits, and stops early only at a non-digit or at the end |
| RxTime.ScanFields | src/lib.rs:78 | a successful scan yields one value per field and consumes a digit-only input |
| RxTime.ParseRxTime | src/lib.rs:77-79 | an accepted `rxtime` is all digits and gives a valid date and time |
| RxTime.ScanFieldsOfDigits | src/lib.rs:78 | on digits, greedy scanning succeeds exactly when the input is longer than all fields but the last and no longer than all fields together |
| RxTime.ParseRxTimeShape | src/lib.rs:77-79 | only texts of thirteen or fourteen digits can be parsed |
| RxTime.ParseRxTime14 | src/lib.rs:77-79 | a fourteen-digit text is read field by field at its digit positions, and is accepted exactly when those fields make a valid date and time |
| RxTime.FormatIso | src/lib.rs:104 | for a valid time in a year up to 9999 the rendering is twenty characters, digits with `-`, `-`, `T`, `:`, `:`, `Z` at positions 4, 7, 10, 13, 16 and 19; a wider year is written with a leading `+` |
| RxTime.FormatFields14 | src/lib.rs:104 | rendering the fields of a fourteen-digit text with `%Y-%m-%dT%H:%M:%SZ` gives the same digits with the separators put in |
| RxTime.RxTimeRoundTrip | src/lib.rs:77-104 | a valid fourteen-digit `rxtime` is accepted, and its rendering is `YYYY-MM-DDTHH:MM:SSZ` with the same digits |
| RxTime.RxTimeFormatInjective | src/lib.rs:104 | distinct valid fourteen-digit receive times never render the same |
| Feeder.ExitCodesDistinct | src/main.rs:14-22 | the exit statuses lie between 1 and 7, and different reasons have different statuses |
| Feeder.StationTableKeys | src/main.rs:87-96 | the table's keys are exactly the configured MMSI texts |
| Feeder.StationTableLastWins | src/main.rs:87-96 | a key maps to the station id of the last entry with that MMSI text |
| Feeder.BuildMmsiToStationIdMap | src/main.rs:87-96 | the loop of inserts builds the table of the entries taken in order |
| Feeder.ConfigVerdict | src/main.rs:126-161 | a configuration that passes is used unaltered; a refusal exits with status 2, 4, 5, 6 or 7, never 1 or 3 |
| Feeder.LoadConfig | src/main.rs:126-161 | the checks after loading, including the search loop for the default entry, reach the verdict of the first failing check in order, or keep the configuration |
| Feeder.ConfigExitCodes | src/main.rs:126-161 | with an empty table the status is 4, or 2 if writing the default file failed; otherwise 5 for a `"00000"` entry, 6 for the placeholder URL, 7 for the placeholder key, each only when all earlier checks passed; the configuration is kept exactly when all four checks pass |
| Feeder.AcceptedConfig | src/main.rs:126-161 | an accepted configuration is the loaded one unchanged, has a non-empty table without a `"00000"` key, and has neither placeholder URL nor placeholder key |
| Feeder.DefaultConfigRejected | src/main.rs:136-143 | `AppConfig::default()` is refused with status 5, because of its `"00000"` entry |
| Feeder.QueryArgumentsLayout | src/main.rs:224-231 | the query is 13 pairs: the station block, then the weather block, then one `("author", key)` pair, the only `author` pair, last |
| Feeder.SendToErddap | src/main.rs:222-236 | extending an empty list with the three blocks gives that query, sent to the configured URL followed by `.insert` |
| Feeder.IsWeatherReport | src/main.rs:190-197 | classifying a message fails exactly when `type` is not a non-negative integer, or when it is 8 and `fid` is not a non-negative integer; otherwise the message is a weather report exactly when `type` is 8 and `fid` is 31 |
| Feeder.Forward | src/main.rs:190-203 | one message panics exactly when it is not handled, that is when it cannot be classified or when it qualifies and one of its two records does not decode; a handled message sends a request exactly when it qualifies |
| Feeder.ForwardSpec | src/main.rs:197-202 | a qualifying message that decodes sends the request built from its two decoded records |
| Feeder.ForwardReadsOnly | src/main.rs:190-203 | what one message does depends only on the thirteen keys the code reads |
| Feeder.Run | src/main.rs:188-214 | the loop sends at most one request per message, and when it finishes its count is the number of requests it sent |
| Feeder.RunSucceeds | src/main.rs:188-214 | the loop finishes exactly when no message panics; it then has sent every requested send in order, and counted each one |
| Feeder.RunFailureSticks | src/main.rs:189-214 | after a panic, later messages change nothing |
| Feeder.RunFails | src/main.rs:189-214 | the first panicking message ends the loop with its error, after the sends of the messages before it |
| Feeder.RunCongruent | src/main.rs:189-214 | messages that act alike, one by one, give the same run |
| Feeder.SendsAreRequests | src/main.rs:189-203 | when every message is handled, the sends are the qualifying messages' requests, in order, one each |
| Feeder.Handle | src/main.rs:188-214 | the handler sends at most one request per message of the packet, and the count it reports is the number of requests sent |
| Feeder.HandleSucceeds | src/main.rs:188-219 | the handler answers exactly when every message is handled; it has then sent one request per qualifying message, in input order, and its count is the number of qualifying messages |
| Feeder.HandleFails | src/main.rs:189-203 | the first message that is not handled ends the handler with that message's panic; the requests of the messages before it are sent |
| Feeder.HandleReadsOnly | src/main.rs:189-214 | the whole handler depends only on the keys it reads, message by message |
| Feeder.HandleIgnoresDac | src/main.rs:190-197 | changing or removing `dac` in any message changes nothing the handler does |
| Feeder.ResponseMessage | src/main.rs:216-219 | the `message` field of the JSON reply is `Processed `, then a run of digits that reads back as the count, then ` messages` |
| Feeder.ResponseMessageInjective | src/main.rs:216-219 | different counts give different response texts |
| Feeder.ForwardedRequestContent | src/main.rs:222-235 | a forwarded request goes to the URL followed by `.insert`, has 13 pairs, carries the ISO rendering of the message's `rxtime` as `time` and the message's MMSI in decimal as `MMSI`, and ends with the author key |
| Feeder.ForwardedTime14 | src/lib.rs:77-104 | for a fourteen-digit `rxtime`, the `time` sent is those digits with the ISO separators |
| Feeder.HandleAdvance | src/main.rs:189-214 | one more turn of the loop: nothing, one more request and one more count, or the panic that ends the handler |
| Feeder.ForwardMessage | src/main.rs:190-203 | the loop body does what `Forward` says: read `type`, then `fid` for type 8, then for fid 31 the two decodes and the request |
| Feeder.ProcessAisMessage | src/main.rs:176-220 | the loop with its running count sends the handler's requests, and answers with the `message` field `Processed <count> messages`, or ends with the panic of the first message it cannot handle |

## Left out

- The HTTP side is not modelled: the axum server, routing and tokio runtime (`src/main.rs:48-84`), and the reqwest GET with its status logging (`src/main.rs:233-256`). A send is modelled as the `Request` it would issue: endpoint and ordered query pairs. A failed send does not change the count: the code logs the error when `is_request()` holds and otherwise drops it without a log line (`src/main.rs:239-242`). The send has no time-out, so a server that never answers holds up the loop; the model has no notion of time and does not capture this.
- Configuration file I/O is not modelled: confy's path lookup, load and store, and `std::process::exit`. `load_config` is modelled from the point a configuration has been loaded. Whether writing the default file succeeded is a parameter (`defaultStored`). Exit statuses 1 and 3 come from file access before any configuration exists, so only their values are modelled.
- Logging (`tracing`) and the `dump_all_packets` flag are not modelled; they only decide what is logged. clap argument parsing is not modelled either: besides that flag it sets the listen address, `--bind-address`, default `0.0.0.0:22022` (`src/main.rs:39-41`, `src/main.rs:80`), which belongs to the server side left out above.
- Float rendering is not modelled: `{:.3}` of latitude, longitude and signal power, and `f64::to_string` of the wave height. These are the `fixed3` and `display` parameters. A float value is carried as the JSON number it came from.
- `as_f64` is not converted to binary64: `Json.AsF64` returns the number as it is.
- Lib.StationQuerySpec: the `time` value is stated only as the `formatTime` parameter applied to the receive time. The lemmas that assume `Lib.IsChrono` (`Feeder.ForwardedRequestContent`, `Feeder.ForwardedTime14`) state it as chrono's rendering.
- chrono's parsing of whitespace and of signed or wider years in `%Y` is not modelled. `rxtime` is a digit string in every AIS-catcher message.
- The HTTP reply is modelled by its text only: the handler answers status 200 with the JSON object `{"message": …}` (`src/main.rs:216-219`), and `Feeder.ResponseMessage` and `Feeder.ProcessAisMessage` give the `message` field's string, without the status code and the JSON wrapping.
- The serde deserialisation of the packet envelope (`AisCatcherMessage`, receiver, device) is not modelled. The handler starts from the sequence of message maps.
- Feeder.ProcessAisMessage: the count is a Rust `i32` (`src/main.rs:188`, `src/main.rs:203`) and is modelled as an unbounded natural. Past 2^31 - 1 forwarded messages in one packet a debug build panics on the overflow and a release build wraps to a negative count; neither outcome is modelled.
- `ignore_mmsi` is carried in the records but never read, as in the code. `main.rs` builds `ArgsState` without that field, which `lib.rs` declares.
- Facts about the code that the model keeps as they are:
  - the code has no acceptance table and no exclusion list;
  - `dac` is never read;
  - a missing `fid` on a type-8 message panics;
  - a decode failure panics and ends the handler without a response;
  - the response reports one count, that of the forwarded messages.
