# guntamatic-cli streaming core, modelled in Dafny

guntamatic-cli polls a Guntamatic heating device for DAQ (data acquisition)
snapshots and streams them to InfluxDB. This project models the part of it
with sequential logic:

- the InfluxDB sink (`sink_influxdb.rs`): the encoder `daq_data_to_points`,
  which turns one snapshot into one data point per reading; the measurement
  name `lowercase(id + "_" + name)` with each whitespace run replaced by `-`;
  the typed `"value"` field with its default-on-mismatch policy; the
  nanosecond batch timestamp saturated at `i64::MAX`; one
  receive/encode/write round; and the `drain` loop that logs each round's
  error and carries on;
- the command-line entry point (`main.rs`): `parse_duration` (built on
  `u64::from_str`, whose digit loop is modelled too), the `-v` count to log
  level mapping, the message each task puts on the exit channel, the exit
  decision taken on the first message, and the prefix `execute` puts on a
  streaming failure.

Files: `wrappers.dfy` (Option, Result), `int_types.dfy` (the bounded Rust
integer types `u8`, `i32`, `i64`, `u64`), `json_value.dfy` (the dynamically
typed reading value and its `as_bool`/`as_i64`/`as_f64`/`as_str` accessors),
`measurement_name.dfy`, `sink_influxdb.dfy`, `cli.dfy`.

The reading's value type comes from the `guntamatic_web` crate, which is not
part of this model. The model assumes it is serde_json's `Value`, because the
encoder reads it only through serde_json's accessor names, and models those
accessors with serde_json's semantics.

Whitespace in a measurement name is what the regex `\s` matches in Unicode
mode. `MeasurementName.IsWhitespace` lists exactly the characters with the
Unicode White_Space property: U+0009 to U+000D, U+0020, U+0085, U+00A0,
U+1680, U+2000 to U+200A, U+2028, U+2029, U+202F, U+205F and U+3000.

The Ctrl-C handler puts `(true, 0)` on the exit channel (main.rs:72-74). This
is the constant `Cli.CTRL_C_MESSAGE`, which `Cli.InterruptExitsCleanly` uses.

Collaborators are inputs. The client library's `DataPoint::build` is a
caller-supplied `BuildCheck` that either refuses the point with an error or
builds exactly that point. Each round of the drain loop gets a `Round`: what
the queue delivered (a snapshot or a receive error), the clock reading
(nanoseconds since the epoch, or the error for a clock before the epoch) and
the outcome of the write call.

Three points where the program's behaviour may be unexpected:

- `drain` does not stop when the queue closes. A receive error
  (sink_influxdb.rs:45-47) is logged like any other, and the loop at lines
  34-39 repeats. So `Drain` never stops early.
- The spawned task sends rc 0 whenever `execute` returns `Ok`
  (main.rs:79-85).
- The streaming error path of `Cli.Execute` and `Cli.StreamFailureExit` is
  never reached as written.
  `web::stream::exec` awaits `drain` (web/stream/mod.rs:81), and `drain`
  never returns (sink_influxdb.rs:34-39). Both members still model what
  `execute` and `main` would do with such an error.

## Model

| member | source | states |
|---|---|---|
| `MeasurementName.Name` | guntamatic-cli/src/web/stream/sink_influxdb.rs:65-67 | the measurement name of any id and name contains no whitespace |
| `MeasurementName.NameExample` | guntamatic-cli/src/web/stream/sink_influxdb.rs:65-67 | id `"A 1"` and name `"Flow  Rate"` give `a-1_flow-rate` |
| `MeasurementName.ToLower` | guntamatic-cli/src/web/stream/sink_influxdb.rs:66 | an ASCII capital becomes its small letter, every other character (non-ASCII capitals included) is kept, and whitespace stays whitespace |
| `MeasurementName.Lowercase` | guntamatic-cli/src/web/stream/sink_influxdb.rs:66 | lower-casing keeps the length and lower-cases every character in place |
| `MeasurementName.CollapseWhitespace` | guntamatic-cli/src/web/stream/sink_influxdb.rs:67 | replacing `\s+` with `-` leaves no whitespace and never lengthens the text |
| `MeasurementName.CollapseSplit` | guntamatic-cli/src/web/stream/sink_influxdb.rs:28 | a non-whitespace character is kept and splits the replacement into independent halves |
| `MeasurementName.CollapseRun` | guntamatic-cli/src/web/stream/sink_influxdb.rs:28 | a maximal whitespace run of any length becomes exactly one `-` |
| `MeasurementName.CollapseIdentity` | guntamatic-cli/src/web/stream/sink_influxdb.rs:67 | text without whitespace is left unchanged |
| `MeasurementName.CollapseIdempotent` | guntamatic-cli/src/web/stream/sink_influxdb.rs:67 | sanitising twice equals sanitising once |
| `MeasurementName.CollapseLowercase` | guntamatic-cli/src/web/stream/sink_influxdb.rs:65-67 | lower-casing before or after the whitespace replacement gives the same name |
| `JsonValue.AsBool` | guntamatic-cli/src/web/stream/sink_influxdb.rs:70 | a value reads as a bool exactly when it is a JSON boolean, and reads as that boolean |
| `JsonValue.AsI64` | guntamatic-cli/src/web/stream/sink_influxdb.rs:71 | a value reads as i64 exactly when it is an integer number within i64; floats never do |
| `JsonValue.AsF64` | guntamatic-cli/src/web/stream/sink_influxdb.rs:72 | every number reads as an f64, integers by conversion; nothing else does |
| `JsonValue.AsStr` | guntamatic-cli/src/web/stream/sink_influxdb.rs:73 | a value reads as a string exactly when it is a JSON string, and reads as that string |
| `SinkInfluxDb.Default` | guntamatic-cli/src/web/stream/sink_influxdb.rs:70-73 | the fallback value has the declared type's kind |
| `SinkInfluxDb.Field` | guntamatic-cli/src/web/stream/sink_influxdb.rs:69-74 | the field's kind is the declared type; an unreadable value gives `false`/`0`/`0.0`/`""`; a true bool, a string, an in-range integer is carried over |
| `SinkInfluxDb.IntegerMismatchIsZero` | guntamatic-cli/src/web/stream/sink_influxdb.rs:71 | an Integer entry holding a string, a float or an integer above `i64::MAX` encodes as 0 |
| `SinkInfluxDb.FloatMismatchIsZero` | guntamatic-cli/src/web/stream/sink_influxdb.rs:72 | a Float entry holding a non-number encodes as +0.0 |
| `SinkInfluxDb.EntryPoint` | guntamatic-cli/src/web/stream/sink_influxdb.rs:64-76 | a reading's point has the sanitised name, the field key `"value"`, the field `Field` gives for the declared type and the value (so of the declared kind), and the batch timestamp |
| `SinkInfluxDb.Build` | guntamatic-cli/src/web/stream/sink_influxdb.rs:75-77 | building succeeds exactly when the library accepts the point, and then yields that point |
| `SinkInfluxDb.EncodeAll` | guntamatic-cli/src/web/stream/sink_influxdb.rs:59-81 | success iff every entry builds, and then one point per entry in order with one shared timestamp; otherwise the first failing entry's error and no points |
| `SinkInfluxDb.EncodesAsUnique` | guntamatic-cli/src/web/stream/sink_influxdb.rs:59-81 | encoding the same snapshot with the same timestamp always gives the same points or the same error |
| `SinkInfluxDb.DaqDataToPoints` | guntamatic-cli/src/web/stream/sink_influxdb.rs:59-81 | the push loop returns one point per entry in order, all with the given timestamp, or the first build error with no partial vector |
| `SinkInfluxDb.Timestamp` | guntamatic-cli/src/web/stream/sink_influxdb.rs:51 | the timestamp equals the nanosecond count iff it fits in i64, and is `i64::MAX` otherwise |
| `SinkInfluxDb.TimestampMonotone` | guntamatic-cli/src/web/stream/sink_influxdb.rs:51 | a later clock reading never gives an earlier timestamp |
| `SinkInfluxDb.RoundError.Message` | guntamatic-cli/src/web/stream/sink_influxdb.rs:45-53 | receive and write errors are logged with their prefixes, clock and build errors as they are |
| `SinkInfluxDb.RoundSpec` | guntamatic-cli/src/web/stream/sink_influxdb.rs:42-57 | a batch is written iff it was received, time-stamped and fully encoded, with one point per entry at the batch timestamp; the batch is exactly the encoded points; the round succeeds iff that write succeeds; the first failing step gives its error: receive, clock, the first build error, or write |
| `SinkInfluxDb.ReceiveAndWriteData` | guntamatic-cli/src/web/stream/sink_influxdb.rs:42-57 | the round, run step by step with early exits, has exactly the outcome and written batch given by `RoundSpec` |
| `SinkInfluxDb.WritesAppend` | guntamatic-cli/src/web/stream/sink_influxdb.rs:34-39 | the batches written for later rounds do not depend on what earlier rounds did, failures included |
| `SinkInfluxDb.WritesAllSucceed` | guntamatic-cli/src/web/stream/sink_influxdb.rs:34-39 | when every round succeeds, each round writes its own snapshot, in the order received |
| `SinkInfluxDb.Drain` | guntamatic-cli/src/web/stream/sink_influxdb.rs:31-40 | the loop runs every round, whatever failed before, records each round's own outcome and submits the batches in order |
| `SinkInfluxDb.EndToEnd` | guntamatic-cli/src/web/stream/sink_influxdb.rs:31-81 | three successful two-entry rounds at three distinct times give exactly three batches of two points, in order, each with its own timestamp |
| `Cli.ParseDigits` | guntamatic-cli/src/main.rs:47 | the digit loop succeeds iff all characters are digits and their value fits in u64, yields that value, and reports overflow for an all-digit string that does not fit |
| `Cli.ParseDigitsInvalid` | guntamatic-cli/src/main.rs:47 | a non-digit whose preceding digits fit in u64 gives InvalidDigit, whatever follows it |
| `Cli.Unsigned` | guntamatic-cli/src/main.rs:47 | `u64::from_str` drops exactly one leading `+` when there is one, and otherwise reads the text as it is |
| `Cli.ParseU64` | guntamatic-cli/src/main.rs:47 | `u64::from_str`: empty text is the Empty error; success iff the text after one optional `+` is a non-empty digit string within u64, yielding its value |
| `Cli.ParseDuration` | guntamatic-cli/src/main.rs:45-49 | success iff the integer parse succeeds, with exactly that many whole seconds and no nanoseconds; otherwise the parse error unchanged |
| `Cli.ParseDurationRoundTrip` | guntamatic-cli/src/main.rs:45-49 | every u64 written in decimal, with or without `+`, parses back to that many seconds |
| `Cli.ParseDurationExamples` | guntamatic-cli/src/main.rs:45-49 | `"30"` is 30 s; `""`, `"+"`, `"-5"`, `"1.5"` and `u64::MAX + 1` give Empty, InvalidDigit, InvalidDigit, InvalidDigit and PosOverflow |
| `Cli.LevelFor` | guntamatic-cli/src/main.rs:59-64 | 0, 1, 2 and 3 or more `-v` flags select Warn, Info, Debug and Trace |
| `Cli.LevelForMonotone` | guntamatic-cli/src/main.rs:59-64 | more `-v` flags never select a less verbose level |
| `Cli.TaskMessage` | guntamatic-cli/src/main.rs:77-86 | the task reports `(false, 0)` when `execute` succeeds and `(false, -1)` when it fails |
| `Cli.MainExit` | guntamatic-cli/src/main.rs:89-97 | the first message decides: the task is aborted iff it came from Ctrl-C, and the exit code is its `rc`; with no message and every sender gone, exit 1 without abort; otherwise keep waiting |
| `Cli.FirstMessageDecides` | guntamatic-cli/src/main.rs:89-97 | messages after the first do not change the decision |
| `Cli.InterruptExitsCleanly` | guntamatic-cli/src/main.rs:72-97 | a Ctrl-C message first aborts the task and exits with 0 |
| `Cli.TaskExit` | guntamatic-cli/src/main.rs:77-97 | the task's message first exits with 0 on success and -1 on error, without abort |
| `Cli.Execute` | guntamatic-cli/src/main.rs:103-122 | a streaming failure gets the prefix `error while streaming DAQ data: ` followed by the original message; a `get` failure is passed on unchanged |
| `Cli.StreamFailureExit` | guntamatic-cli/src/main.rs:110-112 | a failed stream that reaches `main` first makes the process exit with -1 |

## Left out

- The polling producer (`web/stream/mod.rs`): task spawning, the device fetch, the channel send and the sleep are concurrency and I/O. The drain consumes the snapshots in the order the queue delivers them, given as the sequence of rounds.
- The Prometheus sink: its variant is disabled in the source.
- The option declarations in `web/mod.rs` and `parse_ip_addr`, a wrapper over the standard address parser; the body of the `get` subcommand.
- The InfluxDB client: `Client::new` and `client.write` are network calls; each round's write outcome is an input. `DataPoint::build` is foreign; it is the `BuildCheck` parameter and no failure condition is invented for it.
- Clock reads and logging: the clock reading is part of each round's input, and `Drain` returns each round's outcome instead of printing it. `drain` logs an error with `{:?}`, anyhow's Debug format, so the logged text equals `RoundError.Message` only up to the cause chain anyhow appends.
- Floating point: f64 values are opaque (an IEEE-754 bit pattern, or an integer converted without modelling the rounding); only the `0.0` default is checked.
- MeasurementName.ToLower: maps only `A` to `Z`. Rust's `to_lowercase` also maps other capitals (`Ä` to `ä`), and can turn one character into several (`İ` to `i̇`).
- MeasurementName.Lowercase: lower-cases ASCII letters only. Rust's `to_lowercase` also lower-cases other letters and can change the length of the text.
- SinkInfluxDb.Drain: the source loop never ends; the model runs its body over any finite sequence of rounds, which covers every prefix of a run.
- Process and signal plumbing: clap parsing, logger set-up, the Ctrl-C handler registration, `tokio::spawn`, `abort` and `std::process::exit`. The model keeps the decision `main` takes. The operating system's truncation of the exit code to 8 bits (so -1 shows as 255) is not modelled.
- The `-v` count is a `u8`; how clap counts repeated flags is not modelled.
