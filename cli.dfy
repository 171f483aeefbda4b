/** The value-level decisions of the command-line entry point: the poll
    interval parser, the verbosity-to-log-level mapping, the message each
    task sends on the exit channel, the exit decision, and the text of a
    streaming failure. */
module Cli {
  import opened Wrappers
  import opened IntTypes

  // ---------------------------------------------------------------------------
  // parse_duration, on top of `u64::from_str`

  /** The kinds of `std::num::ParseIntError` an unsigned parse can give. */
  datatype IntErrorKind = Empty | InvalidDigit | PosOverflow
  datatype ParseIntError = ParseIntError(kind: IntErrorKind)

  predicate IsDigit(c: char) {
    '0' <= c <= '9'
  }

  predicate AllDigits(ds: string) {
    forall i :: 0 <= i < |ds| ==> IsDigit(ds[i])
  }

  function DigitValue(c: char): (d: nat)
    requires IsDigit(c)
    ensures d < 10
  {
    c as int - '0' as int
  }

  function DigitChar(d: nat): (c: char)
    requires d < 10
    ensures IsDigit(c) && DigitValue(c) == d
  {
    ('0' as int + d) as char
  }

  /** The number a string of decimal digits denotes. */
  function DecimalValue(ds: string): (n: nat)
    requires AllDigits(ds)
  {
    if ds == [] then 0 else DecimalValue(ds[..|ds| - 1]) * 10 + DigitValue(ds[|ds| - 1])
  }

  /** The decimal digits of `n`, without leading zeros. */
  function Decimal(n: nat): (ds: string)
    ensures ds != [] && AllDigits(ds)
  {
    if n < 10 then [DigitChar(n)] else Decimal(n / 10) + [DigitChar(n % 10)]
  }

  /** The digit loop of `u64::from_str`: left to right, a non-digit stops the
      scan with InvalidDigit and a value past `u64::MAX` with PosOverflow,
      whichever comes first. */
  function ParseDigits(ds: string): (r: Result<u64, ParseIntError>)
    ensures r.Ok? <==> AllDigits(ds) && DecimalValue(ds) <= U64_MAX
    ensures r.Ok? ==> r.value == DecimalValue(ds)
    ensures r.Err? && AllDigits(ds) ==> r.error == ParseIntError(PosOverflow)
    ensures r.Err? ==> r.error.kind != Empty
  {
    if ds == [] then Ok(0)
    else
      var last := ds[|ds| - 1];
      match ParseDigits(ds[..|ds| - 1])
      case Err(e) => Err(e)
      case Ok(acc) =>
        if !IsDigit(last) then Err(ParseIntError(InvalidDigit))
        else if acc * 10 + DigitValue(last) > U64_MAX then Err(ParseIntError(PosOverflow))
        else Ok(acc * 10 + DigitValue(last))
  }

  /** The digits `u64::from_str` reads: the text after one optional leading `+`. */
  function Unsigned(s: string): (r: string)
    ensures s != [] && s[0] == '+' ==> s == "+" + r
    ensures s == [] || s[0] != '+' ==> r == s
  {
    if s != [] && s[0] == '+' then s[1..] else s
  }

  /** The scan stops at the first non-digit: when the digits before it fit in
      u64, the error is InvalidDigit, whatever follows. */
  lemma {:induction false} ParseDigitsInvalid(ds: string, k: nat)
    requires k < |ds| && !IsDigit(ds[k])
    requires AllDigits(ds[..k]) && DecimalValue(ds[..k]) <= U64_MAX
    ensures ParseDigits(ds) == Err(ParseIntError(InvalidDigit))
    decreases |ds|
  {
    var init := ds[..|ds| - 1];
    if k == |ds| - 1 {
      assert init == ds[..k];
    } else {
      assert init[..k] == ds[..k];
      ParseDigitsInvalid(init, k);
    }
  }

  /** `u64::from_str`. */
  function ParseU64(s: string): (r: Result<u64, ParseIntError>)
    ensures r == Err(ParseIntError(Empty)) <==> s == []
    ensures r.Ok? <==> Unsigned(s) != [] && AllDigits(Unsigned(s)) && DecimalValue(Unsigned(s)) <= U64_MAX
    ensures r.Ok? ==> r.value == DecimalValue(Unsigned(s))
    ensures r.Err? && Unsigned(s) != [] && AllDigits(Unsigned(s)) ==> r.error == ParseIntError(PosOverflow)
  {
    if s == [] then Err(ParseIntError(Empty))
    else if (s[0] == '+' || s[0] == '-') && |s| == 1 then Err(ParseIntError(InvalidDigit))
    else if s[0] == '+' then ParseDigits(s[1..])
    else ParseDigits(s)
  }

  /** `std::time::Duration`: whole seconds and the nanoseconds below one second. */
  datatype Duration = Duration(secs: u64, nanos: nat)

  /** `parse_duration`: the text as a whole number of seconds, or the integer
      parser's error unchanged. */
  function ParseDuration(s: string): (r: Result<Duration, ParseIntError>)
    ensures r.Ok? <==> ParseU64(s).Ok?
    ensures r.Ok? ==> r.value.nanos == 0 && r.value.secs == ParseU64(s).value
    ensures r.Err? ==> r.error == ParseU64(s).error
  {
    match ParseU64(s)
    case Ok(secs) => Ok(Duration(secs, 0))
    case Err(e) => Err(e)
  }

  lemma {:induction false} DecimalValueOfDecimal(n: nat)
    ensures DecimalValue(Decimal(n)) == n
  {
    if n >= 10 {
      var ds := Decimal(n);
      assert ds[..|ds| - 1] == Decimal(n / 10);
      DecimalValueOfDecimal(n / 10);
    }
  }

  /** Every u64 written in decimal, with or without a leading `+`, parses back
      to exactly that many seconds. */
  lemma ParseDurationRoundTrip(n: u64)
    ensures ParseDuration(Decimal(n)) == Ok(Duration(n, 0))
    ensures ParseDuration("+" + Decimal(n)) == Ok(Duration(n, 0))
  {
    DecimalValueOfDecimal(n);
    assert Unsigned("+" + Decimal(n)) == Decimal(n);
  }

  /** Concrete cases: the default interval, signs, a fraction, and `u64::MAX + 1`. */
  lemma ParseDurationExamples()
    ensures ParseDuration("30") == Ok(Duration(30, 0))
    ensures ParseDuration("") == Err(ParseIntError(Empty))
    ensures ParseDuration("+") == Err(ParseIntError(InvalidDigit))
    ensures ParseDuration("-5") == Err(ParseIntError(InvalidDigit))
    ensures ParseDuration("1.5") == Err(ParseIntError(InvalidDigit))
    ensures ParseDuration(Decimal(U64_MAX + 1)) == Err(ParseIntError(PosOverflow))
  {
    assert ParseDigits("30") == Ok(30) by {
      assert "30"[..1] == "3";
      assert "3"[..0] == "";
    }
    assert "-5"[..1] == "-";
    assert "1.5"[..2] == "1." && "1."[..1] == "1" && "1"[..0] == "";
    DecimalValueOfDecimal(U64_MAX + 1);
  }

  // ---------------------------------------------------------------------------
  // log level

  /** `log::LevelFilter`, in the crate's order from least to most verbose. */
  datatype LevelFilter = Off | Error | Warn | Info | Debug | Trace
  {
    function Rank(): nat {
      match this
      case Off => 0
      case Error => 1
      case Warn => 2
      case Info => 3
      case Debug => 4
      case Trace => 5
    }
  }

  /** The log level selected by the number of `-v` flags. */
  function LevelFor(verbose: u8): (l: LevelFilter)
    ensures l.Rank() == 2 + (if verbose < 3 then verbose else 3)
    ensures verbose >= 3 <==> l == Trace
  {
    match verbose
    case 0 => Warn
    case 1 => Info
    case 2 => Debug
    case _ => Trace
  }

  /** More `-v` flags never select a less verbose level. */
  lemma LevelForMonotone(v1: u8, v2: u8)
    requires v1 <= v2
    ensures LevelFor(v1).Rank() <= LevelFor(v2).Rank()
  {
  }

  // ---------------------------------------------------------------------------
  // exit channel and exit decision

  /** A message on the exit channel: whether it comes from the Ctrl-C handler,
      and the exit code it proposes. */
  datatype ExitMessage = ExitMessage(ctrlC: bool, rc: i32)

  /** What the Ctrl-C handler sends. */
  const CTRL_C_MESSAGE := ExitMessage(true, 0)

  /** What the spawned task sends once `execute` returns. */
  function TaskMessage(result: Result<(), string>): (m: ExitMessage)
    ensures !m.ctrlC
    ensures result.Ok? <==> m.rc == 0
    ensures result.Err? <==> m.rc == -1
  {
    var rc := if result.Err? then -1 else 0;
    ExitMessage(false, rc)
  }

  /** The decision `main` takes: whether to abort the task, and the process exit code. */
  datatype Exit = Exit(abortTask: bool, code: int)

  /** `main` after spawning the task: it waits for the first message on the exit
      channel. A message decides (abort the task when it came from Ctrl-C, exit
      with its code); with no message and every sender gone the receive fails,
      `main` returns that error and the process exits with 1; with no message
      and a sender alive it keeps waiting (`None`). In the program the
      senders are never all gone: the Ctrl-C handler closure owns one for the
      life of the process (main.rs:71-74), so the second case cannot occur. */
  function MainExit(messages: seq<ExitMessage>, sendersDropped: bool): (r: Option<Exit>)
    ensures messages != [] ==> r.Some? && r.value.code == messages[0].rc
    ensures messages != [] ==> (r.value.abortTask <==> messages[0].ctrlC)
    ensures messages == [] && sendersDropped ==> r == Some(Exit(false, 1))
    ensures r.None? <==> messages == [] && !sendersDropped
  {
    if messages != [] then Some(Exit(messages[0].ctrlC, messages[0].rc))
    else if sendersDropped then Some(Exit(false, 1))
    else None
  }

  /** Only the first message counts: whatever follows it, and whether the
      senders are gone, the decision is the same. */
  lemma FirstMessageDecides(m: ExitMessage, rest1: seq<ExitMessage>, rest2: seq<ExitMessage>, d1: bool, d2: bool)
    ensures MainExit([m] + rest1, d1) == MainExit([m] + rest2, d2)
  {
  }

  /** Ctrl-C first: the task is aborted and the process exits with 0. */
  lemma InterruptExitsCleanly(rest: seq<ExitMessage>, dropped: bool)
    ensures MainExit([CTRL_C_MESSAGE] + rest, dropped) == Some(Exit(true, 0))
  {
  }

  /** The task first: no abort, and the exit code is 0 on success and -1 on error. */
  lemma TaskExit(result: Result<(), string>, rest: seq<ExitMessage>, dropped: bool)
    ensures MainExit([TaskMessage(result)] + rest, dropped) == Some(Exit(false, if result.Ok? then 0 else -1))
  {
  }

  // ---------------------------------------------------------------------------
  // execute

  const STREAM_ERROR_PREFIX := "error while streaming DAQ data: "

  datatype Command = Stream | Get

  /** `execute`: the outcome of the subcommand, with a streaming failure's
      message prefixed and a `get` failure passed on unchanged. */
  function Execute(cmd: Command, outcome: Result<(), string>): (r: Result<(), string>)
    ensures r.Ok? <==> outcome.Ok?
    ensures r.Err? && cmd == Stream ==>
      |r.error| == |STREAM_ERROR_PREFIX| + |outcome.error|
      && r.error[..|STREAM_ERROR_PREFIX|] == STREAM_ERROR_PREFIX
      && r.error[|STREAM_ERROR_PREFIX|..] == outcome.error
    ensures r.Err? && cmd == Get ==> r.error == outcome.error
  {
    match outcome
    case Ok(_) => Ok(())
    case Err(e) => if cmd == Stream then Err(STREAM_ERROR_PREFIX + e) else Err(e)
  }

  /** A failed stream reaches `main` as a -1 exit code, unless Ctrl-C came first. */
  lemma StreamFailureExit(cause: string, dropped: bool)
    ensures TaskMessage(Execute(Stream, Err(cause))) == ExitMessage(false, -1)
    ensures MainExit([TaskMessage(Execute(Stream, Err(cause)))], dropped) == Some(Exit(false, -1))
  {
  }
}
