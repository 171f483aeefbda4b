/** The InfluxDB sink: encoding one DAQ snapshot into data points
    (`daq_data_to_points`), the batch timestamp, one receive/encode/write
    round (`receive_and_write_data`) and the drain loop that repeats it. */
module SinkInfluxDb {
  import opened Wrappers
  import opened IntTypes
  import J = JsonValue
  import MN = MeasurementName

  /** The declared type of a reading. */
  datatype DataType = Boolean | Integer | Float | String

  datatype Description = Description(id: string, name: string, typ: DataType)

  /** One reading entry: its description and its dynamically typed value. */
  datatype DaqValue = DaqValue(description: Description, value: J.Value)

  /** One snapshot of readings, in the order the device reported them. */
  datatype DaqData = DaqData(values: seq<DaqValue>)

  /** The typed value of a point's field: bool, i64, f64 or string. */
  datatype FieldValue = BoolField(b: bool) | IntField(i: i64) | FloatField(f: J.F64) | StrField(s: string)
  {
    function Kind(): DataType {
      match this
      case BoolField(_) => Boolean
      case IntField(_) => Integer
      case FloatField(_) => Float
      case StrField(_) => String
    }
  }

  /** The only field key the encoder writes. */
  const FIELD_KEY := "value"

  datatype DataPoint = DataPoint(measurement: string, fieldKey: string, field: FieldValue, timestamp: i64)

  /** The client library's `DataPoint` builder, whose `build` is not part of this
      model: given the point it would build, it answers `Some(error)` when it
      refuses it and `None` when it builds exactly that point. */
  type BuildCheck = DataPoint -> Option<string>

  /** The value used when the reading's value cannot be read as its declared type. */
  function Default(typ: DataType): (f: FieldValue)
    ensures f.Kind() == typ
  {
    match typ
    case Boolean => BoolField(false)
    case Integer => IntField(0)
    case Float => FloatField(J.ZERO)
    case String => StrField("")
  }

  /** Whether the dynamic value reads as the declared type (serde_json's accessors). */
  predicate Readable(typ: DataType, v: J.Value) {
    match typ
    case Boolean => J.AsBool(v).Some?
    case Integer => J.AsI64(v).Some?
    case Float => J.AsF64(v).Some?
    case String => J.AsStr(v).Some?
  }

  /** The `"value"` field chosen by the declared type, defaulting on a mismatch. */
  function Field(typ: DataType, v: J.Value): (f: FieldValue)
    ensures f.Kind() == typ
    ensures !Readable(typ, v) ==> f == Default(typ)
    ensures typ == Boolean ==> (f.b <==> v == J.Bool(true))
    ensures typ == String ==> f.s == (if v.String? then v.s else "")
    ensures typ == Integer && v.Number? && v.n.NegInt? ==> f.i == v.n.i
    ensures typ == Integer && v.Number? && v.n.PosInt? && v.n.u <= I64_MAX ==> f.i == v.n.u
  {
    match typ
    case Boolean => BoolField(J.AsBool(v).UnwrapOr(false))
    case Integer => IntField(J.AsI64(v).UnwrapOr(0))
    case Float => FloatField(J.AsF64(v).UnwrapOr(J.ZERO))
    case String => StrField(J.AsStr(v).UnwrapOr(""))
  }

  /** An Integer reading holding a string, a float or an integer beyond i64 encodes as 0. */
  lemma IntegerMismatchIsZero(v: J.Value)
    requires v.String? || (v.Number? && v.n.Float?) || (v.Number? && v.n.PosInt? && v.n.u > I64_MAX)
    ensures Field(Integer, v) == IntField(0)
  {
  }

  /** A Float reading holding anything but a number encodes as 0.0. */
  lemma FloatMismatchIsZero(v: J.Value)
    requires !v.Number?
    ensures Field(Float, v) == FloatField(J.ZERO)
  {
  }

  /** The point built for one reading, before the client library's `build`. */
  function EntryPoint(v: DaqValue, timestamp: i64): (p: DataPoint)
    ensures p.measurement == MN.Name(v.description.id, v.description.name)
    ensures MN.NoWhitespace(p.measurement)
    ensures p.fieldKey == FIELD_KEY
    ensures p.field.Kind() == v.description.typ
    ensures p.field == Field(v.description.typ, v.value)
    ensures p.timestamp == timestamp
  {
    DataPoint(MN.Name(v.description.id, v.description.name), FIELD_KEY,
              Field(v.description.typ, v.value), timestamp)
  }

  function Build(p: DataPoint, check: BuildCheck): (r: Result<DataPoint, string>)
    ensures r.Ok? <==> check(p).None?
    ensures r.Ok? ==> r.value == p
    ensures r.Err? ==> check(p) == Some(r.error)
  {
    match check(p)
    case None => Ok(p)
    case Some(e) => Err(e)
  }

  /** What encoding a snapshot yields: every entry builds and the result is one
      point per entry, in order, all with the given timestamp; or the error of
      the first entry that fails to build, and no points at all. */
  ghost predicate EncodesAs(values: seq<DaqValue>, timestamp: i64, check: BuildCheck,
                            r: Result<seq<DataPoint>, string>)
  {
    && (r.Ok? <==> forall i :: 0 <= i < |values| ==> check(EntryPoint(values[i], timestamp)).None?)
    && (r.Ok? ==> |r.value| == |values|
                  && forall i :: 0 <= i < |values| ==> r.value[i] == EntryPoint(values[i], timestamp))
    && (r.Err? ==> exists k :: FirstFailure(values, timestamp, check, k, r.error))
  }

  ghost predicate FirstFailure(values: seq<DaqValue>, timestamp: i64, check: BuildCheck, k: int, e: string) {
    && 0 <= k < |values|
    && check(EntryPoint(values[k], timestamp)) == Some(e)
    && forall i :: 0 <= i < k ==> check(EntryPoint(values[i], timestamp)).None?
  }

  /** The encoding as a function, for use in the round and the drain loop. */
  function EncodeAll(values: seq<DaqValue>, timestamp: i64, check: BuildCheck): (r: Result<seq<DataPoint>, string>)
    ensures EncodesAs(values, timestamp, check, r)
  {
    if values == [] then Ok([])
    else
      match Build(EntryPoint(values[0], timestamp), check)
      case Err(e) => (assert FirstFailure(values, timestamp, check, 0, e); Err(e))
      case Ok(p) =>
        var rest := EncodeAll(values[1..], timestamp, check);
        match rest
        case Err(e) =>
          ghost var k :| FirstFailure(values[1..], timestamp, check, k, e);
          assert FirstFailure(values, timestamp, check, k + 1, e);
          Err(e)
        case Ok(ps) => Ok([p] + ps)
  }

  /** Encoding is deterministic: the same snapshot, timestamp and build step
      give the same points (or the same error) every time. */
  lemma EncodesAsUnique(values: seq<DaqValue>, timestamp: i64, check: BuildCheck,
                        r1: Result<seq<DataPoint>, string>, r2: Result<seq<DataPoint>, string>)
    requires EncodesAs(values, timestamp, check, r1)
    requires EncodesAs(values, timestamp, check, r2)
    ensures r1 == r2
  {
    if r1.Ok? {
      assert r1.value == r2.value;
    } else {
      var k1 :| FirstFailure(values, timestamp, check, k1, r1.error);
      var k2 :| FirstFailure(values, timestamp, check, k2, r2.error);
      assert k1 == k2;
    }
  }

  /** `daq_data_to_points`: push one point per entry, leaving at the first
      entry whose point fails to build. */
  method DaqDataToPoints(daq: DaqData, timestamp: i64, check: BuildCheck)
    returns (r: Result<seq<DataPoint>, string>)
    ensures EncodesAs(daq.values, timestamp, check, r)
  {
    var points: seq<DataPoint> := [];
    for i := 0 to |daq.values|
      invariant |points| == i
      invariant forall j :: 0 <= j < i ==> points[j] == EntryPoint(daq.values[j], timestamp)
      invariant forall j :: 0 <= j < i ==> check(EntryPoint(daq.values[j], timestamp)).None?
    {
      var v := daq.values[i];
      var desc := v.description;
      var name := MN.Name(desc.id, desc.name);
      var field := Field(desc.typ, v.value);
      var built := Build(DataPoint(name, FIELD_KEY, field, timestamp), check);
      if built.Err? {
        assert FirstFailure(daq.values, timestamp, check, i, built.error);
        return Err(built.error);
      }
      points := points + [built.value];
    }
    return Ok(points);
  }

  /** The batch timestamp: nanoseconds since the epoch, saturated at `i64::MAX`. */
  function Timestamp(nanos: nat): (t: i64)
    ensures 0 <= t <= nanos
    ensures t == nanos <==> nanos <= I64_MAX
    ensures t < nanos ==> t == I64_MAX
  {
    if nanos <= I64_MAX then nanos else I64_MAX
  }

  /** A later clock reading never gives an earlier timestamp. */
  lemma TimestampMonotone(n1: nat, n2: nat)
    requires n1 <= n2
    ensures Timestamp(n1) <= Timestamp(n2)
  {
  }

  /** What one round of the loop receives from its collaborators: the queue,
      the clock (time since the epoch, or the error for a clock set before it)
      and the outcome of the write call (`None` when it succeeds). */
  datatype Received = Received(daq: DaqData) | RecvFailed(cause: string)
  datatype Clock = SinceEpoch(nanos: nat) | BeforeEpoch(cause: string)
  datatype Round = Round(received: Received, clock: Clock, writeFailure: Option<string>)

  datatype RoundError =
    | ReceiveError(cause: string)
    | ClockError(cause: string)
    | EncodeError(cause: string)
    | WriteError(cause: string)
  {
    /** The text the loop logs for the error. */
    function Message(): (m: string)
      ensures ReceiveError? ==> m == "error receiving DAQ data: " + cause
      ensures WriteError? ==> m == "error inserting into influxdb: " + cause
      ensures ClockError? || EncodeError? ==> m == cause
    {
      match this
      case ReceiveError(c) => "error receiving DAQ data: " + c
      case WriteError(c) => "error inserting into influxdb: " + c
      case ClockError(c) => c
      case EncodeError(c) => c
    }
  }

  /** The outcome of one round and the batch it submitted to the write call, if any. */
  datatype RoundResult = RoundResult(outcome: Result<(), RoundError>, written: Option<seq<DataPoint>>)

  /** `receive_and_write_data` as a function of its inputs: the first failing
      step decides the error; a batch is submitted only when it was received,
      time-stamped and fully encoded, and the round succeeds only when that
      write succeeds too. */
  function RoundSpec(round: Round, check: BuildCheck): (r: RoundResult)
    ensures r.written.Some? <==>
      && round.received.Received?
      && round.clock.SinceEpoch?
      && EncodeAll(round.received.daq.values, Timestamp(round.clock.nanos), check).Ok?
    ensures r.written.Some? ==>
      && |r.written.value| == |round.received.daq.values|
      && forall i :: 0 <= i < |r.written.value| ==> r.written.value[i].timestamp == Timestamp(round.clock.nanos)
    ensures r.written.Some? ==>
      r.written.value == EncodeAll(round.received.daq.values, Timestamp(round.clock.nanos), check).value
    ensures r.outcome.Ok? <==> r.written.Some? && round.writeFailure.None?
    ensures round.received.RecvFailed? ==> r.outcome == Err(ReceiveError(round.received.cause))
    ensures round.received.Received? && round.clock.BeforeEpoch? ==>
      r.outcome == Err(ClockError(round.clock.cause))
    ensures (round.received.Received? && round.clock.SinceEpoch?
             && EncodeAll(round.received.daq.values, Timestamp(round.clock.nanos), check).Err?) ==>
      r.outcome == Err(EncodeError(EncodeAll(round.received.daq.values, Timestamp(round.clock.nanos), check).error))
    ensures r.written.Some? && round.writeFailure.Some? ==>
      r.outcome == Err(WriteError(round.writeFailure.value))
  {
    match round.received
    case RecvFailed(c) => RoundResult(Err(ReceiveError(c)), None)
    case Received(daq) =>
      match round.clock
      case BeforeEpoch(c) => RoundResult(Err(ClockError(c)), None)
      case SinceEpoch(nanos) =>
        match EncodeAll(daq.values, Timestamp(nanos), check)
        case Err(e) => RoundResult(Err(EncodeError(e)), None)
        case Ok(points) =>
          var outcome := if round.writeFailure.Some? then Err(WriteError(round.writeFailure.value)) else Ok(());
          RoundResult(outcome, Some(points))
  }

  /** `receive_and_write_data`: one round, leaving at the first step that fails. */
  method ReceiveAndWriteData(round: Round, check: BuildCheck)
    returns (outcome: Result<(), RoundError>, written: Option<seq<DataPoint>>)
    ensures RoundResult(outcome, written) == RoundSpec(round, check)
  {
    written := None;
    if round.received.RecvFailed? {
      return Err(ReceiveError(round.received.cause)), None;
    }
    var daq := round.received.daq;
    if round.clock.BeforeEpoch? {
      return Err(ClockError(round.clock.cause)), None;
    }
    var timestamp := Timestamp(round.clock.nanos);
    var points := DaqDataToPoints(daq, timestamp, check);
    EncodesAsUnique(daq.values, timestamp, check, points, EncodeAll(daq.values, timestamp, check));
    if points.Err? {
      return Err(EncodeError(points.error)), None;
    }
    written := Some(points.value);
    if round.writeFailure.Some? {
      return Err(WriteError(round.writeFailure.value)), written;
    }
    return Ok(()), written;
  }

  /** The batches the loop submits to the write call over a run of rounds, in order. */
  function Writes(rounds: seq<Round>, check: BuildCheck): (ws: seq<seq<DataPoint>>)
    ensures |ws| <= |rounds|
  {
    if rounds == [] then [] else Batch(rounds[0], check) + Writes(rounds[1..], check)
  }

  /** The batch one round submits, as a list of zero or one batches. */
  function Batch(round: Round, check: BuildCheck): seq<seq<DataPoint>> {
    var w := RoundSpec(round, check).written;
    if w.Some? then [w.value] else []
  }

  /** Per-batch isolation: the batches written for the later rounds of a run are
      the ones those rounds would write on their own, whatever the earlier
      rounds did (a failed receive, encode or write included). */
  lemma {:induction false} WritesAppend(earlier: seq<Round>, later: seq<Round>, check: BuildCheck)
    ensures Writes(earlier + later, check) == Writes(earlier, check) + Writes(later, check)
  {
    if earlier == [] {
      assert earlier + later == later;
    } else {
      var all := earlier + later;
      assert all[0] == earlier[0] && all[1..] == earlier[1..] + later;
      WritesAppend(earlier[1..], later, check);
      var first := Batch(earlier[0], check);
      calc {
        Writes(all, check);
        first + Writes(earlier[1..] + later, check);
        first + (Writes(earlier[1..], check) + Writes(later, check));
        (first + Writes(earlier[1..], check)) + Writes(later, check);
      }
    }
  }

  /** When every round receives, stamps, encodes and writes, each round writes
      its own snapshot's points, in the order the snapshots were received. */
  lemma {:induction false} WritesAllSucceed(rounds: seq<Round>, check: BuildCheck)
    requires forall k :: 0 <= k < |rounds| ==> RoundSpec(rounds[k], check).outcome.Ok?
    ensures |Writes(rounds, check)| == |rounds|
    ensures forall k :: 0 <= k < |rounds| ==> Writes(rounds, check)[k] == RoundSpec(rounds[k], check).written.value
  {
    if rounds != [] {
      var first := RoundSpec(rounds[0], check).written.value;
      BatchOfSuccess(rounds[0], check);
      WritesAllSucceed(rounds[1..], check);
      var rest := Writes(rounds[1..], check);
      assert Writes(rounds, check) == [first] + rest;
      forall k | 1 <= k < |rounds|
        ensures Writes(rounds, check)[k] == RoundSpec(rounds[k], check).written.value
      {
        assert rounds[1..][k - 1] == rounds[k];
      }
    }
  }

  lemma BatchOfSuccess(round: Round, check: BuildCheck)
    requires RoundSpec(round, check).outcome.Ok?
    ensures Batch(round, check) == [RoundSpec(round, check).written.value]
  {
  }

  /** `drain`: the loop never leaves; each round's error is logged and the next
      round follows. The model runs the loop body over any finite prefix of
      rounds: one outcome per round, each the round's own, and the batches
      submitted in the order they were received. */
  method Drain(rounds: seq<Round>, check: BuildCheck)
    returns (outcomes: seq<Result<(), RoundError>>, writes: seq<seq<DataPoint>>)
    ensures |outcomes| == |rounds|
    ensures forall k :: 0 <= k < |rounds| ==> outcomes[k] == RoundSpec(rounds[k], check).outcome
    ensures writes == Writes(rounds, check)
  {
    outcomes, writes := [], [];
    for i := 0 to |rounds|
      invariant |outcomes| == i
      invariant forall k :: 0 <= k < i ==> outcomes[k] == RoundSpec(rounds[k], check).outcome
      invariant writes == Writes(rounds[..i], check)
    {
      var outcome, written := ReceiveAndWriteData(rounds[i], check);
      outcomes := outcomes + [outcome];
      assert rounds[..i + 1] == rounds[..i] + [rounds[i]];
      WritesAppend(rounds[..i], [rounds[i]], check);
      WritesOne(rounds[i], check, written);
      if written.Some? {
        writes := writes + [written.value];
      }
    }
    assert rounds[..|rounds|] == rounds;
  }

  lemma WritesOne(round: Round, check: BuildCheck, written: Option<seq<DataPoint>>)
    requires written == RoundSpec(round, check).written
    ensures Writes([round], check) == if written.Some? then [written.value] else []
  {
    assert [round][1..] == [];
  }

  /** A round that receives a two-entry snapshot and succeeds. */
  predicate TwoEntryRound(round: Round, check: BuildCheck) {
    && round.received.Received?
    && |round.received.daq.values| == 2
    && RoundSpec(round, check).outcome.Ok?
  }

  /** Three successful polls of two entries each, written successfully at
      three distinct times below `i64::MAX`: the sink sees exactly three
      batches of two points, in order, each batch sharing one timestamp that
      differs from the other batches'. */
  lemma EndToEnd(rounds: seq<Round>, check: BuildCheck)
    requires |rounds| == 3
    requires forall k :: 0 <= k < 3 ==> TwoEntryRound(rounds[k], check)
    requires forall k :: 0 <= k < 3 ==> rounds[k].clock.SinceEpoch? && rounds[k].clock.nanos <= I64_MAX
    requires rounds[0].clock.nanos < rounds[1].clock.nanos < rounds[2].clock.nanos
    ensures |Writes(rounds, check)| == 3
    ensures forall k :: 0 <= k < 3 ==> |Writes(rounds, check)[k]| == 2
    ensures forall k, i :: 0 <= k < 3 && 0 <= i < 2 ==> Writes(rounds, check)[k][i].timestamp == rounds[k].clock.nanos
    ensures forall k :: 0 <= k < 3 ==> RoundSpec(rounds[k], check).written == Some(Writes(rounds, check)[k])
  {
    WritesAllSucceed(rounds, check);
  }
}
