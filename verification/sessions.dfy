/** What each configuration type lets a client do, stated over the driver
    calls it can cause. A session applies a configuration's public operations
    in program order, each after the calls of those before it, and ends at the
    first exception. The operation sets below are exactly the public members
    of `PinOutput`, `PinInput` and `PinOutputInput`. */
module Sessions {
  import opened Status
  import opened Capability
  import opened Values
  import opened Hal
  import Output
  import Input
  import OutputInput

  /** Calls that drive a pin: level writes and drive-strength access. */
  predicate OutputSide(pin: uint32, c: Call)
  {
    c.pin == pin && (c.GpioSetLevel? || c.GpioSetDriveCapability? || c.GpioGetDriveCapability?)
  }

  /** Calls that sense a pin: level reads, pull mode and wakeup control. */
  predicate InputSide(pin: uint32, c: Call)
  {
    c.pin == pin && (c.GpioGetLevel? || c.GpioSetPullMode? || c.GpioWakeupEnable? || c.GpioWakeupDisable?)
  }

  datatype OutputOp = OutHigh | OutLow | OutSetStrength(strength: DriveStrength) | OutGetStrength

  datatype InputOp =
    | InGetLevel
    | InSetPull(mode: PullMode)
    | InWakeupEnable(kind: WakeupIntrType)
    | InWakeupDisable

  /** The open-drain configuration inherits every input operation. */
  datatype OpenDrainOp =
    | OdInput(op: InputOp)
    | OdFloating
    | OdLow
    | OdSetStrength(strength: DriveStrength)
    | OdGetStrength

  function ApplyOutput(t: Target, d: Driver, h: seq<Call>, p: Output.PinOutput, op: OutputOp): (r: Step<()>)
    ensures |r.calls| == 1 && OutputSide(Output.Pin(p), r.calls[0])
  {
    match op
    case OutHigh => Output.SetHigh(d, h, p)
    case OutLow => Output.SetLow(d, h, p)
    case OutSetStrength(s) => Output.SetDriveStrength(d, h, p, s)
    case OutGetStrength => Lift(Output.GetDriveStrength(t, d, h, p), ())
  }

  function ApplyInput(d: Driver, h: seq<Call>, p: Input.PinInput, op: InputOp): (r: Step<()>)
    ensures |r.calls| == 1 && InputSide(Input.Pin(p), r.calls[0])
  {
    match op
    case InGetLevel => Step(Success(()), Input.GetLevel(d, h, p).calls)
    case InSetPull(m) => Input.SetPullMode(d, h, p, m)
    case InWakeupEnable(k) => Input.WakeupEnable(d, h, p, k)
    case InWakeupDisable => Input.WakeupDisable(d, h, p)
  }

  function ApplyOpenDrain(t: Target, d: Driver, h: seq<Call>, p: OutputInput.PinOutputInput, op: OpenDrainOp): (r: Step<()>)
    ensures |r.calls| == 1
    ensures InputSide(OutputInput.Pin(p), r.calls[0]) || OutputSide(OutputInput.Pin(p), r.calls[0])
  {
    match op
    case OdInput(i) => ApplyInput(d, h, p.input, i)
    case OdFloating => OutputInput.SetFloating(d, h, p)
    case OdLow => OutputInput.SetLow(d, h, p)
    case OdSetStrength(s) => OutputInput.SetDriveStrength(d, h, p, s)
    case OdGetStrength => Lift(OutputInput.GetDriveStrength(t, d, h, p), ())
  }

  /** A session: `ops` applied in order after history `h`, stopping at the
      first exception. */
  function Run<Op>(apply: (seq<Call>, Op) -> Step<()>, h: seq<Call>, ops: seq<Op>): Step<()>
    decreases |ops|
  {
    if |ops| == 0 then Step(Success(()), [])
    else
      var first := apply(h, ops[0]);
      if first.out.Failure? then first
      else
        var rest := Run(apply, h + first.calls, ops[1..]);
        Step(rest.out, first.calls + rest.calls)
  }

  /** When every operation issues exactly one call of an allowed kind, a
      session issues only allowed calls, at most one per operation, and one
      per operation exactly when it completes. */
  lemma {:induction false} RunStaysWithin<Op>(apply: (seq<Call>, Op) -> Step<()>, allowed: Call -> bool, h: seq<Call>, ops: seq<Op>)
    requires forall h', op :: |apply(h', op).calls| == 1 && allowed(apply(h', op).calls[0])
    ensures forall i | 0 <= i < |Run(apply, h, ops).calls| :: allowed(Run(apply, h, ops).calls[i])
    ensures |Run(apply, h, ops).calls| <= |ops|
    ensures Run(apply, h, ops).out.Success? ==> |Run(apply, h, ops).calls| == |ops|
    decreases |ops|
  {
    if |ops| > 0 {
      var first := apply(h, ops[0]);
      if first.out.Success? {
        RunStaysWithin(apply, allowed, h + first.calls, ops[1..]);
        var rest := Run(apply, h + first.calls, ops[1..]);
        assert Run(apply, h, ops).calls == first.calls + rest.calls;
        forall i | 0 <= i < |first.calls + rest.calls|
          ensures allowed((first.calls + rest.calls)[i])
        {
          if i >= |first.calls| {
            assert (first.calls + rest.calls)[i] == rest.calls[i - |first.calls|];
          }
        }
      }
    }
  }

  /** A `PinOutput` session only drives its own pin: it never reads the level,
      sets a pull mode, touches wakeup, resets the pin or changes direction. */
  lemma OutputSessionDrivesOnly(t: Target, d: Driver, h: seq<Call>, p: Output.PinOutput, ops: seq<OutputOp>)
    ensures var r := Run((h', op) => ApplyOutput(t, d, h', p, op), h, ops);
      && |r.calls| <= |ops|
      && forall i | 0 <= i < |r.calls| ::
           OutputSide(Output.Pin(p), r.calls[i]) && !InputSide(Output.Pin(p), r.calls[i])
  {
    RunStaysWithin((h', op) => ApplyOutput(t, d, h', p, op), c => OutputSide(Output.Pin(p), c), h, ops);
  }

  /** A `PinInput` session only senses its own pin: it never writes a level,
      touches the drive strength, resets the pin or changes direction. */
  lemma InputSessionSensesOnly(d: Driver, h: seq<Call>, p: Input.PinInput, ops: seq<InputOp>)
    ensures var r := Run((h', op) => ApplyInput(d, h', p, op), h, ops);
      && |r.calls| <= |ops|
      && forall i | 0 <= i < |r.calls| ::
           InputSide(Input.Pin(p), r.calls[i]) && !OutputSide(Input.Pin(p), r.calls[i])
  {
    RunStaysWithin((h', op) => ApplyInput(d, h', p, op), c => InputSide(Input.Pin(p), c), h, ops);
  }

  /** A `PinOutputInput` session both senses and drives its own pin, but
      never resets it or changes its direction. */
  lemma OpenDrainSessionStaysOnPin(t: Target, d: Driver, h: seq<Call>, p: OutputInput.PinOutputInput, ops: seq<OpenDrainOp>)
    ensures var r := Run((h', op) => ApplyOpenDrain(t, d, h', p, op), h, ops);
      && |r.calls| <= |ops|
      && forall i | 0 <= i < |r.calls| ::
           && r.calls[i].pin == OutputInput.Pin(p)
           && !r.calls[i].GpioResetPin?
           && !r.calls[i].GpioSetDirection?
  {
    RunStaysWithin((h', op) => ApplyOpenDrain(t, d, h', p, op),
                   c => InputSide(OutputInput.Pin(p), c) || OutputSide(OutputInput.Pin(p), c), h, ops);
  }
}
