/** Concrete situations: a target with 40 pins of which pin 24 is excluded,
    and a driver that answers every call OK and remembers the drive
    capability last written to each pin, as the hardware register does. */
module Scenarios {
  import opened Status
  import opened Capability
  import opened Values
  import opened Hal
  import Output
  import OutputInput
  import Input

  /** Pins 0..39 with 24 excluded, four drive-strength selectors. */
  const Board: Target := Target(40, 4, [24])

  /** The capability last written to `pin` in history `h`, or the medium
      strength the chip starts with when none was. */
  function LastCap(h: seq<Call>, pin: uint32): int
    decreases |h|
  {
    if |h| == 0 then GPIO_DRIVE_CAP_2
    else if h[|h| - 1].GpioSetDriveCapability? && h[|h| - 1].pin == pin then h[|h| - 1].cap
    else LastCap(h[..|h| - 1], pin)
  }

  /** A driver that never fails, reads every level as 0, and reports back
      the capability last written to the queried pin. */
  function Register(): Driver
  {
    Driver(
      _ => ESP_OK,
      _ => 0,
      (h: seq<Call>) => if |h| == 0 then GPIO_DRIVE_CAP_2 else LastCap(h, h[|h| - 1].pin))
  }

  /** Pin 4 is a pin number of the board; 24 (excluded) and 41 (beyond the
      bound) are refused with an invalid-argument exception before any
      configuration can be built from them. */
  lemma BoardPins()
    ensures MakeGpioNum(Board, 4) == Success(GpioNum(4))
    ensures MakeGpioNum(Board, 24) == Failure(GpioException(ESP_ERR_INVALID_ARG))
    ensures MakeGpioNum(Board, 41) == Failure(GpioException(ESP_ERR_INVALID_ARG))
  {
    assert 24 in Board.invalidGpios;
  }

  /** On a driver that never fails, an output on pin 4 is built with a reset
      and an output-direction call, and `setHigh` then `setLow` both succeed
      and write 1 then 0. */
  lemma OutputHighThenLow(h: seq<Call>)
    ensures var p := Output.Construct(Register(), h, GpioNum(4));
      && p.out.Success?
      && p.calls == [GpioResetPin(4), GpioSetDirection(4, GPIO_MODE_OUTPUT)]
      && var hi := Output.SetHigh(Register(), h + p.calls, p.out.value);
      && hi.out.Success? && hi.calls == [GpioSetLevel(4, 1)]
      && var lo := Output.SetLow(Register(), h + p.calls + hi.calls, p.out.value);
      && lo.out.Success? && lo.calls == [GpioSetLevel(4, 0)]
  {
    var p := Output.Construct(Register(), h, GpioNum(4));
    assert Ok(Register(), h, p.calls);
  }

  /** For any driver whose reset of the pin fails, every configuration
      constructor throws the reset's status after issuing only the reset:
      the direction is never set. */
  lemma ResetFailureStopsConstruction(d: Driver, h: seq<Call>, num: GpioNum)
    requires !Ok(d, h, [GpioResetPin(num.value)])
    ensures var e := GpioException(d.status(h + [GpioResetPin(num.value)]));
      && Output.Construct(d, h, num) == Step(Failure(e), [GpioResetPin(num.value)])
      && Input.Construct(d, h, num) == Step(Failure(e), [GpioResetPin(num.value)])
      && OutputInput.Construct(d, h, num) == Step(Failure(e), [GpioResetPin(num.value)])
  {
  }

  /** Writing a valid strength and reading it back on the same pin gives an
      equal strength. */
  lemma {:induction false} DriveStrengthRoundTrip(t: Target, h: seq<Call>, p: Output.PinOutput, s: DriveStrength)
    requires ValidDriveStrength(t, s.value)
    ensures var w := Output.SetDriveStrength(Register(), h, p, s);
      && w.out.Success?
      && Output.GetDriveStrength(t, Register(), h + w.calls, p).out == Success(s)
  {
    var pin := Output.Pin(p);
    var w := Output.SetDriveStrength(Register(), h, p, s);
    assert Ok(Register(), h, w.calls);
    var written := h + [GpioSetDriveCapability(pin, s.value)];
    var queried := written + [GpioGetDriveCapability(pin)];
    assert queried[..|queried| - 1] == written;
    assert LastCap(queried, pin) == LastCap(written, pin) == s.value;
  }

  /** The round trip for `STRONGEST()` on any target that has it. */
  lemma StrongestRoundTrip(t: Target, h: seq<Call>, p: Output.PinOutput)
    requires 3 < t.driveCapMax
    ensures var s := Strongest(t).value;
      var w := Output.SetDriveStrength(Register(), h, p, s);
      && w.out.Success?
      && Output.GetDriveStrength(t, Register(), h + w.calls, p).out == Strongest(t)
  {
    DriveStrengthRoundTrip(t, h, p, Strongest(t).value);
  }

  /** On a driver that never fails, releasing an open-drain pin and reading
      it back both complete without an exception; the level read is not
      constrained. */
  lemma OpenDrainFloatThenRead(h: seq<Call>, num: GpioNum)
    ensures var p := OutputInput.Construct(Register(), h, num);
      && p.out.Success?
      && var f := OutputInput.SetFloating(Register(), h + p.calls, p.out.value);
      && f.out.Success?
      && Input.GetLevel(Register(), h + p.calls + f.calls, p.out.value.input).calls == [GpioGetLevel(num.value)]
  {
    var p := OutputInput.Construct(Register(), h, num);
    assert Ok(Register(), h, p.calls);
  }
}
