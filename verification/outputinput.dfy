/** `PinOutputInput`: a pin committed to open-drain input and output. It is an
    input configuration (its `input` part keeps level read, pull mode and
    wakeup) that can also release the line or pull it low, and exposes the
    drive-strength operations. */
module OutputInput {
  import opened Status
  import opened Capability
  import opened Values
  import opened Hal
  import Base
  import Input

  datatype PinOutputInput = PinOutputInput(input: Input.PinInput)

  function Pin(p: PinOutputInput): uint32
  {
    Input.Pin(p.input)
  }

  /** `PinOutputInput::PinOutputInput`: the input constructor (reset, then
      input direction) followed by the open-drain input/output direction. */
  function Construct(d: Driver, h: seq<Call>, num: GpioNum): (r: Step<PinOutputInput>)
    ensures Executes(d, h,
      [GpioResetPin(num.value),
       GpioSetDirection(num.value, GPIO_MODE_INPUT),
       GpioSetDirection(num.value, GPIO_MODE_INPUT_OUTPUT_OD)], r)
    ensures r.out.Success? ==> r.out.value.input.base.num == num
  {
    var i := Input.Construct(d, h, num);
    var c := GpioSetDirection(num.value, GPIO_MODE_INPUT_OUTPUT_OD);
    var plan := [GpioResetPin(num.value), GpioSetDirection(num.value, GPIO_MODE_INPUT)];
    var wrap := (q: Input.PinInput) => PinOutputInput(q);
    ThenExecutes(d, h, plan, i, c, wrap);
    assert plan + [c] == [plan[0], plan[1], c];
    Then(d, h, i, c, wrap)
  }

  /** `PinOutputInput::setFloating`: writes level 1, which in open-drain
      wiring releases the line. */
  function SetFloating(d: Driver, h: seq<Call>, p: PinOutputInput): (r: Step<()>)
    ensures Executes(d, h, [GpioSetLevel(Pin(p), 1)], r)
  {
    Invoke(d, h, GpioSetLevel(Pin(p), 1))
  }

  /** `PinOutputInput::setLow`: pulls the line low. */
  function SetLow(d: Driver, h: seq<Call>, p: PinOutputInput): (r: Step<()>)
    ensures Executes(d, h, [GpioSetLevel(Pin(p), 0)], r)
  {
    Invoke(d, h, GpioSetLevel(Pin(p), 0))
  }

  /** The base class's `setDriveStrength`, made public. */
  function SetDriveStrength(d: Driver, h: seq<Call>, p: PinOutputInput, strength: DriveStrength): (r: Step<()>)
    ensures Executes(d, h, [GpioSetDriveCapability(Pin(p), strength.value)], r)
  {
    Base.SetDriveStrength(d, h, p.input.base, strength)
  }

  /** The base class's `getDriveStrength`, made public. */
  function GetDriveStrength(t: Target, d: Driver, h: seq<Call>, p: PinOutputInput): (r: Step<DriveStrength>)
    ensures r.calls == [GpioGetDriveCapability(Pin(p))]
    ensures r.out.Success? <==> Ok(d, h, r.calls) && ValidDriveStrength(t, Base.ReportedCap(d, h, Pin(p)))
    ensures r.out.Success? ==> r.out.value == DriveStrength(Base.ReportedCap(d, h, Pin(p)))
    ensures r.out.Failure? && !Ok(d, h, r.calls) ==> r.out.error.status == Reply(d, h, r.calls)
    ensures r.out.Failure? && Ok(d, h, r.calls) ==> r.out.error.status == ESP_ERR_INVALID_ARG
  {
    Base.GetDriveStrength(t, d, h, p.input.base)
  }
}
