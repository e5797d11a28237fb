/** `PinOutput`: a pin committed to output direction. It can drive the pin
    high or low and get or set the drive strength; it offers no level read,
    pull mode or wakeup operation. */
module Output {
  import opened Status
  import opened Capability
  import opened Values
  import opened Hal
  import Base

  datatype PinOutput = PinOutput(base: Base.Gpio)

  function Pin(p: PinOutput): uint32
  {
    Base.Pin(p.base)
  }

  /** `PinOutput::PinOutput`: reset, then commit to output direction. */
  function Construct(d: Driver, h: seq<Call>, num: GpioNum): (r: Step<PinOutput>)
    ensures Executes(d, h, [GpioResetPin(num.value), GpioSetDirection(num.value, GPIO_MODE_OUTPUT)], r)
    ensures r.out.Success? ==> r.out.value.base.num == num
  {
    var g := Base.Construct(d, h, num);
    var wrap := (b: Base.Gpio) => PinOutput(b);
    ThenExecutes(d, h, [GpioResetPin(num.value)], g, GpioSetDirection(num.value, GPIO_MODE_OUTPUT), wrap);
    Then(d, h, g, GpioSetDirection(num.value, GPIO_MODE_OUTPUT), wrap)
  }

  /** `PinOutput::setHigh`: drive level 1. */
  function SetHigh(d: Driver, h: seq<Call>, p: PinOutput): (r: Step<()>)
    ensures Executes(d, h, [GpioSetLevel(Pin(p), 1)], r)
  {
    Invoke(d, h, GpioSetLevel(Pin(p), 1))
  }

  /** `PinOutput::setLow`: drive level 0. */
  function SetLow(d: Driver, h: seq<Call>, p: PinOutput): (r: Step<()>)
    ensures Executes(d, h, [GpioSetLevel(Pin(p), 0)], r)
  {
    Invoke(d, h, GpioSetLevel(Pin(p), 0))
  }

  /** The base class's `setDriveStrength`, made public. */
  function SetDriveStrength(d: Driver, h: seq<Call>, p: PinOutput, strength: DriveStrength): (r: Step<()>)
    ensures Executes(d, h, [GpioSetDriveCapability(Pin(p), strength.value)], r)
  {
    Base.SetDriveStrength(d, h, p.base, strength)
  }

  /** The base class's `getDriveStrength`, made public. */
  function GetDriveStrength(t: Target, d: Driver, h: seq<Call>, p: PinOutput): (r: Step<DriveStrength>)
    ensures r.calls == [GpioGetDriveCapability(Pin(p))]
    ensures r.out.Success? <==> Ok(d, h, r.calls) && ValidDriveStrength(t, Base.ReportedCap(d, h, Pin(p)))
    ensures r.out.Success? ==> r.out.value == DriveStrength(Base.ReportedCap(d, h, Pin(p)))
    ensures r.out.Failure? && !Ok(d, h, r.calls) ==> r.out.error.status == Reply(d, h, r.calls)
    ensures r.out.Failure? && Ok(d, h, r.calls) ==> r.out.error.status == ESP_ERR_INVALID_ARG
  {
    Base.GetDriveStrength(t, d, h, p.base)
  }
}
