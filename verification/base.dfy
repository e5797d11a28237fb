/** `GPIO`, the shared base of every pin configuration: it owns a validated pin
    number, resets the pin when constructed, and carries the hold and
    drive-strength operations the direction-specific configurations expose
    selectively. */
module Base {
  import opened Status
  import opened Capability
  import opened Values
  import opened Hal

  datatype Gpio = Gpio(num: GpioNum)

  /** The raw pin number every driver call of `g` is addressed to. */
  function Pin(g: Gpio): uint32
  {
    g.num.value
  }

  /** `GPIO::GPIO`: reset the pin; the object exists only if the reset
      succeeded. */
  function Construct(d: Driver, h: seq<Call>, num: GpioNum): (r: Step<Gpio>)
    ensures Executes(d, h, [GpioResetPin(num.value)], r)
    ensures r.out.Success? ==> r.out.value.num == num
  {
    Lift(Invoke(d, h, GpioResetPin(num.value)), Gpio(num))
  }

  /** `GPIO::holdEnable`. */
  function HoldEnable(d: Driver, h: seq<Call>, g: Gpio): (r: Step<()>)
    ensures Executes(d, h, [GpioHoldEn(Pin(g))], r)
  {
    Invoke(d, h, GpioHoldEn(Pin(g)))
  }

  /** `GPIO::holdDisable`. */
  function HoldDisable(d: Driver, h: seq<Call>, g: Gpio): (r: Step<()>)
    ensures Executes(d, h, [GpioHoldDis(Pin(g))], r)
  {
    Invoke(d, h, GpioHoldDis(Pin(g)))
  }

  /** `GPIO::setDriveStrength`: the strength is already validated and is
      passed on without a further check. */
  function SetDriveStrength(d: Driver, h: seq<Call>, g: Gpio, strength: DriveStrength): (r: Step<()>)
    ensures Executes(d, h, [GpioSetDriveCapability(Pin(g), strength.value)], r)
  {
    Invoke(d, h, GpioSetDriveCapability(Pin(g), strength.value))
  }

  /** The capability the driver writes back when asked for pin `pin` after
      history `h`, converted to `uint32`. */
  function ReportedCap(d: Driver, h: seq<Call>, pin: uint32): uint32
  {
    ToUint32(d.driveCap(h + [GpioGetDriveCapability(pin)]))
  }

  /** `GPIO::getDriveStrength`: one driver query, whose answer goes back
      through the checking constructor. It fails with the driver's status if
      the query fails, with an invalid-argument status if the reported value
      is out of range, and otherwise returns a strength wrapping exactly the
      reported value. */
  function GetDriveStrength(t: Target, d: Driver, h: seq<Call>, g: Gpio): (r: Step<DriveStrength>)
    ensures r.calls == [GpioGetDriveCapability(Pin(g))]
    ensures r.out.Success? <==> Ok(d, h, r.calls) && ValidDriveStrength(t, ReportedCap(d, h, Pin(g)))
    ensures r.out.Success? ==> r.out.value == DriveStrength(ReportedCap(d, h, Pin(g)))
    ensures r.out.Failure? && !Ok(d, h, r.calls) ==> r.out.error.status == Reply(d, h, r.calls)
    ensures r.out.Failure? && Ok(d, h, r.calls) ==> r.out.error.status == ESP_ERR_INVALID_ARG
  {
    var query := Invoke(d, h, GpioGetDriveCapability(Pin(g)));
    match query.out
    case Failure(e) => Step(Failure(e), query.calls)
    case Success(_) => Step(MakeDriveStrength(t, ReportedCap(d, h, Pin(g))), query.calls)
  }
}
