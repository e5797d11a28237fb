/** `PinInput`: a pin committed to input direction. It can read the level,
    set the pull mode and arm or disarm wakeup; it offers no level-setting or
    drive-strength operation. */
module Input {
  import opened Status
  import opened Values
  import opened Hal
  import Base

  datatype PinInput = PinInput(base: Base.Gpio)

  function Pin(p: PinInput): uint32
  {
    Base.Pin(p.base)
  }

  /** A level read, which never throws, and the call it issued. */
  datatype LevelRead = LevelRead(level: Level, calls: seq<Call>)

  /** `PinInput::PinInput`: reset, then commit to input direction. */
  function Construct(d: Driver, h: seq<Call>, num: GpioNum): (r: Step<PinInput>)
    ensures Executes(d, h, [GpioResetPin(num.value), GpioSetDirection(num.value, GPIO_MODE_INPUT)], r)
    ensures r.out.Success? ==> r.out.value.base.num == num
  {
    var g := Base.Construct(d, h, num);
    var wrap := (b: Base.Gpio) => PinInput(b);
    ThenExecutes(d, h, [GpioResetPin(num.value)], g, GpioSetDirection(num.value, GPIO_MODE_INPUT), wrap);
    Then(d, h, g, GpioSetDirection(num.value, GPIO_MODE_INPUT), wrap)
  }

  /** `PinInput::getLevel`: any nonzero driver answer reads as high, zero as
      low; there is no failure outcome. */
  function GetLevel(d: Driver, h: seq<Call>, p: PinInput): (r: LevelRead)
    ensures r.calls == [GpioGetLevel(Pin(p))]
    ensures r.level == High <==> d.level(h + r.calls) != 0
    ensures r.level == Low <==> d.level(h + r.calls) == 0
  {
    var calls := [GpioGetLevel(Pin(p))];
    LevelRead(if d.level(h + calls) != 0 then High else Low, calls)
  }

  /** `PinInput::setPullMode`. */
  function SetPullMode(d: Driver, h: seq<Call>, p: PinInput, mode: PullMode): (r: Step<()>)
    ensures Executes(d, h, [GpioSetPullMode(Pin(p), PullModeRaw(mode))], r)
  {
    Invoke(d, h, GpioSetPullMode(Pin(p), PullModeRaw(mode)))
  }

  /** `PinInput::wakeupEnable`. */
  function WakeupEnable(d: Driver, h: seq<Call>, p: PinInput, kind: WakeupIntrType): (r: Step<()>)
    ensures Executes(d, h, [GpioWakeupEnable(Pin(p), WakeupIntrTypeRaw(kind))], r)
  {
    Invoke(d, h, GpioWakeupEnable(Pin(p), WakeupIntrTypeRaw(kind)))
  }

  /** `PinInput::wakeupDisable`. */
  function WakeupDisable(d: Driver, h: seq<Call>, p: PinInput): (r: Step<()>)
    ensures Executes(d, h, [GpioWakeupDisable(Pin(p))], r)
  {
    Invoke(d, h, GpioWakeupDisable(Pin(p)))
  }
}
