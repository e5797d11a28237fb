/** The strong value types: validated pin numbers and drive strengths, and the
    closed enumerations for pull modes, wakeup interrupt types and levels.
    Each is its own datatype, so a pin number and a drive strength can never be
    exchanged even though both wrap a `uint32`; equality is structural on the
    wrapped value. */
module Values {
  import opened Status
  import opened Capability

  /** `GPIONum`: a pin number, obtained only through `MakeGpioNum`. */
  datatype GpioNum = GpioNum(value: uint32)

  /** The checking constructor of `GPIONumBase`. */
  function MakeGpioNum(t: Target, pin: uint32): (r: Result<GpioNum>)
    ensures r.Success? <==> ValidPin(t, pin)
    ensures r.Success? ==> r.value.value == pin
    ensures r.Failure? ==> r.error.status == ESP_ERR_INVALID_ARG
  {
    var check := IsValidPin(t, pin);
    if check != ESP_OK then Failure(GpioException(check)) else Success(GpioNum(pin))
  }

  /** Constructing from the value a pin number wraps gives back that pin
      number, and distinct raw values give distinct pin numbers. */
  lemma GpioNumRoundTrip(t: Target, n: GpioNum, pin: uint32)
    requires ValidPin(t, n.value)
    ensures MakeGpioNum(t, n.value) == Success(n)
    ensures MakeGpioNum(t, pin) == Success(n) <==> pin == n.value
  {
  }

  /** `operator==` and `operator!=` of the strong value types compare the
      wrapped values, and so does equality of the datatypes. */
  lemma StrongValueEquality(a: GpioNum, b: GpioNum, x: DriveStrength, y: DriveStrength)
    ensures a == b <==> a.value == b.value
    ensures a != b <==> a.value != b.value
    ensures x == y <==> x.value == y.value
    ensures x != y <==> x.value != y.value
  {
  }

  /** Selector values of `gpio_drive_cap_t`. */
  const GPIO_DRIVE_CAP_0: uint32 := 0
  const GPIO_DRIVE_CAP_1: uint32 := 1
  const GPIO_DRIVE_CAP_2: uint32 := 2
  const GPIO_DRIVE_CAP_3: uint32 := 3

  /** `GPIODriveStrength`: a drive strength, obtained only through
      `MakeDriveStrength` or one of the named factories. */
  datatype DriveStrength = DriveStrength(value: uint32)

  /** What the checking constructor yields for `strength`: a value wrapping
      exactly `strength` when the target has it, an invalid-argument
      exception otherwise. */
  predicate Yields(t: Target, strength: uint32, r: Result<DriveStrength>)
  {
    && (r.Success? <==> ValidDriveStrength(t, strength))
    && (r.Success? ==> r.value.value == strength)
    && (r.Failure? ==> r.error.status == ESP_ERR_INVALID_ARG)
  }

  /** The checking constructor of `GPIODriveStrength`. */
  function MakeDriveStrength(t: Target, strength: uint32): (r: Result<DriveStrength>)
    ensures Yields(t, strength, r)
  {
    var check := IsValidDriveStrengthPin(t, strength);
    if check != ESP_OK then Failure(GpioException(check)) else Success(DriveStrength(strength))
  }

  /** `WEAK()`. */
  function Weak(t: Target): (r: Result<DriveStrength>)
    ensures Yields(t, GPIO_DRIVE_CAP_0, r)
  {
    MakeDriveStrength(t, GPIO_DRIVE_CAP_0)
  }

  /** `LESS_WEAK()`. */
  function LessWeak(t: Target): (r: Result<DriveStrength>)
    ensures Yields(t, GPIO_DRIVE_CAP_1, r)
  {
    MakeDriveStrength(t, GPIO_DRIVE_CAP_1)
  }

  /** `MEDIUM()`. */
  function Medium(t: Target): (r: Result<DriveStrength>)
    ensures Yields(t, GPIO_DRIVE_CAP_2, r)
  {
    MakeDriveStrength(t, GPIO_DRIVE_CAP_2)
  }

  /** `STRONGEST()`. */
  function Strongest(t: Target): (r: Result<DriveStrength>)
    ensures Yields(t, GPIO_DRIVE_CAP_3, r)
  {
    MakeDriveStrength(t, GPIO_DRIVE_CAP_3)
  }

  /** `DEFAULT()`: defined as the medium strength. */
  function Default(t: Target): (r: Result<DriveStrength>)
    ensures Yields(t, GPIO_DRIVE_CAP_2, r)
  {
    Medium(t)
  }

  /** On a target with at least four selectors every named strength exists,
      the four distinct factories give four distinct values, and the default
      is the medium strength. */
  lemma NamedStrengths(t: Target)
    requires 3 < t.driveCapMax
    ensures Weak(t) == Success(DriveStrength(0))
    ensures LessWeak(t) == Success(DriveStrength(1))
    ensures Medium(t) == Success(DriveStrength(2))
    ensures Strongest(t) == Success(DriveStrength(3))
    ensures Default(t) == Medium(t)
    ensures Weak(t) != LessWeak(t) && Weak(t) != Medium(t) && Weak(t) != Strongest(t)
    ensures LessWeak(t) != Medium(t) && LessWeak(t) != Strongest(t) && Medium(t) != Strongest(t)
  {
  }

  /** On every target, whatever its bound, the default equals the medium
      strength, failure included. */
  lemma DefaultIsMedium(t: Target)
    ensures Default(t) == Medium(t)
  {
  }

  /** Encodings of `gpio_pull_mode_t`. */
  const GPIO_PULLUP_ONLY: uint32 := 0
  const GPIO_PULLDOWN_ONLY: uint32 := 1
  const GPIO_FLOATING: uint32 := 3

  /** `GPIOPullMode`: the private constructor leaves the three factories as the
      only values. */
  datatype PullMode = Floating | PullUp | PullDown

  /** The factories `FLOATING()`, `PULLUP()` and `PULLDOWN()`: the value each
      wraps, as handed to the driver. */
  function PullModeRaw(m: PullMode): (r: uint32)
    ensures r == GPIO_FLOATING <==> m == Floating
    ensures r == GPIO_PULLUP_ONLY <==> m == PullUp
    ensures r == GPIO_PULLDOWN_ONLY <==> m == PullDown
  {
    match m
    case Floating => GPIO_FLOATING
    case PullUp => GPIO_PULLUP_ONLY
    case PullDown => GPIO_PULLDOWN_ONLY
  }

  /** Every pull mode wraps one of the three driver encodings, and two pull
      modes are equal iff their wrapped values are. */
  lemma PullModeClosed(a: PullMode, b: PullMode)
    ensures PullModeRaw(a) in {GPIO_FLOATING, GPIO_PULLUP_ONLY, GPIO_PULLDOWN_ONLY}
    ensures a == b <==> PullModeRaw(a) == PullModeRaw(b)
  {
  }

  /** Encodings of `gpio_int_type_t` usable for wakeup. */
  const GPIO_INTR_LOW_LEVEL: uint32 := 4
  const GPIO_INTR_HIGH_LEVEL: uint32 := 5

  /** `GPIOWakeupIntrType`: low or high level, nothing else. */
  datatype WakeupIntrType = LowLevel | HighLevel

  /** The factories `LOW_LEVEL()` and `HIGH_LEVEL()`: the value each wraps,
      as handed to the driver. */
  function WakeupIntrTypeRaw(k: WakeupIntrType): (r: uint32)
    ensures r == GPIO_INTR_LOW_LEVEL <==> k == LowLevel
    ensures r == GPIO_INTR_HIGH_LEVEL <==> k == HighLevel
  {
    match k
    case LowLevel => GPIO_INTR_LOW_LEVEL
    case HighLevel => GPIO_INTR_HIGH_LEVEL
  }

  /** Every wakeup type wraps one of the two level encodings, and two wakeup
      types are equal iff their wrapped values are. */
  lemma WakeupIntrTypeClosed(a: WakeupIntrType, b: WakeupIntrType)
    ensures WakeupIntrTypeRaw(a) in {GPIO_INTR_LOW_LEVEL, GPIO_INTR_HIGH_LEVEL}
    ensures a == b <==> WakeupIntrTypeRaw(a) == WakeupIntrTypeRaw(b)
  {
  }

  /** `GPIOLevel`. */
  datatype Level = High | Low
}
