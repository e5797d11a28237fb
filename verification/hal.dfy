/** The driver boundary. The driver itself is not modelled: it is an oracle
    whose every answer may depend on the whole history of calls made so far,
    and each operation of the component reports the calls it issued. */
module Hal {
  import opened Status

  /** Encodings of `gpio_mode_t` used by the configurations. */
  const GPIO_MODE_INPUT: uint32 := 1
  const GPIO_MODE_OUTPUT: uint32 := 2
  const GPIO_MODE_INPUT_OUTPUT_OD: uint32 := 7

  /** One call across the driver boundary, with its encoded arguments. */
  datatype Call =
    | GpioResetPin(pin: uint32)
    | GpioSetDirection(pin: uint32, mode: uint32)
    | GpioSetLevel(pin: uint32, level: uint32)
    | GpioGetLevel(pin: uint32)
    | GpioHoldEn(pin: uint32)
    | GpioHoldDis(pin: uint32)
    | GpioSetDriveCapability(pin: uint32, cap: uint32)
    | GpioGetDriveCapability(pin: uint32)
    | GpioSetPullMode(pin: uint32, pull: uint32)
    | GpioWakeupEnable(pin: uint32, intrType: uint32)
    | GpioWakeupDisable(pin: uint32)

  /** The driver's answers, each given the history ending with the call being
      answered: the status code, the level `gpio_get_level` returns, and the
      capability `gpio_get_drive_capability` writes back. */
  datatype Driver = Driver(
    status: seq<Call> -> int,
    level: seq<Call> -> int,
    driveCap: seq<Call> -> int)

  /** The outcome of one operation of the component and the calls it issued. */
  datatype Step<+T> = Step(out: Result<T>, calls: seq<Call>)

  /** The status returned to the last of `calls`, issued after history `h`. */
  function Reply(d: Driver, h: seq<Call>, calls: seq<Call>): int
  {
    d.status(h + calls)
  }

  predicate Ok(d: Driver, h: seq<Call>, calls: seq<Call>)
  {
    Reply(d, h, calls) == ESP_OK
  }

  /** `r` is what running `plan` yields when each call's status goes through
      `GPIO_CHECK_THROW`: the calls are issued in order, the run stops at the
      first non-OK status and throws it, and it succeeds only when every call
      of the plan was issued and answered OK. */
  predicate Executes<T>(d: Driver, h: seq<Call>, plan: seq<Call>, r: Step<T>)
  {
    && 0 < |r.calls| <= |plan|
    && r.calls == plan[..|r.calls|]
    && (forall k | 0 < k < |r.calls| :: Ok(d, h, r.calls[..k]))
    && (r.out.Success? <==> r.calls == plan && Ok(d, h, r.calls))
    && (r.out.Failure? ==> !Ok(d, h, r.calls) && r.out.error.status == Reply(d, h, r.calls))
  }

  /** Two runs of the same plan against the same driver issue the same calls
      and end the same way: `Executes` determines everything but the value. */
  lemma {:induction false} ExecutesUnique<T, U>(d: Driver, h: seq<Call>, plan: seq<Call>, r: Step<T>, s: Step<U>)
    requires Executes(d, h, plan, r) && Executes(d, h, plan, s)
    ensures r.calls == s.calls
    ensures r.out.Success? == s.out.Success?
    ensures r.out.Failure? ==> r.out.error == s.out.error
  {
    var m := if |r.calls| < |s.calls| then |r.calls| else |s.calls|;
    assert r.calls[..m] == plan[..m] == s.calls[..m];
  }

  /** One driver call whose status is checked. */
  function Invoke(d: Driver, h: seq<Call>, c: Call): (r: Step<()>)
    ensures Executes(d, h, [c], r)
  {
    Step(CheckThrow(d.status(h + [c])), [c])
  }

  /** Replaces the value of a successful step, keeping its calls and failure. */
  function Lift<T, U>(s: Step<T>, v: U): (r: Step<U>)
    ensures r.calls == s.calls && r.out.Success? == s.out.Success?
    ensures r.out.Success? ==> r.out.value == v
    ensures r.out.Failure? ==> r.out.error == s.out.error
  {
    match s.out
    case Success(_) => Step(Success(v), s.calls)
    case Failure(e) => Step(Failure(e), s.calls)
  }

  /** A constructor body after its base-class constructor: nothing more
      happens if `first` threw, otherwise `c` is issued and checked. */
  function Then<T, U>(d: Driver, h: seq<Call>, first: Step<T>, c: Call, wrap: T -> U): Step<U>
  {
    match first.out
    case Failure(e) => Step(Failure(e), first.calls)
    case Success(v) => Step(Lift(Invoke(d, h + first.calls, c), wrap(v)).out, first.calls + [c])
  }

  /** Issuing one more checked call after a run of `plan` is a run of the
      longer plan, and the value is the wrapped value of the first run. */
  lemma {:induction false} ThenExecutes<T, U>(d: Driver, h: seq<Call>, plan: seq<Call>, first: Step<T>, c: Call, wrap: T -> U)
    requires Executes(d, h, plan, first)
    ensures Executes(d, h, plan + [c], Then(d, h, first, c, wrap))
    ensures Then(d, h, first, c, wrap).out.Success? ==> Then(d, h, first, c, wrap).out.value == wrap(first.out.value)
  {
    var r := Then(d, h, first, c, wrap);
    var plan' := plan + [c];
    if first.out.Success? {
      assert first.calls == plan;
      assert r.calls == plan';
      assert h + first.calls + [c] == h + plan';
      forall k | 0 < k < |r.calls|
        ensures Ok(d, h, r.calls[..k])
      {
        if k < |plan| {
          assert r.calls[..k] == first.calls[..k];
        } else {
          assert r.calls[..k] == first.calls;
        }
      }
    } else {
      assert r.calls == first.calls;
      assert plan'[..|r.calls|] == plan[..|first.calls|];
    }
  }
}
