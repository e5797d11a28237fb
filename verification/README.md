# GPIO validation and pin-configuration model

A Dafny model of the validation-and-typing layer of an ESP-IDF style GPIO
component (`Components::Gpio`). It covers:

- the capability predicates `isValidPin` and `isValidDriveStrengthPin`, and
  the per-chip `INVALID_GPIOS` exclusion tables;
- the strong value types: `GPIONum` and `GPIODriveStrength` with their
  checking constructors and the named strengths; the closed enumerations
  `GPIOPullMode` and `GPIOWakeupIntrType`; and `GPIOLevel`;
- the configuration hierarchy `GPIO` → `PinOutput` / `PinInput` →
  `PinOutputInput`. Each class is one module (`Base`, `Output`, `Input`,
  `OutputInput`). `Base` holds the members `GPIO` keeps protected; each
  derived module holds the operations that class makes public.
  Inheritance is composition: `PinOutput(base)`, `PinInput(base)`,
  `PinOutputInput(input)`. So `PinOutputInput` keeps every input operation
  through its `input` part. The `Output` module has no level read and the
  `Input` module no level write; the `Sessions` module proves, over the
  driver calls, that a client using only a configuration's own operations
  stays within that configuration's direction.

The capability table (`Capability.Target`) is a parameter: `GPIO_NUM_MAX`,
`GPIO_DRIVE_CAP_MAX` and the exclusion list. Every property is therefore
proved for every target. The per-chip exclusion lists are constants.

The driver (`gpio_reset_pin`, `gpio_set_level`, …) is an abstract oracle
(`Hal.Driver`). Its answer to a call may depend on the whole history of
calls up to and including that call. Each operation returns a
`Hal.Step`: the outcome (a value, or the `GPIOException` with its status)
and the driver calls it issued. `Hal.Executes` is the reference
semantics of `GPIO_CHECK_THROW` applied to a sequence of driver calls:

- the calls are issued in order;
- the first non-OK status stops the sequence and is thrown;
- success means every call was issued and answered OK.

Every driver-touching operation is specified by `Executes` over its call plan.

Integer widths: pins and parameter values are `uint32`. The value
`gpio_get_drive_capability` writes back goes through an explicit modulo-2^32
conversion (`Status.ToUint32`), as `static_cast<uint32_t>` does. Driver enum
encodings are constants with the ESP-IDF values (`gpio_pull_mode_t`,
`gpio_int_type_t`, `gpio_mode_t`, `gpio_drive_cap_t`, `ESP_OK`,
`ESP_ERR_INVALID_ARG`). The driver headers that define them are not part of
this model. Only their distinctness matters.

Notes on the code's behaviour:

- The code has one exception type, `GPIOException`, carrying an `esp_err_t`.
  A bad argument and a driver failure differ only in the status carried:
  `ESP_ERR_INVALID_ARG` for a bad argument, the driver's own status for a
  driver failure.
- `getDriveStrength` re-checks what the driver reports. It passes the reported
  value back through the checking constructor, so an out-of-range report
  throws `ESP_ERR_INVALID_ARG` (src/Gpio.cpp:152).
- The pin and drive-strength bounds are exclusive: a value equal to the
  bound is rejected (`>=`).
- `holdEnable`/`holdDisable` are protected in `GPIO`, and no derived class
  re-exposes them. So they live only in `Base`. Drive-strength get/set are
  re-exposed by `PinOutput` and `PinOutputInput` only, not by `PinInput`.

## Model

| member | source | states |
|---|---|---|
| Status.ToUint32 | src/Gpio.cpp:152 | the cast to `uint32_t` keeps in-range values and is congruent to its argument modulo 2^32 |
| Status.CheckThrow | src/Gpio.cpp:10 | a status raises an exception iff it is not `ESP_OK`, and the exception carries that status |
| Capability.Listed | src/Gpio.cpp:41-47 | the scan of the exclusion list from position i answers true iff the pin occurs in the list from i on |
| Capability.IsValidPin | src/Gpio.cpp:34-50 | OK iff the pin is below `GPIO_NUM_MAX` and not in `INVALID_GPIOS`; every pin at or above the bound is `ESP_ERR_INVALID_ARG`; no other code is returned |
| Capability.IsValidDriveStrengthPin | src/Gpio.cpp:52-60 | OK iff the strength is below `GPIO_DRIVE_CAP_MAX`, no other condition; otherwise `ESP_ERR_INVALID_ARG` |
| Capability.ChipTables | src/Gpio.cpp:14-28 | per chip, which in-range pins are valid: all but 24 on Linux and ESP32, all but 22..25 on ESP32-S2/S3, all on ESP32-C3/C2 |
| Values.MakeGpioNum | inc/Gpio.hpp:39-46 | construction succeeds iff the pin is valid on the target, wraps exactly the pin, and otherwise throws `ESP_ERR_INVALID_ARG` with no object |
| Values.GpioNumRoundTrip | inc/Gpio.hpp:39-49 | rebuilding from a pin number's own value gives the same pin number, and only that raw value gives it |
| Values.StrongValueEquality | inc/Gpio.hpp:48-49 | equality and inequality of pin numbers and of drive strengths are equality and inequality of the wrapped values |
| Values.MakeDriveStrength | inc/Gpio.hpp:153-160 | construction succeeds iff the strength is below the target bound, wraps exactly it, and otherwise throws `ESP_ERR_INVALID_ARG` |
| Values.Weak | src/Gpio.cpp:92-95 | goes through the checking constructor with `GPIO_DRIVE_CAP_0`: exists iff 0 is below the bound |
| Values.LessWeak | src/Gpio.cpp:97-100 | the same for `GPIO_DRIVE_CAP_1` |
| Values.Medium | src/Gpio.cpp:102-105 | the same for `GPIO_DRIVE_CAP_2` |
| Values.Strongest | src/Gpio.cpp:107-110 | the same for `GPIO_DRIVE_CAP_3` |
| Values.Default | src/Gpio.cpp:87-90 | yields what the checking constructor yields for `GPIO_DRIVE_CAP_2` |
| Values.DefaultIsMedium | src/Gpio.cpp:87-90 | `DEFAULT()` equals `MEDIUM()` on every target, failure included |
| Values.NamedStrengths | src/Gpio.cpp:92-110 | with more than three selectors, the four named strengths exist, wrap 0..3 and are pairwise distinct |
| Values.PullModeRaw | src/Gpio.cpp:62-75 | `FLOATING()`, `PULLUP()` and `PULLDOWN()` wrap `GPIO_FLOATING`, `GPIO_PULLUP_ONLY` and `GPIO_PULLDOWN_ONLY` respectively, and each encoding comes from exactly one factory |
| Values.WakeupIntrTypeRaw | src/Gpio.cpp:77-85 | `LOW_LEVEL()` and `HIGH_LEVEL()` wrap `GPIO_INTR_LOW_LEVEL` and `GPIO_INTR_HIGH_LEVEL` respectively, and each encoding comes from exactly one factory |
| Values.PullModeClosed | inc/Gpio.hpp:76-107 | every pull mode wraps one of the three encodings FLOATING, PULLUP_ONLY, PULLDOWN_ONLY, and equal encodings mean equal modes |
| Values.WakeupIntrTypeClosed | inc/Gpio.hpp:116-129 | every wakeup type wraps the low-level or high-level encoding, and equal encodings mean equal types |
| Hal.Invoke | src/Gpio.cpp:10 | one checked driver call: issued once; fails iff its status is not OK, carrying that status |
| Hal.ExecutesUnique | src/Gpio.cpp:10 | the checked-sequence semantics determines the calls issued and the outcome completely |
| Hal.ThenExecutes | src/Gpio.cpp:133-136 | a derived constructor body after its base constructor runs the base plan extended by one checked call, and keeps the base's value |
| Base.Construct | src/Gpio.cpp:112-115 | exactly one reset of the pin; the object exists iff the reset answers OK, else the reset status is thrown |
| Base.HoldEnable | src/Gpio.cpp:117-120 | one `gpio_hold_en` on the pin; fails iff the driver status is not OK |
| Base.HoldDisable | src/Gpio.cpp:122-125 | one `gpio_hold_dis` on the pin; fails iff the driver status is not OK |
| Base.SetDriveStrength | src/Gpio.cpp:127-131 | one capability write of the wrapped value; fails iff the driver status is not OK |
| Base.GetDriveStrength | src/Gpio.cpp:148-153 | one capability query; fails with the driver status if it fails, else `ESP_ERR_INVALID_ARG` if the report is out of range, else returns a strength equal to the report |
| Output.Construct | src/Gpio.cpp:133-136 | reset then exactly one `set_direction(OUTPUT)`, stopping at the first failing call |
| Output.SetHigh | src/Gpio.cpp:138-141 | issues `set_level(pin, 1)`; fails iff the driver status is not OK |
| Output.SetLow | src/Gpio.cpp:143-146 | issues `set_level(pin, 0)`; fails iff the driver status is not OK |
| Output.SetDriveStrength | inc/Gpio.hpp:247-248 | the base write, exposed publicly with the same contract |
| Output.GetDriveStrength | inc/Gpio.hpp:247-248 | the base query with re-validation, exposed publicly with the same contract |
| Input.Construct | src/Gpio.cpp:155-158 | reset then exactly one `set_direction(INPUT)`, stopping at the first failing call |
| Input.GetLevel | src/Gpio.cpp:160-171 | one level read; HIGH iff the driver's answer is nonzero, LOW iff zero; never throws |
| Input.SetPullMode | src/Gpio.cpp:173-177 | one pull-mode call with the mode's encoding; fails iff the driver status is not OK |
| Input.WakeupEnable | src/Gpio.cpp:179-183 | one wakeup-enable call with the type's encoding; fails iff the driver status is not OK |
| Input.WakeupDisable | src/Gpio.cpp:185-188 | one wakeup-disable call; fails iff the driver status is not OK |
| OutputInput.Construct | src/Gpio.cpp:190-193 | reset, `set_direction(INPUT)`, then `set_direction(INPUT_OUTPUT_OD)`, stopping at the first failing call |
| OutputInput.SetFloating | src/Gpio.cpp:195-198 | issues `set_level(pin, 1)`; fails iff the driver status is not OK |
| OutputInput.SetLow | src/Gpio.cpp:200-203 | issues `set_level(pin, 0)`; fails iff the driver status is not OK |
| OutputInput.SetDriveStrength | inc/Gpio.hpp:292-293 | the base write, exposed publicly with the same contract |
| OutputInput.GetDriveStrength | inc/Gpio.hpp:292-293 | the base query with re-validation, exposed publicly with the same contract |
| Sessions.ApplyOutput | inc/Gpio.hpp:232-249 | each public `PinOutput` operation issues one call, a level write or drive-strength access on its own pin |
| Sessions.ApplyInput | inc/Gpio.hpp:254-270 | each public `PinInput` operation issues one call, a level read, pull or wakeup call on its own pin |
| Sessions.ApplyOpenDrain | inc/Gpio.hpp:277-294 | each public `PinOutputInput` operation, inherited input ones included, issues one sensing or driving call on its own pin |
| Sessions.RunStaysWithin | inc/Gpio.hpp:229-294 | a session of single-call operations issues only allowed calls, at most one per operation, one per operation when it completes |
| Sessions.OutputSessionDrivesOnly | inc/Gpio.hpp:232-249 | any `PinOutput` session only drives its pin: no level read, pull, wakeup, reset or direction change |
| Sessions.InputSessionSensesOnly | inc/Gpio.hpp:254-270 | any `PinInput` session only senses its pin: no level write or drive-strength access |
| Sessions.OpenDrainSessionStaysOnPin | inc/Gpio.hpp:277-294 | any `PinOutputInput` session stays on its pin and never resets it or changes its direction |
| Scenarios.BoardPins | src/Gpio.cpp:34-50 | with 40 pins and 24 excluded: pin 4 is accepted; 24 and 41 throw `ESP_ERR_INVALID_ARG` |
| Scenarios.OutputHighThenLow | src/Gpio.cpp:133-146 | on a never-failing driver, an output on pin 4 is built with reset then output direction, and `setHigh` then `setLow` succeed, writing 1 then 0 |
| Scenarios.ResetFailureStopsConstruction | src/Gpio.cpp:112-115 | for any driver whose reset of the pin fails, every configuration constructor throws the reset status after issuing only the reset |
| Scenarios.DriveStrengthRoundTrip | src/Gpio.cpp:127-153 | against a register-like driver, writing a valid strength and reading it back gives an equal strength |
| Scenarios.StrongestRoundTrip | src/Gpio.cpp:107-153 | the same round trip for `STRONGEST()` on every target that has it |
| Scenarios.OpenDrainFloatThenRead | src/Gpio.cpp:160-198 | on a never-failing driver, an open-drain pin is built, released and read without an exception; the level read is not constrained |

## Left out

- Driver behaviour (`driver/gpio.h`) is not part of this model. The driver is an oracle whose statuses, levels and capabilities are arbitrary functions of the call history. Electrical effects, hold and wakeup semantics in low-power states are left out with it.
- `ESPException`, `CHECK_THROW_SPECIFIC` and the `GPIOException` constructor (src/Gpio.cpp:32) are not part of this model. A thrown exception is the `Failure` value of `Status.Result`, carrying the status.
- `StrongValueComparable` and `get_value<T>` (System.hpp) are not part of this model. Each strong value is a plain datatype with structural equality. The driver receives the raw wrapped value.
- The `GPIONumBase` tag parameter is not modelled. Only `GPIONum` is modelled, since the repository defines no other tag.
- Build-time target selection (`#if CONFIG_IDF_TARGET_*`, including the `#error` for unknown targets) is left out. The target is a parameter, and `Capability.ForChip` builds the table for a named chip.
- `GPIO_NUM_MAX` and `GPIO_DRIVE_CAP_MAX` come from driver headers that are not part of this model. They stay parameters.
- Private constructors cannot be hidden in Dafny. The closed enumerations are therefore datatypes whose constructors are the named factories. Nothing can build a `GpioNum` or `DriveStrength` that bypasses the check in the C++ code, but a Dafny client could write `GpioNum(99)` directly. Validity is instead stated on the checking constructors' results.
- Sharing one physical pin between two configuration objects, and concurrent use, are usage contracts and are not modelled. So is the claim that two configurations on different pins do not interfere, which depends on the driver.
- Protected access and private construction of configuration objects are not enforced. `Base`'s members (the protected part of `GPIO`, hold included) and the constructors `PinOutput(…)`, `PinInput(…)` and `PinOutputInput(…)` are callable by any Dafny client, so a client can rewrap one configuration's base as another, or build a configuration that was never reset or committed to a direction. Direction narrowing holds for clients that use only each module's `Construct` and its own operations, as the `Sessions` lemmas state.
