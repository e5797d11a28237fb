/** The integer widths, status codes and the single exception type shared by
    the whole GPIO component. */
module Status {

  /** `uint32_t`, the representation of every pin number and parameter value. */
  type uint32 = x: int | 0 <= x < 0x1_0000_0000

  /** `static_cast<uint32_t>` applied to a value the driver reports:
      reduction modulo 2^32, so that in-range values are kept unchanged. */
  function ToUint32(v: int): (r: uint32)
    ensures 0 <= v < 0x1_0000_0000 ==> r == v
    ensures (v - r) % 0x1_0000_0000 == 0
  {
    v % 0x1_0000_0000
  }

  /** The two `esp_err_t` codes the component produces itself. */
  const ESP_OK: int := 0
  const ESP_ERR_INVALID_ARG: int := 0x102

  /** `GPIOException`: thrown with the non-OK status that caused it. */
  datatype GpioException = GpioException(status: int)

  /** Either a fully constructed value or the exception that prevented it. */
  datatype Result<+T> = Success(value: T) | Failure(error: GpioException)

  /** `GPIO_CHECK_THROW(err)`: a non-OK status becomes an exception carrying it. */
  function CheckThrow(status: int): (r: Result<()>)
    ensures r.Success? <==> status == ESP_OK
    ensures r.Failure? ==> r.error.status == status
  {
    if status == ESP_OK then Success(()) else Failure(GpioException(status))
  }
}
