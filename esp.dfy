/**
 * Shared vocabulary of the firmware model: ESP-IDF style error codes, an
 * Option type standing in for nullable C pointers, and the C integer
 * operations whose semantics differ from Dafny's.
 */
module Esp {

  /** A nullable C pointer: `None` is NULL. */
  datatype Option<T> = None | Some(value: T)

  /** Driver and operating-system calls whose result the core checks. */
  datatype Call =
    | NetifInit | EventGroupCreate | RegisterWifiEvents | RegisterIpEvents
    | StaNetifCreate | ApNetifCreate | WifiInit | SetMode | WifiStart | WifiStop
    | ScanStart | GetApNum | RecordsAlloc | GetApRecords | GetConfig | SetConfig
    | WifiConnect | MqttClientInit

  /** `esp_err_t`: `Ok` is ESP_OK; `DriverError(c)` is whatever code call `c` returned. */
  datatype Err = Ok | Fail | InvalidArg | InvalidState | NoMem | DriverError(call: Call)

  /** C's `/` on signed integers truncates toward zero (C99 6.5.5). */
  function CDiv(a: int, b: int): (q: int)
    requires b > 0
    ensures a >= 0 ==> q * b <= a < q * b + b
    ensures a < 0 ==> q * b - b < a <= q * b
  {
    if a >= 0 then a / b else -((-a) / b)
  }

  /** The smaller of two naturals. */
  function Min(a: nat, b: nat): nat { if a <= b then a else b }
}
