/**
 * Constants, machine-integer types, the reading record and the initial values
 * of the globals declared in src/main.h of the ESP32 indoor-air-quality monitor.
 */
module Definitions {

  datatype Option<+T> = None | Some(value: T)

  // The C integer types the firmware uses, as ranges of mathematical integers.
  type byte = x: int | 0 <= x < 0x100
  type u16 = x: int | 0 <= x < 0x1_0000
  type u32 = x: int | 0 <= x < 0x1_0000_0000

  const U32_MODULUS: int := 0x1_0000_0000

  /** Reduction of an exact result to uint32_t, as C does for unsigned arithmetic. */
  function Wrap32(x: int): (r: u32)
    ensures 0 <= x < U32_MODULUS ==> r == x
    ensures (x - r) % U32_MODULUS == 0
  {
    x % U32_MODULUS
  }

  /** `x++` on a uint16_t. */
  function Inc16(x: u16): (r: u16)
    ensures x < 0xFFFF ==> r == x + 1
    ensures x == 0xFFFF ==> r == 0
  {
    (x + 1) % 0x1_0000
  }

  // Capacity of the in-memory log and of the log file.
  const LOGSIZE: nat := 240
  // 360 minutes between calibration saves, in milliseconds.
  const STATE_SAVE_PERIOD: u32 := 360 * 60 * 1000
  // Nominal sea-level pressure in hPa.
  const SL: real := 1013.25

  const HTMLFILE: string := "/index.html"
  const LOGFILE_HDR: string := "{\"logfile\":["
  const LOGFILE_TLR: string := "]}"

  // Size of the `time` member of a reading and of the timestamp buffer (24 characters and a NUL).
  const TIME_FIELD_SIZE: nat := 25

  /**
   * One sensor reading: exactly the eight stored members of the `reading`
   * struct. Floating-point members are modelled as reals; no arithmetic is
   * done on them. The uptime that goes out on the wire is not stored.
   */
  datatype Reading = Reading(
    time: string,
    temp: real,
    pres: real,
    humy: real,
    iaq: real,
    iaqAcc: byte,
    co2: real,
    voc: real)

  /** The value of a zero-initialised `reading` (the `= {0}` initialiser of `sensorLog`). */
  const ZERO_READING: Reading := Reading("", 0.0, 0.0, 0.0, 0.0, 0, 0.0, 0.0)

  /** The nominal reading `initLog` writes into every slot. */
  function NominalReading(timestamp: string): (r: Reading)
    ensures r.time == timestamp && r.pres == SL && r.iaqAcc == 0
  {
    Reading(timestamp, 20.0, SL, 50.0, 100.0, 0, 500.0, 0.5)
  }

  /** The three runtime intervals, in milliseconds. */
  datatype Config = Config(sensorInterval: u32, graphInterval: u32, logInterval: u32)

  const DEFAULT_CONFIG: Config := Config(5000, 60000, 1800000)

  // The bounds `putConfig` enforces on an update.
  const MIN_INTERVAL: nat := 1000
  const MAX_LOG_INTERVAL: nat := 99999000

  predicate InRange(sensorInt: int, graphInt: int, logInt: int)
  {
    sensorInt >= MIN_INTERVAL && graphInt >= MIN_INTERVAL
    && logInt >= MIN_INTERVAL && logInt <= MAX_LOG_INTERVAL
  }

  predicate Admissible(c: Config)
  {
    InRange(c.sensorInterval, c.graphInterval, c.logInterval)
  }

  lemma DefaultsAdmissible()
    ensures Admissible(DEFAULT_CONFIG)
    ensures DEFAULT_CONFIG.logInterval == 30 * 60 * 1000
  {
  }

  lemma ConstantValues()
    ensures STATE_SAVE_PERIOD == 21600000
    ensures LOGFILE_HDR + LOGFILE_TLR == "{\"logfile\":[]}"
    ensures |LOGFILE_HDR| == 12 && LOGFILE_HDR[0] == '{' && LOGFILE_HDR[11] == '['
    ensures LOGFILE_TLR == "]" + "}"
  {
  }
}
