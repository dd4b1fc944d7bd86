/**
 * The firmware's top level in src/main.cpp: the globals of src/main.h that
 * `setup`, `setErr` and `loop` update, the boot sequence gated by `active`,
 * one acquisition step, and the dispatch of a web request to its handler.
 */
module Monitor {
  import opened Definitions
  import opened Json
  import opened LogDocument
  import SensorLog
  import opened Calibration
  import opened Http
  import opened Configuration
  import opened Resources

  /** The outputs of the BSEC library that `readSensor` copies (pressure in Pa). */
  datatype Sample = Sample(
    temperature: real, pressure: real, humidity: real, staticIaq: real,
    iaqAccuracy: byte, co2: real, voc: real)

  /** `readSensor`: the current timestamp and the library outputs, pressure scaled to hPa. */
  function ReadSensor(s: Sample, timestamp: string): Reading
  {
    Reading(timestamp, s.temperature, s.pressure / 100.0, s.humidity, s.staticIaq,
            s.iaqAccuracy, s.co2, s.voc)
  }

  /**
   * What boot depends on: the library status after `setConfig`, during
   * `loadState` and after `updateSubscription`; whether flash, WiFi and NTP
   * come up; and, for `initLog`, the timestamp, clock and storage.
   */
  datatype BootEnv = BootEnv(
    configStatus: Status, loadStatus: Status, subscriptionStatus: Status,
    spiffs: bool, wifi: bool, ntp: bool,
    timestamp: string, millis: u32, storage: Storage)

  /** `init_bme680` succeeds exactly when both checked statuses pass; the load's own result is ignored. */
  predicate SensorUp(env: BootEnv)
  {
    CheckIaqSensorStatus(env.configStatus) && CheckIaqSensorStatus(env.subscriptionStatus)
  }

  predicate BootOk(env: BootEnv)
  {
    SensorUp(env) && env.spiffs && env.wifi && env.ntp
  }

  /** The message of the first step that fails. */
  function BootError(env: BootEnv): (msg: string)
    requires !BootOk(env)
  {
    if !SensorUp(env) then "BME680 initialisation failed"
    else if !env.spiffs then "SPIFFS initialisation failed"
    else if !env.wifi then "\nWiFi initialisation failed"
    else "\nNTP Time initialisation failed"
  }

  /** One pass of `loop`: whether `bme680.run()` has new data, and what that step sees. */
  datatype LoopTick = LoopTick(
    newData: bool, sample: Sample, timestamp: string, millis: u32,
    blob: seq<byte>, saveStatus: Status, storage: Storage)

  /** The log update test of `loop`, with uint32_t subtraction. */
  predicate LogDue(now: u32, lastLog: u32, interval: u32)
  {
    Wrap32(now - lastLog) > interval
  }

  /** The test measures true elapsed time even when `millis()` has wrapped past zero since `lastLog`. */
  lemma LogDueAcrossWrap(lastLog: u32, elapsed: nat, interval: u32)
    requires elapsed < U32_MODULUS
    ensures LogDue(Wrap32(lastLog + elapsed), lastLog, interval) <==> elapsed > interval
  {
    var now := Wrap32(lastLog + elapsed);
    if lastLog + elapsed < U32_MODULUS {
      assert now == lastLog + elapsed;
    } else {
      assert now == lastLog + elapsed - U32_MODULUS;
      assert Wrap32(now - lastLog) == elapsed;
    }
  }

  /** With `lastLog` still 0, the first log update waits until uptime exceeds the log interval. */
  lemma FirstLogWaits(now: u32, interval: u32)
    ensures LogDue(now, 0, interval) <==> now > interval
  {
  }

  /** The handlers `initWebserver` registers, and the fallback. */
  datatype Handler = RootPage | SensorReading | ConfigRead | ConfigUpdate | LogRead | StaticFile

  /** "/" for any method; "/sensor", "/config" and "/log" for the registered methods only. */
  function Route(req: Request): (h: Handler)
    ensures h == RootPage <==> req.uri == "/"
    ensures h == ConfigUpdate <==> req.uri == "/config" && req.verb == Put
    ensures h == SensorReading <==> req.uri == "/sensor" && req.verb == Get
    ensures h == ConfigRead <==> req.uri == "/config" && req.verb == Get
    ensures h == LogRead <==> req.uri == "/log" && req.verb == Get
    ensures h == StaticFile <==>
      !(req.uri == "/" || (req.uri in {"/sensor", "/config", "/log"} && req.verb == Get)
        || (req.uri == "/config" && req.verb == Put))
  {
    if req.uri == "/" then RootPage
    else if req.uri == "/sensor" && req.verb == Get then SensorReading
    else if req.uri == "/config" && req.verb == Get then ConfigRead
    else if req.uri == "/config" && req.verb == Put then ConfigUpdate
    else if req.uri == "/log" && req.verb == Get then LogRead
    else StaticFile
  }

  /** `handleRoot`: redirect to the page. */
  const ROOT_REDIRECT: Response := Response(FOUND, "text/html", Some(HTMLFILE), Text(""))

  /** The reply of `handleWebRequests`, as a value. */
  function StaticReply(req: Request, files: set<string>): Response
  {
    match LoadFromSpiffs(req.uri, HasArg(req, "download"), files)
    case Some(r) => r
    case None => Reply(NOT_FOUND, "text/plain", Text(NotFoundText(req)))
  }

  class Monitor {
    const log: SensorLog.SensorLog
    const calib: CalibrationStore
    // `sensorInterval`, `graphInterval`, `logInterval`.
    var config: Config
    var currReading: Reading
    var active: bool
    // The last message `setErr` displayed.
    var error: Option<string>

    ghost predicate Valid()
      reads this, log, calib
    {
      log.Valid() && calib.Valid()
    }

    /**
     * Power-on: the globals at their initial values (`active` false until
     * `setup`), the flash holding `flash` in the calibration area and
     * `storedLog` as the log file.
     */
    constructor (blobSize: nat, flash: seq<byte>, storedLog: Option<seq<Token>>)
      requires 0 < blobSize <= 254 && |flash| == blobSize + 1
      ensures Valid() && fresh(log) && fresh(log.slots) && fresh(calib)
      ensures fresh(calib.eeprom) && fresh(calib.bsecState)
      ensures config == DEFAULT_CONFIG && !active && error == None
      ensures log.slots[..] == seq(LOGSIZE, _ => ZERO_READING) && log.file == storedLog && log.lastLog == 0
      ensures currReading == ZERO_READING
      ensures calib.blobSize == blobSize && calib.eeprom[..] == flash && calib.bsecState[..] == Zeros(blobSize)
      ensures calib.counter == 0 && calib.committed == flash
    {
      log := new SensorLog.SensorLog(storedLog);
      calib := new CalibrationStore(blobSize, flash);
      config := DEFAULT_CONFIG;
      currReading := ZERO_READING;
      active := false;
      error := None;
    }

    /** `setErr`: show the message and clear `active`. */
    method SetErr(msg: string)
      modifies this
      ensures !active && error == Some(msg)
      ensures config == old(config) && currReading == old(currReading)
    {
      error := Some(msg);
      active := false;
    }

    /**
     * `init_bme680`: fail if the status after configuration is bad; else
     * load the calibration state, ignoring its result, and fail if the
     * status after subscribing is bad.
     */
    method InitBme680(env: BootEnv) returns (ok: bool)
      requires Valid()
      modifies calib, calib.eeprom, calib.bsecState
      ensures Valid() && ok == SensorUp(env) && calib.counter == old(calib.counter)
      ensures calib.Snapshot() ==
        if CheckIaqSensorStatus(env.configStatus) then LoadedArea(old(calib.Snapshot()), calib.blobSize)
        else old(calib.Snapshot())
    {
      if !CheckIaqSensorStatus(env.configStatus) {
        return false;
      }
      var _ := calib.LoadState(env.loadStatus);
      if !CheckIaqSensorStatus(env.subscriptionStatus) {
        return false;
      }
      return true;
    }

    /**
     * `setup`: each step runs only while `active`; a failing step calls
     * `setErr`. Once everything is up the log is loaded from flash, and
     * if that fails it is initialised with nominal readings instead,
     * `active` staying set either way. (`initWebserver` always succeeds.)
     */
    method Setup(env: BootEnv)
      requires Valid()
      modifies this, log, log.slots, calib, calib.eeprom, calib.bsecState
      ensures Valid()
      ensures active == BootOk(env)
      ensures error == if BootOk(env) then old(error) else Some(BootError(env))
      ensures config == old(config) && currReading == old(currReading)
      ensures calib.counter == old(calib.counter)
      ensures calib.Snapshot() ==
        if CheckIaqSensorStatus(env.configStatus) then LoadedArea(old(calib.Snapshot()), calib.blobSize)
        else old(calib.Snapshot())
      ensures !BootOk(env) ==>
        log.slots[..] == old(log.slots[..]) && log.file == old(log.file) && log.lastLog == old(log.lastLog)
      ensures BootOk(env) && Restore(old(log.file)).ok ==>
        && log.slots[..] == AfterLoad(old(log.slots[..]), old(log.file))
        && log.file == old(log.file) && log.lastLog == old(log.lastLog)
      ensures BootOk(env) && !Restore(old(log.file)).ok ==>
        && log.slots[..] == seq(LOGSIZE, _ => NominalReading(env.timestamp))
        && log.file == Persisted(log.slots[..], env.millis, env.storage)
        && log.lastLog == if PersistOk(log.slots[..], env.storage) then env.millis else old(log.lastLog)
    {
      active := true;
      var sensorOk := InitBme680(env);
      if !sensorOk && active {
        SetErr("BME680 initialisation failed");
      }
      if active {
        if !env.spiffs {
          SetErr("SPIFFS initialisation failed");
        }
      }
      if active {
        if !env.wifi {
          SetErr("\nWiFi initialisation failed");
        }
      }
      if active {
        if !env.ntp {
          SetErr("\nNTP Time initialisation failed");
        }
      }
      if active {
        var loaded := log.LoadLog();
        if !loaded {
          log.InitLog(env.timestamp, env.millis, env.storage);
        }
      }
    }

    /**
     * `loop`: nothing while inactive. With new data, take the reading, let
     * the calibration store decide on a save (its result is ignored), and
     * when more than `logInterval` ms have passed since `lastLog`, append
     * the reading to the log and set `lastLog` to now.
     */
    method Loop(t: LoopTick)
      requires Valid() && |t.blob| == calib.blobSize
      modifies this, log, log.slots, calib, calib.eeprom, calib.bsecState
      ensures Valid()
      ensures active == old(active) && config == old(config) && error == old(error)
      ensures !(old(active) && t.newData) ==>
        && currReading == old(currReading)
        && log.slots[..] == old(log.slots[..]) && log.file == old(log.file) && log.lastLog == old(log.lastLog)
        && calib.Snapshot() == old(calib.Snapshot()) && calib.counter == old(calib.counter)
      ensures old(active) && t.newData ==>
        && currReading == ReadSensor(t.sample, t.timestamp)
        && (calib.Snapshot(), calib.counter) ==
             SavedArea(old(calib.Snapshot()), old(calib.counter), t.sample.iaqAccuracy, t.millis, t.blob, t.saveStatus)
      ensures old(active) && t.newData && LogDue(t.millis, old(log.lastLog), config.logInterval) ==>
        && log.slots[..] == Appended(old(log.slots[..]), currReading)
        && log.file == Persisted(log.slots[..], t.millis, t.storage)
        && log.lastLog == t.millis
      ensures old(active) && t.newData && !LogDue(t.millis, old(log.lastLog), config.logInterval) ==>
        log.slots[..] == old(log.slots[..]) && log.file == old(log.file) && log.lastLog == old(log.lastLog)
    {
      if active {
        if t.newData {
          currReading := ReadSensor(t.sample, t.timestamp);
          var _ := calib.UpdateState(t.sample.iaqAccuracy, t.millis, t.blob, t.saveStatus);
          if Wrap32(t.millis - log.lastLog) > config.logInterval {
            log.UpdateLog(currReading, t.millis, t.storage);
            log.lastLog := t.millis;
          }
        }
      }
    }

    /**
     * `webserver.handleClient()` for one request, reached only while
     * `active`: the handler `Route` picks, replying with the current state.
     * `body` is the parse of the first argument, which only `putConfig` reads.
     */
    method Serve(req: Request, body: ConfigBody, millis: u32, files: set<string>) returns (resp: Option<Response>)
      requires Valid()
      modifies this
      ensures Valid()
      ensures active == old(active) && currReading == old(currReading) && error == old(error)
      ensures resp.None? <==> !active
      ensures config == if active && Route(req) == ConfigUpdate then PutConfig(old(config), |req.args|, body).1 else old(config)
      ensures active ==> resp.value == match Route(req)
        case RootPage => ROOT_REDIRECT
        case SensorReading => Reply(OK, "application/json", JsonBody(ReadingToJson(millis / 1000, currReading)))
        case ConfigRead => GetConfig(config)
        case ConfigUpdate => PutConfig(old(config), |req.args|, body).0
        case LogRead => Reply(OK, "application/json", LogBody(Document(log.slots[..], millis / 1000)))
        case StaticFile => StaticReply(req, files)
    {
      if !active {
        return None;
      }
      match Route(req)
      case RootPage =>
        resp := Some(ROOT_REDIRECT);
      case SensorReading =>
        resp := Some(Reply(OK, "application/json", JsonBody(ReadingToJson(millis / 1000, currReading))));
      case ConfigRead =>
        resp := Some(GetConfig(config));
      case ConfigUpdate =>
        var (r, c) := PutConfig(config, |req.args|, body);
        config := c;
        resp := Some(r);
      case LogRead =>
        var doc := log.GetLog(millis);
        resp := Some(Reply(OK, "application/json", LogBody(doc)));
      case StaticFile =>
        var r, _ := HandleWebRequests(req, files);
        resp := Some(r);
    }
  }

  /**
   * Boot with no valid calibration sentinel in flash: once the sensor is
   * configured, the whole calibration area is zeroed and committed, and the
   * current reading is still the zero reading.
   */
  method ColdBootWithoutCalibration(blobSize: nat, flash: seq<byte>, env: BootEnv) returns (m: Monitor)
    requires 0 < blobSize <= 254 && |flash| == blobSize + 1 && flash[0] != blobSize
    requires CheckIaqSensorStatus(env.configStatus)
    ensures m.calib.eeprom[..] == Zeros(blobSize + 1) && m.calib.committed == Zeros(blobSize + 1)
    ensures m.currReading == ZERO_READING && m.active == BootOk(env)
  {
    m := new Monitor(blobSize, flash, None);
    m.Setup(env);
  }

  /**
   * A fresh system with no log file in flash: after a successful boot,
   * GET /log returns LOGSIZE nominal entries, all with the boot timestamp.
   */
  method ColdBootLog(blobSize: nat, flash: seq<byte>, env: BootEnv, req: Request, body: ConfigBody, millis: u32, files: set<string>)
    returns (resp: Option<Response>)
    requires 0 < blobSize <= 254 && |flash| == blobSize + 1
    requires BootOk(env) && req.uri == "/log" && req.verb == Get
    ensures resp == Some(Reply(OK, "application/json",
      LogBody(Document(seq(LOGSIZE, _ => NominalReading(env.timestamp)), millis / 1000))))
  {
    var m := new Monitor(blobSize, flash, None);
    m.Setup(env);
    resp := m.Serve(req, body, millis, files);
  }

  /** A bad status while loading calibration does not stop the boot. */
  lemma LoadStatusIgnored(env: BootEnv, st: Status)
    ensures BootOk(env) == BootOk(env.(loadStatus := st))
  {
  }
}
