/**
 * The REST resource "/config" of src/main.cpp: `getConfig` reports the three
 * intervals, `putConfig` validates and installs new ones.
 */
module Configuration {
  import opened Definitions
  import opened Json
  import opened Http

  /**
   * The first argument of a PUT as the JSON library delivers it: not
   * parseable, or the three members read as unsigned 32-bit numbers.
   */
  datatype ConfigBody = Unparsable | Fields(sensorInt: u32, graphInt: u32, logInt: u32)

  /** `getConfig`: 200 with {"sensorInt":…,"graphInt":…,"logInt":…}. */
  function GetConfig(c: Config): (r: Response)
    ensures r.status == OK && r.contentType == "application/json"
    ensures r.body == JsonBody(ConfigToJson(c))
  {
    Reply(OK, "application/json", JsonBody(ConfigToJson(c)))
  }

  /**
   * `putConfig` with `argCount` request arguments and `body` the parse of the
   * first: the reply and the configuration afterwards.
   */
  function PutConfig(c: Config, argCount: nat, body: ConfigBody): (res: (Response, Config))
    ensures res.0.contentType == "text/plain" && res.0.location == None
    ensures res.0.status == OK <==> argCount > 0 && body.Fields? && InRange(body.sensorInt, body.graphInt, body.logInt)
    ensures res.0.status != OK ==> res.0.status == INTERNAL_SERVER_ERROR && res.1 == c
    ensures res.0.status == OK ==>
      res.0.body == Text("SUCCESS") && res.1 == Config(body.sensorInt, body.graphInt, body.logInt)
  {
    if argCount == 0 then
      (Reply(INTERNAL_SERVER_ERROR, "text/plain", Text("MISSING ARGS")), c)
    else if body.Unparsable? then
      (Reply(INTERNAL_SERVER_ERROR, "text/plain", Text("INVALID JSON")), c)
    else if body.sensorInt < 1000 || body.graphInt < 1000 || body.logInt < 1000 || body.logInt > 99999000 then
      (Reply(INTERNAL_SERVER_ERROR, "text/plain", Text("INVALID ARGS")), c)
    else
      var c' := Config(body.sensorInt, body.graphInt, body.logInt);
      (Reply(OK, "text/plain", Text("SUCCESS")), c')
  }

  /** The checks run in order: missing arguments first, then parsing, then the bounds. */
  lemma PutConfigErrorOrder(c: Config, argCount: nat, body: ConfigBody)
    ensures argCount == 0 ==> PutConfig(c, argCount, body).0.body == Text("MISSING ARGS")
    ensures argCount > 0 && body.Unparsable? ==> PutConfig(c, argCount, body).0.body == Text("INVALID JSON")
    ensures argCount > 0 && body.Fields? && !InRange(body.sensorInt, body.graphInt, body.logInt) ==>
      PutConfig(c, argCount, body).0.body == Text("INVALID ARGS")
  {
  }

  /** Every configuration `putConfig` installs, or keeps from an admissible one, is admissible. */
  lemma PutConfigKeepsAdmissible(c: Config, argCount: nat, body: ConfigBody)
    requires Admissible(c)
    ensures Admissible(PutConfig(c, argCount, body).1)
  {
  }

  /** Reading the members back from a `getConfig` payload. */
  function ConfigFromJson(o: JsonObject): (c: Config)
  {
    Config(AsU32(Lookup(o, "sensorInt")), AsU32(Lookup(o, "graphInt")), AsU32(Lookup(o, "logInt")))
  }

  function AsU32(v: Option<JsonValue>): u32
  {
    match v
    case Some(JInt(i)) => if 0 <= i < U32_MODULUS then i else 0
    case _ => 0
  }

  lemma ConfigRoundTrip(c: Config)
    ensures ConfigFromJson(ConfigToJson(c)) == c
  {
    var o := ConfigToJson(c);
    LookupFirst(o, "sensorInt", 0, 0);
    LookupFirst(o, "graphInt", 0, 1);
    LookupFirst(o, "logInt", 0, 2);
  }

  /** After a successful PUT, GET reports exactly the values that were put. */
  lemma GetAfterPut(c: Config, argCount: nat, body: ConfigBody)
    requires PutConfig(c, argCount, body).0.status == OK
    ensures var r := GetConfig(PutConfig(c, argCount, body).1);
      r.body.JsonBody? && ConfigFromJson(r.body.doc) == Config(body.sensorInt, body.graphInt, body.logInt)
  {
    ConfigRoundTrip(PutConfig(c, argCount, body).1);
  }

  /** A sensor interval below one second is refused and the defaults stay in force. */
  lemma ShortSensorIntervalRefused()
    ensures PutConfig(DEFAULT_CONFIG, 1, Fields(500, 60000, 1800000))
      == (Reply(INTERNAL_SERVER_ERROR, "text/plain", Text("INVALID ARGS")), DEFAULT_CONFIG)
  {
  }
}
