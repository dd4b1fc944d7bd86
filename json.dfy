/**
 * The JSON documents the firmware exchanges, at the level of JSON values:
 * one reading (`reading2json` / `json2reading`) and the configuration
 * (`getConfig`). Text rendering and parsing of the values is the library's
 * business and is not modelled; the members and their order are.
 */
module Json {
  import opened Definitions

  datatype JsonValue = JInt(i: int) | JNumber(x: real) | JString(s: string)

  /** A JSON object as its members in document order. */
  type JsonObject = seq<(string, JsonValue)>

  /** `doc[key]`: the value of the first member named `key`, if any. */
  function Lookup(o: JsonObject, key: string): (r: Option<JsonValue>)
  {
    LookupFrom(o, key, 0)
  }

  function LookupFrom(o: JsonObject, key: string, i: nat): (r: Option<JsonValue>)
    decreases |o| - i
  {
    if i >= |o| then None
    else if o[i].0 == key then Some(o[i].1)
    else LookupFrom(o, key, i + 1)
  }

  /** The member at position `k` is the one found when no earlier member has its name. */
  lemma {:induction false} LookupFirst(o: JsonObject, key: string, i: nat, k: nat)
    requires i <= k < |o| && o[k].0 == key
    requires forall j :: i <= j < k ==> o[j].0 != key
    ensures LookupFrom(o, key, i) == Some(o[k].1)
    decreases k - i
  {
    if i < k {
      LookupFirst(o, key, i + 1, k);
    }
  }

  function Keys(o: JsonObject): (ks: seq<string>)
    ensures |ks| == |o| && forall i :: 0 <= i < |o| ==> ks[i] == o[i].0
  {
    seq(|o|, i requires 0 <= i < |o| => o[i].0)
  }

  /**
   * `reading2json`: the uptime in seconds first, then the eight stored
   * members of the reading.
   */
  function ReadingToJson(uptime: nat, r: Reading): (o: JsonObject)
    ensures |o| == 9
  {
    seq(9, i requires 0 <= i < 9 => ReadingMember(uptime, r, i))
  }

  /** Member `i` of the encoding of a reading. */
  function ReadingMember(uptime: nat, r: Reading, i: nat): (string, JsonValue)
    requires i < 9
  {
    match i
    case 0 => ("uptime", JInt(uptime))
    case 1 => ("time", JString(r.time))
    case 2 => ("temp", JNumber(r.temp))
    case 3 => ("pres", JNumber(r.pres))
    case 4 => ("humy", JNumber(r.humy))
    case 5 => ("IAQ", JNumber(r.iaq))
    case 6 => ("IAQacc", JInt(r.iaqAcc))
    case 7 => ("CO2", JNumber(r.co2))
    case _ => ("VOC", JNumber(r.voc))
  }

  // Conversions of one member to the type of the field it is copied into.
  // A numeric member that is absent or of another kind reads as zero in the
  // model; the JSON library's own coercions are not modelled. The "time" member is copied with `strcpy`,
  // which is defined only when `TimeCopyable` holds; otherwise the model
  // reads it as the empty string.
  function AsReal(v: Option<JsonValue>): real
  {
    match v
    case Some(JNumber(x)) => x
    case Some(JInt(i)) => i as real
    case _ => 0.0
  }

  function AsByte(v: Option<JsonValue>): byte
  {
    match v
    case Some(JInt(i)) => if 0 <= i < 0x100 then i else 0
    case _ => 0
  }

  function AsString(v: Option<JsonValue>): string
  {
    match v
    case Some(JString(s)) => s
    case _ => ""
  }

  /** `json2reading` and the copy in `loadLog`: the eight stored members; "uptime" is ignored. */
  function JsonToReading(o: JsonObject): Reading
  {
    Reading(
      AsString(Lookup(o, "time")),
      AsReal(Lookup(o, "temp")),
      AsReal(Lookup(o, "pres")),
      AsReal(Lookup(o, "humy")),
      AsReal(Lookup(o, "IAQ")),
      AsByte(Lookup(o, "IAQacc")),
      AsReal(Lookup(o, "CO2")),
      AsReal(Lookup(o, "VOC")))
  }

  /**
   * What `strcpy(….time, doc["time"])` needs to be defined: a string member
   * "time" that fits `char time[25]` with its terminating NUL.
   */
  predicate TimeCopyable(o: JsonObject)
  {
    match Lookup(o, "time")
    case Some(JString(s)) => |s| < TIME_FIELD_SIZE
    case _ => false
  }

  /** Every entry written from a reading whose time fits its field can be copied back. */
  lemma EncodedTimeCopyable(uptime: nat, r: Reading)
    requires |r.time| < TIME_FIELD_SIZE
    ensures TimeCopyable(ReadingToJson(uptime, r))
  {
    LookupFirst(ReadingToJson(uptime, r), "time", 0, 1);
  }

  /** The members of an encoded reading, in order. */
  lemma ReadingMembers(uptime: nat, r: Reading)
    ensures Keys(ReadingToJson(uptime, r)) == ["uptime", "time", "temp", "pres", "humy", "IAQ", "IAQacc", "CO2", "VOC"]
  {
  }

  /** Decoding an encoded reading gives back the reading, whatever uptime was embedded. */
  lemma DecodeEncode(uptime: nat, r: Reading)
    ensures JsonToReading(ReadingToJson(uptime, r)) == r
  {
    var o := ReadingToJson(uptime, r);
    LookupFirst(o, "time", 0, 1);
    LookupFirst(o, "temp", 0, 2);
    LookupFirst(o, "pres", 0, 3);
    LookupFirst(o, "humy", 0, 4);
    LookupFirst(o, "IAQ", 0, 5);
    LookupFirst(o, "IAQacc", 0, 6);
    LookupFirst(o, "CO2", 0, 7);
    LookupFirst(o, "VOC", 0, 8);
  }

  /** Two readings encode alike only if they are equal and were written at the same uptime. */
  lemma EncodeInjective(u1: nat, r1: Reading, u2: nat, r2: Reading)
    requires ReadingToJson(u1, r1) == ReadingToJson(u2, r2)
    ensures r1 == r2 && u1 == u2
  {
    DecodeEncode(u1, r1);
    DecodeEncode(u2, r2);
    assert ReadingToJson(u1, r1)[0] == ReadingToJson(u2, r2)[0];
  }

  /** The `getConfig` payload: {"sensorInt":…,"graphInt":…,"logInt":…}. */
  function ConfigToJson(c: Config): (o: JsonObject)
  {
    [ ("sensorInt", JInt(c.sensorInterval)),
      ("graphInt", JInt(c.graphInterval)),
      ("logInt", JInt(c.logInterval)) ]
  }

  lemma ConfigMembers(c: Config)
    ensures Keys(ConfigToJson(c)) == ["sensorInt", "graphInt", "logInt"]
  {
  }
}
