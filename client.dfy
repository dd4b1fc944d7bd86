/**
 * The helpers of the browser script src/iaqmonitor.js that compute values:
 * `leftPad`, `formatUptime`, `getIAQDesc` and the fallback intervals of its
 * `getConfig`.
 */
module Client {
  import opened Definitions
  import opened Decimal
  import opened Json

  /** `leftPad`: the value as text, with a "0" in front exactly when it is below 10. */
  function LeftPad(n: nat): (s: string)
    ensures |s| >= 1 && AllDigits(s) && Value(s) == n
    ensures (s[0] == '0' && |s| > 1) <==> n < 10
    ensures n < 100 ==> |s| == 2
  {
    FromNatLength(n);
    ValueOfFromNat(n);
    var s := if n < 10 then "0" + FromNat(n) else FromNat(n);
    assert n < 10 ==> s[1..] == FromNat(n);
    s
  }

  // The fields `formatUptime` derives from a duration in seconds.
  function Hours(d: nat): nat { d / 3600 }
  function Minutes(d: nat): nat { (d % 3600) / 60 }
  function Seconds(d: nat): nat { d % 60 }

  /** `formatUptime`: H:MM:SS, the hours neither padded nor wrapped at 24. */
  function FormatUptime(d: nat): string
  {
    var hrs, mins, secs := Hours(d), Minutes(d), Seconds(d);
    var part1 := FromNat(hrs) + ":" + (if mins < 10 then "0" else "");
    var part2 := FromNat(mins) + ":" + (if secs < 10 then "0" else "");
    var part3 := FromNat(secs);
    part1 + part2 + part3
  }

  lemma Regroup(a: string, b: string, c: string, d: string, e: string, f: string, g: string)
    ensures (a + b + c) + (d + e + f) + g == a + b + (c + d) + e + (f + g)
  {
  }

  /** The three fields recombine to the duration, and minutes and seconds stay below 60. */
  lemma UptimeFields(d: nat)
    ensures Hours(d) * 3600 + Minutes(d) * 60 + Seconds(d) == d
    ensures Minutes(d) < 60 && Seconds(d) < 60
  {
  }

  /** The inline padding of `formatUptime` is `leftPad`: minutes and seconds take two digits. */
  lemma FormatUptimeShape(d: nat)
    ensures FormatUptime(d) == FromNat(Hours(d)) + ":" + LeftPad(Minutes(d)) + ":" + LeftPad(Seconds(d))
    ensures |LeftPad(Minutes(d))| == 2 && |LeftPad(Seconds(d))| == 2
  {
    var mins, secs := Minutes(d), Seconds(d);
    Regroup(FromNat(Hours(d)), ":", if mins < 10 then "0" else "", FromNat(mins), ":",
            if secs < 10 then "0" else "", FromNat(secs));
  }

  /** Reading H:MM:SS back: the hours are all but the last six characters. */
  function ParseUptime(s: string): (r: Option<(nat, nat, nat)>)
  {
    if |s| >= 7 && s[|s| - 6] == ':' && s[|s| - 3] == ':'
      && AllDigits(s[..|s| - 6]) && AllDigits(s[|s| - 5..|s| - 3]) && AllDigits(s[|s| - 2..])
    then Some((Value(s[..|s| - 6]), Value(s[|s| - 5..|s| - 3]), Value(s[|s| - 2..])))
    else None
  }

  lemma ParseJoined(h: string, m: string, sec: string)
    requires |h| >= 1 && |m| == 2 && |sec| == 2
    requires AllDigits(h) && AllDigits(m) && AllDigits(sec)
    ensures ParseUptime(h + ":" + m + ":" + sec) == Some((Value(h), Value(m), Value(sec)))
  {
    var t := h + ":" + m + ":";
    var s := t + sec;
    assert |t| == |h| + 4 && |s| == |h| + 6;
    assert s[..|s| - 6] == h by {
      assert s[..|h|] == t[..|h|];
    }
    assert s[|s| - 6] == ':' && s[|s| - 3] == ':';
    assert s[|s| - 5..|s| - 3] == m by {
      assert s[|h| + 1..|h| + 3] == t[|h| + 1..|h| + 3];
    }
    assert s[|s| - 2..] == sec;
  }

  /** The displayed uptime determines the duration: parsing it gives the fields, which recombine to it. */
  lemma ParseFormatUptime(d: nat)
    ensures ParseUptime(FormatUptime(d)) == Some((Hours(d), Minutes(d), Seconds(d)))
    ensures var f := ParseUptime(FormatUptime(d)).value; f.0 * 3600 + f.1 * 60 + f.2 == d
  {
    FormatUptimeShape(d);
    ValueOfFromNat(Hours(d));
    ParseJoined(FromNat(Hours(d)), LeftPad(Minutes(d)), LeftPad(Seconds(d)));
    UptimeFields(d);
  }

  /**
   * `getIAQDesc`: successive guarded reassignments of one label; the second
   * guard repeats the first, so "Fair" is always overwritten.
   */
  function IaqDescription(iaq: real): (desc: string)
    ensures iaq <= 50.0 ==> desc == "Good"
    ensures 50.0 < iaq <= 100.0 ==> desc == "Average"
    ensures 100.0 < iaq <= 150.0 ==> desc == "Slightly bad"
    ensures 150.0 < iaq <= 200.0 ==> desc == "Bad"
    ensures 200.0 < iaq <= 300.0 ==> desc == "Worse"
    ensures 300.0 < iaq ==> desc == "Very bad"
  {
    var d0 := "Good";
    var d1 := if iaq > 50.0 then "Fair" else d0;
    var d2 := if iaq > 50.0 then "Average" else d1;
    var d3 := if iaq > 100.0 then "Slightly bad" else d2;
    var d4 := if iaq > 150.0 then "Bad" else d3;
    var d5 := if iaq > 200.0 then "Worse" else d4;
    var d6 := if iaq > 300.0 then "Very bad" else d5;
    d6
  }

  lemma FairUnreachable(iaq: real)
    ensures IaqDescription(iaq) != "Fair"
  {
  }

  /**
   * `parseInt` of one member, for the values a "/config" reply can carry:
   * an integer is kept, a plain non-negative decimal string is read by its
   * leading digits, and an absent member gives NaN (None). The whitespace,
   * sign and "0x" handling of `parseInt`, and its reading of a non-integer
   * number through its text, are not modelled; a non-integer number is cut
   * to its integer part.
   */
  function ParseInt(v: Option<JsonValue>): Option<int>
  {
    match v
    case Some(JInt(i)) => Some(i)
    case Some(JNumber(x)) => Some(if x >= 0.0 then x.Floor else -((-x).Floor))
    case Some(JString(s)) =>
      var k := DigitPrefix(s);
      if k == 0 then None else Some(Value(s[..k]))
    case None => None
  }

  /** The length of the run of decimal digits that starts `s`. */
  function DigitPrefix(s: string): (k: nat)
    ensures k <= |s| && AllDigits(s[..k])
    ensures k < |s| ==> !IsDigit(s[k])
    decreases |s|
  {
    if s != [] && IsDigit(s[0]) then
      var k := 1 + DigitPrefix(s[1..]);
      assert s[..k] == [s[0]] + s[1..][..k - 1];
      k
    else 0
  }

  function OrElse(r: Option<int>, fallback: int): int
  {
    if r.Some? then r.value else fallback
  }

  /** The three intervals the page adopts from a "/config" reply, NaN replaced by 5000, 5000, 3600000. */
  function ClientIntervals(o: JsonObject): (iv: (int, int, int))
  {
    ( OrElse(ParseInt(Lookup(o, "sensorInt")), 5000),
      OrElse(ParseInt(Lookup(o, "graphInt")), 5000),
      OrElse(ParseInt(Lookup(o, "logInt")), 3600000) )
  }

  /** The page adopts exactly the intervals the device reports. */
  lemma ClientReadsConfig(c: Config)
    ensures ClientIntervals(ConfigToJson(c)) == (c.sensorInterval, c.graphInterval, c.logInterval)
  {
    var o := ConfigToJson(c);
    LookupFirst(o, "sensorInt", 0, 0);
    LookupFirst(o, "graphInt", 0, 1);
    LookupFirst(o, "logInt", 0, 2);
  }

  /** A reply without usable members yields the fallbacks, whose graph interval differs from the device default. */
  lemma ClientFallbacks()
    ensures ClientIntervals([]) == (5000, 5000, 3600000)
    ensures ClientIntervals([]).1 != DEFAULT_CONFIG.graphInterval
    ensures ClientIntervals([]).2 != DEFAULT_CONFIG.logInterval
  {
  }
}
