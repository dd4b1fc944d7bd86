/**
 * The in-memory reading log `sensorLog[LOGSIZE]` of src/main.cpp together
 * with its file in flash and `lastLog`, the time of the last successful save.
 * Each method is proved against the value-level definitions of module
 * LogDocument.
 */
module SensorLog {
  import opened Definitions
  import opened Json
  import opened LogDocument

  class SensorLog {
    const slots: array<Reading>
    // The contents of "/logfile.json", or None when there is no such file.
    var file: Option<seq<Token>>
    var lastLog: u32

    ghost predicate Valid()
      reads this
    {
      slots.Length == LOGSIZE
    }

    /** The zero-initialised array, with the file the flash held at power-on. */
    constructor (stored: Option<seq<Token>>)
      ensures Valid() && fresh(slots)
      ensures slots[..] == seq(LOGSIZE, _ => ZERO_READING)
      ensures file == stored && lastLog == 0
    {
      slots := new Reading[LOGSIZE](_ => ZERO_READING);
      file := stored;
      lastLog := 0;
    }

    /** `getLog`: the log payload, header, the LOGSIZE entries comma-joined, trailer. */
    method GetLog(millis: u32) returns (doc: seq<Token>)
      requires Valid()
      ensures doc == Document(slots[..], millis / 1000)
    {
      var uptime := millis / 1000;
      ghost var log := slots[..];
      doc := [Hdr];
      var i := 0;
      while i < LOGSIZE
        invariant 0 <= i <= LOGSIZE
        invariant Document(log, uptime) == doc + DocumentFrom(log, uptime, i)
      {
        var entry := Entry(ReadingToJson(uptime, slots[i]));
        if i < LOGSIZE - 1 {
          assert DocumentFrom(log, uptime, i) == [entry] + [Sep] + DocumentFrom(log, uptime, i + 1);
          assert Document(log, uptime) == doc + [entry] + [Sep] + DocumentFrom(log, uptime, i + 1);
          doc := doc + [entry] + [Sep];
        } else {
          assert DocumentFrom(log, uptime, i) == [entry] + DocumentFrom(log, uptime, i + 1);
          assert Document(log, uptime) == doc + [entry] + DocumentFrom(log, uptime, i + 1);
          doc := doc + [entry];
        }
        i := i + 1;
      }
      doc := doc + [Tlr];
    }

    /**
     * `saveLog`: remove the file, open it for appending, print the header,
     * each entry and each separating comma, then the trailer; stop at the
     * first print that fails, keeping what was written. On success `lastLog`
     * becomes the current time.
     */
    method SaveLog(millis: u32, st: Storage) returns (ok: bool)
      requires Valid()
      modifies this
      ensures Valid()
      ensures file == Persisted(slots[..], millis, st)
      ensures ok == PersistOk(slots[..], st)
      ensures lastLog == if ok then millis else old(lastLog)
    {
      var uptime := millis / 1000;
      ghost var log := slots[..];
      ghost var d := Document(log, uptime);
      file := None;
      if !st.opens {
        return false;
      }
      var out: seq<Token> := [];
      var budget: nat := st.writes;
      if budget == 0 {
        SaveCutShort(log, millis, st, out, d);
        file := Some(out);
        return false;
      }
      out, budget := out + [Hdr], budget - 1;
      var i := 0;
      while i < LOGSIZE
        invariant 0 <= i <= LOGSIZE
        invariant d == out + DocumentFrom(log, uptime, i)
        invariant budget + |out| == st.writes
        invariant file == None
      {
        if budget == 0 {
          SaveCutShort(log, millis, st, out, DocumentFrom(log, uptime, i));
          file := Some(out);
          return false;
        }
        var entry := Entry(ReadingToJson(uptime, slots[i]));
        if i < LOGSIZE - 1 {
          assert d == out + [entry] + ([Sep] + DocumentFrom(log, uptime, i + 1));
          out, budget := out + [entry], budget - 1;
          if budget == 0 {
            SaveCutShort(log, millis, st, out, [Sep] + DocumentFrom(log, uptime, i + 1));
            file := Some(out);
            return false;
          }
          assert d == out + [Sep] + DocumentFrom(log, uptime, i + 1);
          out, budget := out + [Sep], budget - 1;
        } else {
          assert d == out + [entry] + DocumentFrom(log, uptime, i + 1);
          out, budget := out + [entry], budget - 1;
        }
        i := i + 1;
      }
      if budget == 0 {
        SaveCutShort(log, millis, st, out, [Tlr]);
        file := Some(out);
        return false;
      }
      out := out + [Tlr];
      SaveComplete(log, millis, st, out);
      file := Some(out);
      lastLog := millis;
      return true;
    }

    /**
     * `updateLog`: shift every reading one slot towards the front, dropping
     * the oldest, store the current reading in the last slot, then save.
     */
    method UpdateLog(current: Reading, millis: u32, st: Storage)
      requires Valid()
      modifies this, slots
      ensures Valid()
      ensures slots[..] == Appended(old(slots[..]), current)
      ensures file == Persisted(slots[..], millis, st)
      ensures lastLog == if PersistOk(slots[..], st) then millis else old(lastLog)
    {
      var i := 0;
      while i < LOGSIZE - 1
        invariant 0 <= i <= LOGSIZE - 1
        modifies slots
        invariant forall k :: 0 <= k < i ==> slots[k] == old(slots[k + 1])
        invariant forall k :: i <= k < LOGSIZE ==> slots[k] == old(slots[k])
      {
        slots[i] := slots[i + 1];
        i := i + 1;
      }
      slots[LOGSIZE - 1] := current;
      assert slots[..] == Appended(old(slots[..]), current) by {
        forall k | 0 <= k < LOGSIZE
          ensures slots[k] == Appended(old(slots[..]), current)[k]
        {
        }
      }
      var _ := SaveLog(millis, st);
    }

    /** `initLog`: every slot the nominal reading stamped with `timestamp`, then save. */
    method InitLog(timestamp: string, millis: u32, st: Storage)
      requires Valid()
      modifies this, slots
      ensures Valid()
      ensures slots[..] == seq(LOGSIZE, _ => NominalReading(timestamp))
      ensures file == Persisted(slots[..], millis, st)
      ensures lastLog == if PersistOk(slots[..], st) then millis else old(lastLog)
    {
      var nominal := NominalReading(timestamp);
      var i := 0;
      while i < LOGSIZE
        invariant 0 <= i <= LOGSIZE
        modifies slots
        invariant forall k :: 0 <= k < i ==> slots[k] == nominal
      {
        slots[i] := nominal;
        i := i + 1;
      }
      var _ := SaveLog(millis, st);
    }

    /**
     * `loadLog`, with the slot bound added: fail if there is no file; skip
     * past the header; then read the entries.
     */
    method LoadLog() returns (ok: bool)
      requires Valid()
      modifies slots
      ensures ok == Restore(file).ok
      ensures slots[..] == AfterLoad(old(slots[..]), file)
    {
      if file.None? {
        return false;
      }
      ok := ReadEntries(AfterHeader(file.value));
    }

    /**
     * The do-while loop of `loadLog`, with the slot bound added: parse one
     * object into slot 0, 1, … while a comma follows. A parse error, or an
     * object with no slot left for it, fails; slots already filled stay
     * filled.
     */
    method ReadEntries(ts: seq<Token>) returns (ok: bool)
      requires Valid()
      modifies slots
      ensures ok == Entries(ts, LOGSIZE).ok
      ensures slots[..] == Overlay(old(slots[..]), Entries(ts, LOGSIZE).objects)
    {
      ghost var initial := slots[..];
      ghost var done: seq<JsonObject> := [];
      ghost var room: nat := LOGSIZE;
      var rest := ts;
      var i := 0;
      while true
        invariant i == |done| && room == LOGSIZE - i
        invariant EntriesFrom(rest, room, done) == Entries(ts, LOGSIZE)
        invariant slots[..] == Overlay(initial, done)
        decreases |rest|
      {
        if rest == [] || !rest[0].Entry? || i == LOGSIZE {
          return false;
        }
        var o := rest[0].obj;
        OverlayStep(initial, done, o);
        var next := FindUntil(rest[1..]);
        slots[i] := JsonToReading(o);
        i, room, done := i + 1, room - 1, done + [o];
        rest := next.1;
        if !next.0 {
          return true;
        }
      }
    }
  }
}
