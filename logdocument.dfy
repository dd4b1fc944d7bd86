/**
 * The log file "/logfile.json" and the log payload of GET /log, as a sequence
 * of lexical tokens: the header literal, the separating comma, the trailer
 * literal, one JSON object per reading, and anything else as opaque junk.
 * This module states the document layout `getLog` and `saveLog` write, the
 * reading of it that `loadLog` performs, and the append that `updateLog`
 * performs, as functions on values; the class in module SensorLog is proved
 * against them.
 */
module LogDocument {
  import opened Definitions
  import opened Json

  datatype Token =
    | Hdr                      // LOGFILE_HDR, {"logfile":[
    | Sep                      // ","
    | Tlr                      // LOGFILE_TLR, ]}
    | Entry(obj: JsonObject)   // one serialised reading
    | Junk(text: string)       // any other text

  /** The whole document: the header, then the entries from slot 0 on. */
  function Document(log: seq<Reading>, uptime: nat): (d: seq<Token>)
  {
    [Hdr] + DocumentFrom(log, uptime, 0)
  }

  /**
   * What `getLog` writes from slot k on: each entry, a comma after every
   * entry but the last, then the trailer.
   */
  function DocumentFrom(log: seq<Reading>, uptime: nat, k: nat): (d: seq<Token>)
    requires k <= |log|
    decreases |log| - k
  {
    if k == |log| then [Tlr]
    else if k == |log| - 1 then [Entry(ReadingToJson(uptime, log[k]))] + DocumentFrom(log, uptime, k + 1)
    else [Entry(ReadingToJson(uptime, log[k])), Sep] + DocumentFrom(log, uptime, k + 1)
  }

  /** `getLog` writes 2·n+1 tokens for n > 0 readings: the header, n entries, n-1 commas, the trailer. */
  lemma DocumentLength(log: seq<Reading>, uptime: nat)
    ensures |Document(log, uptime)| == if log == [] then 2 else 2 * |log| + 1
  {
    if log != [] {
      DocumentFromLength(log, uptime, 0);
    }
  }

  lemma {:induction false} DocumentFromLength(log: seq<Reading>, uptime: nat, k: nat)
    requires k < |log|
    ensures |DocumentFrom(log, uptime, k)| == 2 * (|log| - k)
    decreases |log| - k
  {
    if k < |log| - 1 {
      DocumentFromLength(log, uptime, k + 1);
    }
  }

  // ---------------------------------------------------------------------
  // Reading the document back (`loadLog`).

  /** `file.find(LOGFILE_HDR)`: what follows the first header; nothing if there is none. */
  function AfterHeader(ts: seq<Token>): (rest: seq<Token>)
    ensures |rest| <= |ts|
    decreases |ts|
  {
    if ts == [] then []
    else if ts[0] == Hdr then ts[1..]
    else AfterHeader(ts[1..])
  }

  lemma {:induction false} NoHeaderLeavesNothing(ts: seq<Token>)
    requires Hdr !in ts
    ensures AfterHeader(ts) == []
    decreases |ts|
  {
    if ts != [] {
      assert ts[0] != Hdr;
      assert Hdr !in ts[1..];
      NoHeaderLeavesNothing(ts[1..]);
    }
  }

  /**
   * `file.findUntil(",", "]")`: skips to the next comma (true, positioned
   * after it) or to the trailer or the end (false).
   */
  function FindUntil(ts: seq<Token>): (r: (bool, seq<Token>))
    ensures |r.1| <= |ts|
    ensures r.0 ==> |r.1| < |ts|
    decreases |ts|
  {
    if ts == [] then (false, [])
    else if ts[0] == Sep then (true, ts[1..])
    else if ts[0] == Tlr then (false, ts[1..])
    else FindUntil(ts[1..])
  }

  /**
   * What `loadLog` achieves: whether it succeeded, and the objects it parsed
   * in file order, whose decoded readings go into slots 0, 1, …
   */
  datatype Outcome = Outcome(ok: bool, objects: seq<JsonObject>)

  /**
   * The do-while loop of `loadLog`, with the slot bound added, reading from
   * the start of `ts` with all LOGSIZE-style `room` slots free.
   */
  function Entries(ts: seq<Token>, room: nat): (r: Outcome)
    ensures |r.objects| <= room
  {
    EntriesFrom(ts, room, [])
  }

  /**
   * The same loop part-way through, with the objects `done` already read
   * and `room` slots left: parse one object (any other token is a parse
   * error), then continue while a comma follows. Finding an object when no
   * slot is left is a failure: the bound the source does not check.
   */
  function EntriesFrom(ts: seq<Token>, room: nat, done: seq<JsonObject>): (r: Outcome)
    ensures |r.objects| <= |done| + room
    decreases |ts|
  {
    if ts == [] || !ts[0].Entry? || room == 0 then Outcome(false, done)
    else
      var next := FindUntil(ts[1..]);
      if !next.0 then Outcome(true, done + [ts[0].obj])
      else EntriesFrom(next.1, room - 1, done + [ts[0].obj])
  }

  /** The unbounded do-while loop of `loadLog` as written, storing at slot 0, 1, … */
  function EntriesAsWritten(ts: seq<Token>): Outcome
  {
    AsWrittenFrom(ts, [])
  }

  function AsWrittenFrom(ts: seq<Token>, done: seq<JsonObject>): Outcome
    decreases |ts|
  {
    if ts == [] || !ts[0].Entry? then Outcome(false, done)
    else
      var next := FindUntil(ts[1..]);
      if !next.0 then Outcome(true, done + [ts[0].obj])
      else AsWrittenFrom(next.1, done + [ts[0].obj])
  }

  /** `loadLog` on the stored file, if there is one, with the bound of LOGSIZE slots. */
  function Restore(file: Option<seq<Token>>): (r: Outcome)
    ensures |r.objects| <= LOGSIZE
    ensures file.None? ==> !r.ok && r.objects == []
  {
    match file
    case None => Outcome(false, [])
    case Some(ts) => Entries(AfterHeader(ts), LOGSIZE)
  }

  /** The readings `json2reading`-style copying makes of parsed objects. */
  function Decoded(objs: seq<JsonObject>): (rs: seq<Reading>)
    ensures |rs| == |objs|
  {
    seq(|objs|, k requires 0 <= k < |objs| => JsonToReading(objs[k]))
  }

  /** The objects a log is written as. */
  function Encoded(log: seq<Reading>, uptime: nat): (os: seq<JsonObject>)
    ensures |os| == |log|
  {
    seq(|log|, k requires 0 <= k < |log| => ReadingToJson(uptime, log[k]))
  }

  lemma DecodedEncoded(log: seq<Reading>, uptime: nat)
    ensures Decoded(Encoded(log, uptime)) == log
  {
    forall k | 0 <= k < |log|
      ensures Decoded(Encoded(log, uptime))[k] == log[k]
    {
      DecodeEncode(uptime, log[k]);
    }
  }

  /** The slots after a load from `file`: the restored prefix, then the slots as they were. */
  function AfterLoad(slots: seq<Reading>, file: Option<seq<Token>>): (s: seq<Reading>)
    requires |slots| == LOGSIZE
    ensures |s| == LOGSIZE
  {
    Overlay(slots, Restore(file).objects)
  }

  /** Slots after the objects `objs` were decoded into slots 0, 1, … */
  function Overlay(slots: seq<Reading>, objs: seq<JsonObject>): (s: seq<Reading>)
    requires |objs| <= |slots|
    ensures |s| == |slots|
  {
    Decoded(objs) + slots[|objs|..]
  }

  /** Decoding one more object into the next slot extends the overlay by that object. */
  lemma OverlayStep(slots: seq<Reading>, objs: seq<JsonObject>, o: JsonObject)
    requires |objs| < |slots|
    ensures Overlay(slots, objs)[|objs| := JsonToReading(o)] == Overlay(slots, objs + [o])
  {
    var i := |objs|;
    var lhs := Overlay(slots, objs)[i := JsonToReading(o)];
    var rhs := Overlay(slots, objs + [o]);
    forall k | 0 <= k < |slots|
      ensures lhs[k] == rhs[k]
    {
      if k < i {
        assert lhs[k] == Decoded(objs)[k] == JsonToReading(objs[k]);
        assert rhs[k] == Decoded(objs + [o])[k] == JsonToReading((objs + [o])[k]);
      } else if k > i {
        assert lhs[k] == slots[k] == rhs[k];
      }
    }
  }

  /** An object followed by a comma: it is read, and reading goes on after the comma. */
  lemma EntriesOnSep(ts: seq<Token>, room: nat, done: seq<JsonObject>)
    requires |ts| >= 2 && ts[0].Entry? && ts[1] == Sep && room > 0
    ensures EntriesFrom(ts, room, done) == EntriesFrom(ts[2..], room - 1, done + [ts[0].obj])
    ensures AsWrittenFrom(ts, done) == AsWrittenFrom(ts[2..], done + [ts[0].obj])
  {
    assert ts[1..][0] == Sep;
    assert ts[1..][1..] == ts[2..];
  }

  /** An object followed by the trailer: it is read, and reading ends successfully. */
  lemma EntriesOnTlr(ts: seq<Token>, room: nat, done: seq<JsonObject>)
    requires |ts| >= 2 && ts[0].Entry? && ts[1] == Tlr && room > 0
    ensures EntriesFrom(ts, room, done) == Outcome(true, done + [ts[0].obj])
    ensures AsWrittenFrom(ts, done) == Outcome(true, done + [ts[0].obj])
  {
    assert ts[1..][0] == Tlr;
  }

  /** The first two tokens written from slot k on, and where the writing continues. */
  lemma DocumentFromStep(log: seq<Reading>, uptime: nat, k: nat)
    requires k < |log|
    ensures var ts := DocumentFrom(log, uptime, k);
      && |ts| >= 2 && ts[0].Entry? && ts[0].obj == ReadingToJson(uptime, log[k])
      && (k == |log| - 1 ==> ts[1] == Tlr)
      && (k < |log| - 1 ==> ts[1] == Sep && ts[2..] == DocumentFrom(log, uptime, k + 1))
  {
    var ts := DocumentFrom(log, uptime, k);
    var e := Entry(ReadingToJson(uptime, log[k]));
    if k == |log| - 1 {
      assert DocumentFrom(log, uptime, k + 1) == [Tlr];
      assert ts == [e] + [Tlr];
    } else {
      assert ts == [e, Sep] + DocumentFrom(log, uptime, k + 1);
    }
  }

  /** The objects of slots k..j are that of slot k followed by those of k+1..j. */
  lemma EncodedStep(log: seq<Reading>, uptime: nat, k: nat, j: nat, done: seq<JsonObject>)
    requires k < j <= |log|
    ensures (done + [ReadingToJson(uptime, log[k])]) + Encoded(log[k + 1..j], uptime) == done + Encoded(log[k..j], uptime)
  {
    var o := ReadingToJson(uptime, log[k]);
    assert Encoded(log[k..j], uptime) == [o] + Encoded(log[k + 1..j], uptime);
  }

  /** Read from entry k on, a document yields the objects of slots k, k+1, … and succeeds. */
  lemma {:induction false} EntriesOfDocument(log: seq<Reading>, uptime: nat, k: nat, room: nat, done: seq<JsonObject>)
    requires k < |log| && |log| - k <= room
    ensures EntriesFrom(DocumentFrom(log, uptime, k), room, done) == Outcome(true, done + Encoded(log[k..], uptime))
    decreases |log| - k
  {
    var ts := DocumentFrom(log, uptime, k);
    DocumentFromStep(log, uptime, k);
    var o := ts[0].obj;
    EncodedStep(log, uptime, k, |log|, done);
    assert log[k..|log|] == log[k..] && log[k + 1..|log|] == log[k + 1..];
    if k == |log| - 1 {
      EntriesOnTlr(ts, room, done);
      assert Encoded(log[k + 1..], uptime) == [];
      assert done + [o] + [] == done + [o];
    } else {
      var tail := DocumentFrom(log, uptime, k + 1);
      EntriesOnSep(ts, room, done);
      assert EntriesFrom(ts, room, done) == EntriesFrom(tail, room - 1, done + [o]);
      EntriesOfDocument(log, uptime, k + 1, room - 1, done + [o]);
    }
  }

  /** The same for the unbounded loop as written. */
  lemma {:induction false} AsWrittenOfDocument(log: seq<Reading>, uptime: nat, k: nat, done: seq<JsonObject>)
    requires k < |log|
    ensures AsWrittenFrom(DocumentFrom(log, uptime, k), done) == Outcome(true, done + Encoded(log[k..], uptime))
    decreases |log| - k
  {
    var ts := DocumentFrom(log, uptime, k);
    DocumentFromStep(log, uptime, k);
    var o := ts[0].obj;
    EncodedStep(log, uptime, k, |log|, done);
    assert log[k..|log|] == log[k..] && log[k + 1..|log|] == log[k + 1..];
    if k == |log| - 1 {
      EntriesOnTlr(ts, 1, done);
      assert Encoded(log[k + 1..], uptime) == [];
      assert done + [o] + [] == done + [o];
    } else {
      var tail := DocumentFrom(log, uptime, k + 1);
      EntriesOnSep(ts, 1, done);
      assert AsWrittenFrom(ts, done) == AsWrittenFrom(tail, done + [o]);
      AsWrittenOfDocument(log, uptime, k + 1, done + [o]);
    }
  }

  /** With `room` slots left and more entries than that, the bounded loop fills them all and then fails. */
  lemma {:induction false} EntriesBounded(log: seq<Reading>, uptime: nat, k: nat, room: nat, done: seq<JsonObject>)
    requires k + room < |log|
    ensures EntriesFrom(DocumentFrom(log, uptime, k), room, done) == Outcome(false, done + Encoded(log[k..k + room], uptime))
    decreases room
  {
    var ts := DocumentFrom(log, uptime, k);
    DocumentFromStep(log, uptime, k);
    if room > 0 {
      var o := ts[0].obj;
      var tail := DocumentFrom(log, uptime, k + 1);
      EntriesOnSep(ts, room, done);
      assert EntriesFrom(ts, room, done) == EntriesFrom(tail, room - 1, done + [o]);
      EntriesBounded(log, uptime, k + 1, room - 1, done + [o]);
      assert log[k + 1..k + 1 + (room - 1)] == log[k + 1..k + room];
      EncodedStep(log, uptime, k, k + room, done);
    } else {
      assert Encoded(log[k..k], uptime) == [];
      assert done + [] == done;
    }
  }

  /**
   * Restoring a saved log succeeds and gives back every slot, field for
   * field, in order, whatever uptime was written into the entries.
   */
  lemma RestoreDocument(log: seq<Reading>, uptime: nat)
    requires 0 < |log| <= LOGSIZE
    ensures Restore(Some(Document(log, uptime))).ok
    ensures Decoded(Restore(Some(Document(log, uptime))).objects) == log
  {
    assert AfterHeader(Document(log, uptime)) == DocumentFrom(log, uptime, 0);
    EntriesOfDocument(log, uptime, 0, LOGSIZE, []);
    assert [] + Encoded(log, uptime) == Encoded(log, uptime);
    assert log[0..] == log;
    DecodedEncoded(log, uptime);
  }

  lemma AfterLoadDocument(slots: seq<Reading>, log: seq<Reading>, uptime: nat)
    requires |slots| == LOGSIZE && |log| == LOGSIZE
    ensures AfterLoad(slots, Some(Document(log, uptime))) == log
  {
    RestoreDocument(log, uptime);
  }

  /** A file without the header is not restored: the header search consumes the whole file. */
  lemma RestoreWithoutHeader(ts: seq<Token>)
    requires Hdr !in ts
    ensures Restore(Some(ts)) == Outcome(false, [])
  {
    NoHeaderLeavesNothing(ts);
  }

  /**
   * A file with more entries than slots (one written before LOGSIZE was
   * reduced): the loop as written goes on storing past the last slot, while
   * the bounded loop fills every slot and then fails.
   */
  lemma OversizedDocument(log: seq<Reading>, uptime: nat)
    requires |log| == LOGSIZE + 1
    ensures |EntriesAsWritten(AfterHeader(Document(log, uptime))).objects| == LOGSIZE + 1
    ensures !Restore(Some(Document(log, uptime))).ok
    ensures Decoded(Restore(Some(Document(log, uptime))).objects) == log[..LOGSIZE]
  {
    assert AfterHeader(Document(log, uptime)) == DocumentFrom(log, uptime, 0);
    AsWrittenOfDocument(log, uptime, 0, []);
    EntriesBounded(log, uptime, 0, LOGSIZE, []);
    assert [] + Encoded(log, uptime) == Encoded(log, uptime);
    assert [] + Encoded(log[0..LOGSIZE], uptime) == Encoded(log[0..LOGSIZE], uptime);
    assert log[0..0 + LOGSIZE] == log[..LOGSIZE];
    DecodedEncoded(log[..LOGSIZE], uptime);
  }

  /** The concrete document of 241 zero readings exhibits the overrun. */
  lemma LoadLogOverrun()
    ensures var d := Document(seq(LOGSIZE + 1, _ => ZERO_READING), 0);
            |EntriesAsWritten(AfterHeader(d)).objects| > LOGSIZE
            && !Restore(Some(d)).ok
  {
    OversizedDocument(seq(LOGSIZE + 1, _ => ZERO_READING), 0);
  }

  // ---------------------------------------------------------------------
  // Writing the document (`saveLog`).

  /**
   * How the flash file system behaves during one save: whether the file can
   * be opened, and how many `file.print` calls succeed before the first one
   * fails.
   */
  datatype Storage = Storage(opens: bool, writes: nat)

  function Truncate(d: seq<Token>, n: nat): (r: seq<Token>)
    ensures r <= d && |r| == if n < |d| then n else |d|
  {
    if n < |d| then d[..n] else d
  }

  /**
   * The file after `saveLog`: removed first, then absent if it cannot be
   * opened, otherwise as much of the document as was written before the
   * first failing print (nothing is rolled back).
   */
  function Persisted(log: seq<Reading>, millis: u32, st: Storage): (file: Option<seq<Token>>)
    ensures file.Some? <==> st.opens
    ensures file.Some? ==> file.value <= Document(log, millis / 1000)
  {
    if !st.opens then None else Some(Truncate(Document(log, millis / 1000), st.writes))
  }

  /** `saveLog` succeeds when the file opens and every one of its 2·|log|+1 prints succeeds. */
  predicate PersistOk(log: seq<Reading>, st: Storage)
  {
    st.opens && st.writes >= 2 * |log| + 1
  }

  /** A save whose prints give out after the part `out` of the document leaves that part, and fails. */
  lemma SaveCutShort(log: seq<Reading>, millis: u32, st: Storage, out: seq<Token>, rest: seq<Token>)
    requires |log| > 0 && st.opens && Document(log, millis / 1000) == out + rest && rest != [] && |out| == st.writes
    ensures Persisted(log, millis, st) == Some(out) && !PersistOk(log, st)
  {
    DocumentLength(log, millis / 1000);
    assert Document(log, millis / 1000)[..|out|] == out;
  }

  /** A save that prints the whole document leaves it, and succeeds. */
  lemma SaveComplete(log: seq<Reading>, millis: u32, st: Storage, out: seq<Token>)
    requires |log| > 0 && st.opens && Document(log, millis / 1000) == out && |out| <= st.writes
    ensures Persisted(log, millis, st) == Some(out) && PersistOk(log, st)
  {
    DocumentLength(log, millis / 1000);
    assert |out| == 2 * |log| + 1;
    assert Truncate(out, st.writes) == out;
  }

  /** A successful save leaves exactly the document in the file, and it restores to the log. */
  lemma PersistThenRestore(log: seq<Reading>, millis: u32, st: Storage)
    requires |log| == LOGSIZE && PersistOk(log, st)
    ensures Persisted(log, millis, st) == Some(Document(log, millis / 1000))
    ensures Restore(Persisted(log, millis, st)).ok
    ensures Decoded(Restore(Persisted(log, millis, st)).objects) == log
  {
    DocumentLength(log, millis / 1000);
    RestoreDocument(log, millis / 1000);
  }

  /**
   * Two saves of the same log in the same second of uptime, whose prints
   * succeed alike, leave the same file.
   */
  lemma SavesSameSecond(log: seq<Reading>, m1: u32, m2: u32, st: Storage)
    requires m1 / 1000 == m2 / 1000
    ensures Persisted(log, m1, st) == Persisted(log, m2, st)
  {
  }

  /**
   * Two successful saves of the same non-empty log in different seconds of
   * uptime leave different files, since every entry carries the uptime.
   */
  lemma SavesDifferByUptime(log: seq<Reading>, m1: u32, m2: u32, st1: Storage, st2: Storage)
    requires |log| > 0 && PersistOk(log, st1) && PersistOk(log, st2) && m1 / 1000 != m2 / 1000
    ensures Persisted(log, m1, st1) != Persisted(log, m2, st2)
  {
    var u1, u2 := m1 / 1000, m2 / 1000;
    DocumentLength(log, u1);
    DocumentLength(log, u2);
    var d1, d2 := Document(log, u1), Document(log, u2);
    assert Persisted(log, m1, st1) == Some(d1);
    assert Persisted(log, m2, st2) == Some(d2);
    DocumentFromStep(log, u1, 0);
    DocumentFromStep(log, u2, 0);
    assert d1[1] == DocumentFrom(log, u1, 0)[0];
    assert d2[1] == DocumentFrom(log, u2, 0)[0];
    if d1 == d2 {
      EncodeInjective(u1, log[0], u2, log[0]);
    }
  }

  // ---------------------------------------------------------------------
  // Appending (`updateLog`).

  /** The log after one append: the oldest slot dropped, the new reading last. */
  function Appended(log: seq<Reading>, r: Reading): (s: seq<Reading>)
    requires |log| > 0
    ensures |s| == |log| && s[|s| - 1] == r
    ensures forall i :: 0 <= i < |log| - 1 ==> s[i] == log[i + 1]
  {
    log[1..] + [r]
  }

  function AppendAll(log: seq<Reading>, rs: seq<Reading>): seq<Reading>
    requires |log| > 0
    decreases |rs|
  {
    if rs == [] then log else AppendAll(Appended(log, rs[0]), rs[1..])
  }

  /**
   * After any sequence of appends the log keeps its capacity and holds the
   * last |log| readings of the history (old contents followed by the
   * appended readings), oldest first.
   */
  lemma {:induction false} AppendAllKeepsLatest(log: seq<Reading>, rs: seq<Reading>)
    requires |log| > 0
    ensures AppendAll(log, rs) == (log + rs)[|rs|..]
    ensures |AppendAll(log, rs)| == |log|
    decreases |rs|
  {
    if rs != [] {
      var next := Appended(log, rs[0]);
      AppendAllKeepsLatest(next, rs[1..]);
      assert next + rs[1..] == (log + rs)[1..];
    }
  }

  /** After k <= capacity appends, the last k slots are the appended readings in order. */
  lemma LastSlotsAppended(log: seq<Reading>, rs: seq<Reading>)
    requires 0 < |log| && |rs| <= |log|
    ensures |AppendAll(log, rs)| == |log|
    ensures AppendAll(log, rs)[|log| - |rs|..] == rs
  {
    AppendAllKeepsLatest(log, rs);
    assert (log + rs)[|rs|..][|log| - |rs|..] == rs;
  }
}
