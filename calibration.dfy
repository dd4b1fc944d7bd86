/**
 * The sensor-calibration store of src/main.cpp: the BSEC status check, the
 * save schedule of `updateState`, and the EEPROM area in which byte 0 holds
 * a length sentinel and bytes 1..N the calibration blob of N bytes.
 */
module Calibration {
  import opened Definitions

  /** The two status codes the BSEC library reports after each call. */
  datatype Status = Status(bsec: int, bme680: int)

  const BSEC_OK: int := 0
  const BME680_OK: int := 0

  /**
   * `checkIaqSensorStatus`: a negative code is an error, a positive one only
   * a warning; both codes are examined, the library's first.
   */
  function CheckIaqSensorStatus(s: Status): (ok: bool)
    ensures ok <==> s.bsec >= BSEC_OK && s.bme680 >= BME680_OK
    ensures s.bsec > BSEC_OK && s.bme680 > BME680_OK ==> ok
  {
    if s.bsec != BSEC_OK && s.bsec < BSEC_OK then false
    else if s.bme680 != BME680_OK && s.bme680 < BME680_OK then false
    else true
  }

  // ---------------------------------------------------------------------
  // The save schedule.

  /**
   * Whether `updateState` saves on this tick: the first save waits for full
   * calibration (accuracy 3); each later one for `counter × STATE_SAVE_PERIOD`
   * milliseconds of uptime, the product taken in uint32_t arithmetic.
   */
  function SaveDue(counter: u16, accuracy: byte, millis: u32): bool
  {
    if counter == 0 then accuracy >= 3
    else Wrap32(counter * STATE_SAVE_PERIOD) < millis
  }

  /** For the first 198 timed saves the uint32_t product is exact: save k is due after k periods. */
  lemma ScheduleExact(counter: u16, accuracy: byte, millis: u32)
    requires 1 <= counter <= 198
    ensures SaveDue(counter, accuracy, millis) <==> counter * STATE_SAVE_PERIOD < millis
  {
    assert counter * STATE_SAVE_PERIOD <= 198 * 21600000 < U32_MODULUS;
  }

  /**
   * At counter 199 the product wraps to 3,432,704 ms, so the save is due on
   * any tick after the first hour, although 199 periods have not elapsed
   * (and never can, uptime itself being a uint32_t).
   */
  lemma ScheduleWrapsAt199(accuracy: byte, millis: u32)
    requires millis > 3432704
    ensures Wrap32(199 * STATE_SAVE_PERIOD) == 3432704
    ensures SaveDue(199, accuracy, millis)
    ensures 199 * STATE_SAVE_PERIOD >= U32_MODULUS
  {
  }

  datatype Tick = Tick(accuracy: byte, millis: u32)

  /** Which of a run of ticks save, starting from `counter`. */
  function Schedule(counter: u16, ticks: seq<Tick>): (fired: seq<bool>)
    ensures |fired| == |ticks|
    decreases |ticks|
  {
    if ticks == [] then []
    else
      var due := SaveDue(counter, ticks[0].accuracy, ticks[0].millis);
      [due] + Schedule(if due then Inc16(counter) else counter, ticks[1..])
  }

  lemma {:induction false} NothingDueWithinPeriod(ticks: seq<Tick>)
    requires forall j :: 0 <= j < |ticks| ==> ticks[j].millis <= STATE_SAVE_PERIOD
    ensures forall j :: 0 <= j < |ticks| ==> !Schedule(1, ticks)[j]
    decreases |ticks|
  {
    if ticks != [] {
      assert !SaveDue(1, ticks[0].accuracy, ticks[0].millis);
      NothingDueWithinPeriod(ticks[1..]);
      forall j | 1 <= j < |ticks|
        ensures Schedule(1, ticks)[j] == Schedule(1, ticks[1..])[j - 1]
      {
      }
    }
  }

  /**
   * From boot, the first save happens exactly at the first tick with full
   * calibration, and no other save follows within the first period.
   */
  lemma {:induction false} FirstSaveOnFullCalibration(ticks: seq<Tick>, k: nat)
    requires k < |ticks|
    requires forall j :: 0 <= j < k ==> ticks[j].accuracy < 3
    requires ticks[k].accuracy >= 3
    requires forall j :: k < j < |ticks| ==> ticks[j].millis <= STATE_SAVE_PERIOD
    ensures forall j :: 0 <= j < |ticks| ==> Schedule(0, ticks)[j] == (j == k)
    decreases k
  {
    var fired := Schedule(0, ticks);
    if k == 0 {
      NothingDueWithinPeriod(ticks[1..]);
      assert fired == [true] + Schedule(1, ticks[1..]);
      forall j | 1 <= j < |ticks|
        ensures !fired[j]
      {
        assert fired[j] == Schedule(1, ticks[1..])[j - 1];
      }
    } else {
      FirstSaveOnFullCalibration(ticks[1..], k - 1);
      assert fired == [false] + Schedule(0, ticks[1..]);
      forall j | 1 <= j < |ticks|
        ensures fired[j] == (j == k)
      {
        assert fired[j] == Schedule(0, ticks[1..])[j - 1];
      }
    }
  }

  // ---------------------------------------------------------------------
  // EEPROM images as values.

  function Zeros(n: nat): (z: seq<byte>)
    ensures |z| == n && forall i :: 0 <= i < n ==> z[i] == 0
  {
    seq(n, _ => 0)
  }

  /** The image a save leaves: sentinel N at address 0, the blob at 1..N. */
  function SavedImage(blob: seq<byte>): (image: seq<byte>)
    requires |blob| < 0x100
    ensures |image| == |blob| + 1 && image[0] == |blob| && image[1..] == blob
  {
    [|blob|] + blob
  }

  /** What a load finds in an image: the blob when the sentinel equals N, nothing otherwise. */
  function StoredBlob(image: seq<byte>, n: nat): (r: Option<seq<byte>>)
    requires |image| == n + 1
    ensures r.Some? <==> image[0] == n
    ensures r.Some? ==> |r.value| == n
  {
    if image[0] == n then Some(image[1..]) else None
  }

  lemma SavedBlobIsStored(blob: seq<byte>)
    requires |blob| < 0x100
    ensures StoredBlob(SavedImage(blob), |blob|) == Some(blob)
  {
  }

  lemma ErasedBlobIsAbsent(n: nat)
    requires n > 0
    ensures StoredBlob(Zeros(n + 1), n) == None
  {
  }

  /** The whole store as values: RAM image of the EEPROM, flash contents, blob buffer. */
  datatype Area = Area(image: seq<byte>, flash: seq<byte>, buffer: seq<byte>)

  /** What `loadState` leaves: the stored blob in the buffer, or an erased EEPROM. */
  function LoadedArea(a: Area, n: nat): (r: Area)
    requires |a.image| == n + 1
  {
    match StoredBlob(a.image, n)
    case Some(blob) => a.(buffer := blob)
    case None => Area(Zeros(n + 1), Zeros(n + 1), a.buffer)
  }

  /**
   * What `updateState` leaves, with the new counter: nothing changes unless a
   * save is due; a due save counts and fetches the blob, and writes and
   * commits it only when the status check passes.
   */
  function SavedArea(a: Area, counter: u16, accuracy: byte, millis: u32, blob: seq<byte>, st: Status): (r: (Area, u16))
    requires |blob| < 0x100
  {
    if !SaveDue(counter, accuracy, millis) then (a, counter)
    else if !CheckIaqSensorStatus(st) then (a.(buffer := blob), Inc16(counter))
    else (Area(SavedImage(blob), SavedImage(blob), blob), Inc16(counter))
  }

  /**
   * A save followed by a load at the next boot (the RAM image read from the
   * committed flash, the buffer zero) fills the buffer with the saved blob
   * and leaves the EEPROM as saved.
   */
  lemma SaveThenLoad(a: Area, counter: u16, accuracy: byte, millis: u32, blob: seq<byte>, st: Status)
    requires |blob| < 0x100
    requires SaveDue(counter, accuracy, millis) && CheckIaqSensorStatus(st)
    ensures var saved := SavedArea(a, counter, accuracy, millis, blob, st).0;
      && saved.flash == SavedImage(blob)
      && LoadedArea(Area(saved.flash, saved.flash, Zeros(|blob|)), |blob|) == saved
  {
  }

  /** A save whose status check fails writes and commits nothing, yet is counted. */
  lemma FailedCheckWritesNothing(a: Area, counter: u16, accuracy: byte, millis: u32, blob: seq<byte>, st: Status)
    requires |blob| < 0x100 && !CheckIaqSensorStatus(st)
    ensures var r := SavedArea(a, counter, accuracy, millis, blob, st);
      && r.0.image == a.image && r.0.flash == a.flash
      && r.1 == if SaveDue(counter, accuracy, millis) then Inc16(counter) else counter
  {
  }

  /** An invalid sentinel erases the whole area, and a second load then finds it erased again. */
  lemma LoadIdempotent(a: Area, n: nat)
    requires |a.image| == n + 1 && n > 0
    ensures LoadedArea(LoadedArea(a, n), n) == LoadedArea(a, n)
  {
    if a.image[0] != n {
      ErasedBlobIsAbsent(n);
    }
  }

  /**
   * The EEPROM area and the firmware's copy of the blob. `blobSize` is the
   * vendor's BSEC_MAX_STATE_BLOB_SIZE, which the model takes as a parameter:
   * between 1 and 254, so that the sentinel fits in a byte and the uint8_t
   * loop counter over addresses 0..N terminates.
   */
  class CalibrationStore {
    const blobSize: nat
    // The RAM image of the N+1 bytes `EEPROM.begin` maps.
    const eeprom: array<byte>
    // The flash contents as of the last `EEPROM.commit`.
    var committed: seq<byte>
    // `bsecState`, the buffer the blob passes through.
    const bsecState: array<byte>
    // `stateUpdateCounter`.
    var counter: u16

    ghost predicate Valid()
      reads this
    {
      && 0 < blobSize <= 254
      && eeprom.Length == blobSize + 1
      && bsecState.Length == blobSize
      && |committed| == blobSize + 1
      && eeprom != bsecState
    }

    ghost function Snapshot(): Area
      reads this, eeprom, bsecState
    {
      Area(eeprom[..], committed, bsecState[..])
    }

    /** Power-on: the RAM image is read from flash, the buffer is zero, the counter 0. */
    constructor (n: nat, flash: seq<byte>)
      requires 0 < n <= 254 && |flash| == n + 1
      ensures Valid() && fresh(eeprom) && fresh(bsecState)
      ensures blobSize == n && eeprom[..] == flash && committed == flash
      ensures bsecState[..] == Zeros(n) && counter == 0
    {
      blobSize := n;
      eeprom := new byte[n + 1](i requires 0 <= i < n + 1 => flash[i]);
      committed := flash;
      bsecState := new byte[n](_ => 0);
      counter := 0;
    }

    /** `EEPROM.commit()`. */
    method Commit()
      requires Valid()
      modifies this
      ensures Valid() && committed == eeprom[..] && counter == old(counter)
    {
      committed := eeprom[..];
    }

    /** `eraseState`: write 0 to addresses 0..N, then commit. */
    method EraseState()
      requires Valid()
      modifies this, eeprom
      ensures Valid()
      ensures eeprom[..] == Zeros(blobSize + 1) && committed == eeprom[..]
      ensures counter == old(counter) && bsecState[..] == old(bsecState[..])
    {
      var i := 0;
      while i < blobSize + 1
        modifies eeprom
        invariant 0 <= i <= blobSize + 1
        invariant forall k :: 0 <= k < i ==> eeprom[k] == 0
      {
        eeprom[i] := 0;
        i := i + 1;
      }
      Commit();
    }

    /**
     * `loadState`: when address 0 holds N, copy addresses 1..N into the
     * buffer, hand it to the library and report its status; otherwise erase
     * the whole area and still report success.
     */
    method LoadState(st: Status) returns (ok: bool)
      requires Valid()
      modifies this, eeprom, bsecState
      ensures Valid() && counter == old(counter)
      ensures Snapshot() == LoadedArea(old(Snapshot()), blobSize)
      ensures ok == (StoredBlob(old(eeprom[..]), blobSize).None? || CheckIaqSensorStatus(st))
    {
      if eeprom[0] == blobSize {
        var i := 0;
        while i < blobSize
          modifies bsecState
          invariant 0 <= i <= blobSize
          invariant forall k :: 0 <= k < i ==> bsecState[k] == eeprom[k + 1]
        {
          bsecState[i] := eeprom[i + 1];
          i := i + 1;
        }
        assert bsecState[..] == eeprom[..][1..];
        ok := CheckIaqSensorStatus(st);
      } else {
        EraseState();
        ok := true;
      }
    }

    /**
     * `updateState`: decide by the schedule; when a save is due, count it,
     * fetch the blob from the library into the buffer and check the status;
     * on success write the blob to 1..N, the sentinel to 0 and commit.
     * Returns false only for a due save whose status check fails.
     */
    method UpdateState(accuracy: byte, millis: u32, sensorBlob: seq<byte>, st: Status)
      returns (ok: bool)
      requires Valid() && |sensorBlob| == blobSize
      modifies this, eeprom, bsecState
      ensures Valid()
      ensures (Snapshot(), counter) == SavedArea(old(Snapshot()), old(counter), accuracy, millis, sensorBlob, st)
      ensures ok == (!SaveDue(old(counter), accuracy, millis) || CheckIaqSensorStatus(st))
    {
      ghost var before := Snapshot();
      var update := false;
      if counter == 0 {
        if accuracy >= 3 {
          update := true;
          counter := Inc16(counter);
        }
      } else {
        if Wrap32(counter * STATE_SAVE_PERIOD) < millis {
          update := true;
          counter := Inc16(counter);
        }
      }

      if update {
        forall i | 0 <= i < blobSize {
          bsecState[i] := sensorBlob[i];
        }
        assert bsecState[..] == sensorBlob;
        if !CheckIaqSensorStatus(st) {
          assert eeprom[..] == before.image;
          return false;
        }
        var i := 0;
        while i < blobSize
          modifies eeprom
          invariant 0 <= i <= blobSize
          invariant forall k :: 0 <= k < i ==> eeprom[k + 1] == bsecState[k]
          invariant eeprom[0] == old(eeprom[0])
          invariant bsecState[..] == sensorBlob
        {
          eeprom[i + 1] := bsecState[i];
          i := i + 1;
        }
        eeprom[0] := blobSize;
        assert forall k :: 0 <= k < blobSize ==> eeprom[k + 1] == sensorBlob[k];
        assert eeprom[..] == SavedImage(sensorBlob);
        Commit();
      }
      return true;
    }
  }
}
