# ESP32 Environment Monitor: persistence, log and request core in Dafny

This project models the firmware of an ESP32 indoor-air-quality monitor. It
covers `src/main.cpp` and `src/main.h`, plus the value-computing helpers of the
browser script `src/iaqmonitor.js`. Properties of the model are proved with the
Dafny verifier.

The firmware's parts, and where each lives in the model:

- **The reading log.** A fixed array of `LOGSIZE` (240) readings, oldest
  first. Every `logInterval` the latest reading shifts the log by one slot
  (`updateLog`), and the whole log is saved to the file "/logfile.json" in flash (`saveLog`).
  - At boot the log is restored from that file (`loadLog`), or filled with
    nominal readings when restoring fails (`initLog`).
  - The same document is served on GET /log (`getLog`).
  - Module `LogDocument` defines the document layout as tokens: the header
    `{"logfile":[`, one JSON object per reading, the separating commas, and the
    trailer `]}`.
  - `LogDocument` also defines what `loadLog`'s `find`/`findUntil` scan reads
    back, and what a partly failed save leaves in the file.
  - Class `SensorLog.SensorLog` holds the slot array, the file and `lastLog`.
    Its methods are proved against those definitions.
- **The calibration store.** In the EEPROM area, byte 0 is a length sentinel
  and bytes 1..N hold the opaque BSEC calibration blob.
  - `loadState` restores the blob when the sentinel is valid, and otherwise
    erases the whole area.
  - `updateState` saves the blob on the schedule of `stateUpdateCounter ×
    STATE_SAVE_PERIOD`, computed in 32-bit unsigned arithmetic.
  - Class `Calibration.CalibrationStore` models the RAM image and its commit
    to flash.
- **Configuration.** `getConfig` and `putConfig` use three intervals that are
  checked against fixed bounds (module `Configuration`).
- **Static resources and 404 replies.** `loadFromSpiffs` rewrites the request
  path and picks a content type, and `handleWebRequests` builds the diagnostic
  404 text (module `Resources`).
- **The top level.** `setup`'s boot sequence is gated by `active`. `setErr`,
  one pass of `loop`, and the dispatch of one request to its handler are in
  class `Monitor.Monitor`.
- **Helper modules.** `Definitions` holds the constants and the reading record.
  `Json` covers `reading2json`/`json2reading` at the level of JSON values.
  `Timestamp` covers the `%FT%T.000Z` layout, which is the date-time of
  section 5.6 of RFC 3339. `Decimal` turns numbers into text. `Client` holds
  `leftPad`, `formatUptime`, `getIAQDesc` and the fallback intervals of the
  browser script.

### Inputs the model takes as parameters

The sensor, the clock and the file system become parameters:

- the BSEC status codes (`Calibration.Status`);
- the sensor outputs (`Monitor.Sample`);
- `millis()` as a `u32`;
- the timestamp text;
- the files present in flash (a set of paths);
- how the flash behaves during one save (`LogDocument.Storage`: whether the
  file opens, and how many prints succeed).

### Integer arithmetic

C's unsigned arithmetic is written out explicitly:

- `Wrap32` reduces modulo 2^32. It is used for `counter * STATE_SAVE_PERIOD`
  in `updateState` and for `millis() - lastLog` in `loop`.
- `Inc16` is `stateUpdateCounter++` on a `uint16_t`.

### Where the code is followed over the design description

- `updateState` returns true when no save is due, not only when a save
  happened (src/main.cpp:194).
- `loop` ignores the result of `updateState`, so a failed save does not stop
  acquisition (src/main.cpp:865).
- `init_bme680` ignores the result of `loadState`, so a bad status during that
  load does not fail the boot (src/main.cpp:604). `Monitor.LoadStatusIgnored`
  states this, and `Monitor.Monitor.InitBme680` discards that result.
- `initWebserver` always succeeds (src/main.cpp:695), so `Setup` has no failure
  branch for it.
- Two saves of an unchanged log give byte-identical files only within the
  same second of uptime: `reading2json` writes `millis() / 1000` into every
  entry (src/main.cpp:226). `LogDocument.SavesSameSecond` states the first
  half, and `LogDocument.SavesDifferByUptime` shows that two successful saves
  in different seconds differ.

## Model

| member | source | states |
|---|---|---|
| Definitions.Wrap32 | src/main.cpp:170 | the uint32_t result equals the exact value when that is in range, and is always congruent to it modulo 2^32 |
| Definitions.Inc16 | src/main.cpp:164 | `stateUpdateCounter++` on uint16_t adds one below 0xFFFF and wraps to 0 at 0xFFFF |
| Definitions.NominalReading | src/main.cpp:741-751 | the nominal reading carries the current timestamp, the sea-level pressure SL and accuracy 0 |
| Definitions.DefaultsAdmissible | src/main.h:91-93 | the power-on intervals satisfy `putConfig`'s bounds, and the log interval is half an hour |
| Definitions.ConstantValues | src/main.h:71-87 | the save period is 21,600,000 ms; the header and trailer literals are exactly `{"logfile":[` and `]}`, making an empty log `{"logfile":[]}` |
| Decimal.FromNat | src/main.cpp:490 | a rendered count is a non-empty run of decimal digits without a leading zero |
| Decimal.ValueOfFromNat | src/main.cpp:490 | the rendering of n reads back as n |
| Decimal.Fixed | src/main.h:84 | a zero-padded field has exactly the requested number of digits |
| Decimal.ValueOfFixed | src/main.h:84 | a zero-padded field reads back as its number whenever the number fits the width |
| Json.LookupFirst | src/main.cpp:247-254 | `doc[key]` finds the value of the first member with that name |
| Json.ReadingToJson | src/main.cpp:222-237 | an encoded reading has exactly nine members |
| Json.JsonToReading | src/main.cpp:242-255 | `json2reading` and the copy in `loadLog`: the eight stored members looked up by name, "uptime" ignored |
| Json.TimeCopyable | src/main.cpp:446 | when `strcpy` of the "time" member is defined: the member is a string that fits `char time[25]` with its NUL |
| Json.EncodedTimeCopyable | src/main.cpp:222-237 | every entry written from a reading whose time fits its field has a copyable "time" member |
| Json.ReadingMembers | src/main.cpp:226-234 | the members are uptime, time, temp, pres, humy, IAQ, IAQacc, CO2, VOC, in that order |
| Json.DecodeEncode | src/main.cpp:242-255 | `json2reading` after `reading2json` gives back the reading, whatever uptime was embedded |
| Json.EncodeInjective | src/main.cpp:222-237 | two readings encode alike only if the readings and the embedded uptimes are equal |
| Json.ConfigMembers | src/main.cpp:277-279 | the config payload has members sensorInt, graphInt, logInt, in that order |
| Json.ConfigToJson | src/main.cpp:277-279 | the `getConfig` payload: the three intervals under their member names |
| Timestamp.FormatTimestamp | src/main.h:84-90 | the formatted timestamp has 24 characters and so fits the 25-byte buffer with its NUL |
| Timestamp.DatePart | src/main.h:84 | %F is ten characters |
| Timestamp.TimePart | src/main.h:84 | %T is eight characters |
| Timestamp.ParseDatePart | src/main.h:84 | the date part reads back as the year, month and day it was formatted from |
| Timestamp.ParseTimePart | src/main.h:84 | the time part reads back as the hour, minute and second it was formatted from |
| Timestamp.ParseFormat | src/main.h:84 | a formatted timestamp parses back to the broken-down time |
| Timestamp.FormatInjective | src/main.h:84 | distinct valid times give distinct timestamps |
| Calibration.CheckIaqSensorStatus | src/main.cpp:35-63 | the check passes if and only if neither status code is negative; positive codes are only warnings |
| Calibration.SaveDue | src/main.cpp:159-175 | the trigger of `updateState`: the first save when accuracy reaches 3, each later one when uptime exceeds the uint32_t product counter × period |
| Calibration.Schedule | src/main.cpp:159-175 | which ticks of a run save, the counter advancing by one uint16_t step at each save; one verdict per tick |
| Calibration.ScheduleExact | src/main.cpp:159-175 | for counters 1..198 the uint32_t product is exact: save k is due once uptime exceeds k periods |
| Calibration.ScheduleWrapsAt199 | src/main.cpp:170 | at counter 199 the product wraps to 3,432,704 ms, so the save is due on any tick after about an hour |
| Calibration.NothingDueWithinPeriod | src/main.cpp:167-175 | with the counter at 1, no tick within the first period saves |
| Calibration.FirstSaveOnFullCalibration | src/main.cpp:158-175 | from boot, the first save is exactly the first tick with accuracy 3, and no second save follows within the first period |
| Calibration.Zeros | src/main.cpp:117-118 | an erased area is all zero bytes |
| Calibration.SavedImage | src/main.cpp:186-191 | a save leaves the sentinel N at address 0 and the blob at 1..N |
| Calibration.StoredBlob | src/main.cpp:128-137 | a load finds a blob of N bytes if and only if address 0 holds N |
| Calibration.LoadedArea | src/main.cpp:126-150 | the store after `loadState`: the stored blob copied into the buffer, or RAM image and flash erased to zeros |
| Calibration.SavedArea | src/main.cpp:155-195 | the store and counter after `updateState`: unchanged when no save is due; counted with the blob fetched into the buffer when the check fails; otherwise RAM image and flash both the saved image |
| Calibration.SavedBlobIsStored | src/main.cpp:126-191 | what a save writes, a load finds |
| Calibration.ErasedBlobIsAbsent | src/main.cpp:113-128 | an erased area holds no valid calibration |
| Calibration.SaveThenLoad | src/main.cpp:126-192 | after a successful save the committed flash is the saved image, and the load at the next boot, starting from that flash and a zero buffer, fills the buffer with the saved blob and leaves the EEPROM as saved |
| Calibration.FailedCheckWritesNothing | src/main.cpp:177-183 | a due save whose status check fails writes and commits nothing, yet the counter still advances |
| Calibration.LoadIdempotent | src/main.cpp:126-150 | loading twice leaves the same state as loading once, in particular after an erase |
| Calibration.CalibrationStore.constructor | src/main.cpp:779 | the RAM image is the flash contents, the blob buffer is zero and the counter 0 |
| Calibration.CalibrationStore.Commit | src/main.cpp:120 | flash becomes the RAM image |
| Calibration.CalibrationStore.EraseState | src/main.cpp:113-121 | addresses 0..N become zero and are committed; counter and buffer unchanged |
| Calibration.CalibrationStore.LoadState | src/main.cpp:126-150 | the store becomes `LoadedArea` of the old one (the blob copied to the buffer, or the area erased); the result is false only for a valid blob with a failing status |
| Calibration.CalibrationStore.UpdateState | src/main.cpp:155-195 | the store and counter become `SavedArea` of the old ones; the result is false only for a due save whose status check fails |
| Configuration.GetConfig | src/main.cpp:272-284 | 200, application/json, the three current intervals |
| Configuration.PutConfig | src/main.cpp:290-326 | success if and only if there is an argument, it parses and all bounds hold, in which case the new intervals are installed; otherwise 500 and the configuration is unchanged |
| Configuration.PutConfigErrorOrder | src/main.cpp:295-317 | missing arguments are reported before a parse error, and a parse error before a bounds violation |
| Configuration.PutConfigKeepsAdmissible | src/main.cpp:312-321 | starting from admissible intervals, the intervals after any PUT are admissible |
| Configuration.ConfigRoundTrip | src/main.cpp:277-279 | the config payload reads back as the configuration |
| Configuration.GetAfterPut | src/main.cpp:272-326 | after a successful PUT, GET reports exactly the values put |
| Configuration.ShortSensorIntervalRefused | src/main.cpp:312-316 | a 500 ms sensor interval is answered with INVALID ARGS and the defaults stay |
| Resources.LastIndexOf | src/main.cpp:515 | `lastIndexOf` returns the last position holding the character, or -1 when there is none |
| Resources.ContentType | src/main.cpp:517-564 | the else-if chain of suffixes and content types, "text/plain" when none matches |
| Resources.LastDotOfSource | src/main.cpp:513-516 | for a ".src" path the cut falls exactly before the suffix |
| Resources.ContentTypeIsTableLookup | src/main.cpp:517-564 | the else-if chain is a lookup in the suffix table, in the table's order |
| Resources.ResolvePath | src/main.cpp:507-569 | a trailing "/" gains "index.html" and a ".src" suffix is removed, both as text/plain; other paths are opened as given with the chain's type; "download" forces application/octet-stream |
| Resources.LoadFromSpiffs | src/main.cpp:504-587 | the request is served if and only if the resolved path is a file, with 200, the chosen type and that file |
| Resources.SourceView | src/main.cpp:513-516 | requesting name + ".src" serves the file name as plain text |
| Resources.MethodLabel | src/main.cpp:488 | the label is "GET" exactly for GET |
| Resources.ArgLinesSplit | src/main.cpp:492-495 | the argument lines are in request order |
| Resources.NonGetReportedAsPost | src/main.cpp:488 | every method other than GET gives the same 404 text as POST |
| Resources.NotFoundText | src/main.cpp:484-495 | the 404 diagnostic: the summary lines, then a NAME/VALUE pair for every argument in order |
| Resources.Inc8 | src/main.cpp:492 | `i++` on the uint8_t loop index adds one below 255 and wraps to 0 at 255 |
| Resources.ArgIndexAsWritten | src/main.cpp:492 | the uint8_t index of the argument loop as written after k iterations |
| Resources.ArgIndexCounts | src/main.cpp:492 | the index equals k for the first 256 iterations, and after 256 it is back at 0 |
| Resources.ArgLoopNeverEnds | src/main.cpp:492 | with 256 or more arguments the guard `i < webserver.args()` holds after any number of iterations |
| Resources.HandleWebRequests | src/main.cpp:476-498 | an existing resource is served; otherwise 404 text/plain with the diagnostic text listing every argument, whatever their number; the result says which |
| Resources.NotFoundMessage | src/main.cpp:484-495 | the message built step by step is the diagnostic text: summary then one NAME/VALUE pair per argument, for any number of arguments |
| LogDocument.DocumentLength | src/main.cpp:336-346 | the document of n > 0 readings has 2n+1 pieces: header, n entries, n-1 commas, trailer |
| LogDocument.Document | src/main.cpp:336-346 | the document `getLog` sends and `saveLog` prints: the header, then the entries from slot 0 |
| LogDocument.DocumentFrom | src/main.cpp:337-346 | from slot k on: each slot's entry, a comma after every entry but the last, then the trailer |
| LogDocument.AfterHeader | src/main.cpp:435 | the header search never yields more than the file |
| LogDocument.NoHeaderLeavesNothing | src/main.cpp:435 | a file without the header is consumed completely by the search |
| LogDocument.FindUntil | src/main.cpp:456 | `findUntil(",", "]")` only moves forward, and strictly when it finds a comma |
| LogDocument.Entries | src/main.cpp:436-456 | the bounded loop reads at most as many objects as there are slots |
| LogDocument.EntriesFrom | src/main.cpp:436-456 | part-way through, the loop adds at most `room` objects to those already read |
| LogDocument.EntriesAsWritten | src/main.cpp:436-456 | the do-while loop as written: parse an object, store it in the next slot with no bound, continue while `findUntil` finds a comma |
| LogDocument.AsWrittenFrom | src/main.cpp:436-456 | the same loop part-way through, with the objects already stored |
| LogDocument.Restore | src/main.cpp:421-461 | a restore reads at most LOGSIZE objects, and with no file it fails having read none |
| LogDocument.DecodedEncoded | src/main.cpp:222-255 | decoding the objects a log is written as gives back the log |
| LogDocument.AfterLoad | src/main.cpp:446-454 | a load keeps the log at LOGSIZE slots |
| LogDocument.EntriesOfDocument | src/main.cpp:436-456 | read from any entry on, a written document yields the objects of the remaining slots in order and succeeds |
| LogDocument.AsWrittenOfDocument | src/main.cpp:436-456 | the loop as written does the same on a written document |
| LogDocument.EntriesBounded | src/main.cpp:436-456 | with more entries than free slots the bounded loop fills every slot, in order, and fails |
| LogDocument.RestoreDocument | src/main.cpp:421-461 | restoring a written log of up to LOGSIZE readings succeeds and gives back every reading in order, whatever uptime was written |
| LogDocument.AfterLoadDocument | src/main.cpp:421-461 | loading a saved full log into any slots leaves exactly that log |
| LogDocument.RestoreWithoutHeader | src/main.cpp:435 | a file without the header fails to restore, having read no object |
| LogDocument.OversizedDocument | src/main.cpp:446-454 | a file of LOGSIZE+1 entries: the loop as written stores 241 objects, while the bounded loop fills the 240 slots with the first 240 readings and fails |
| LogDocument.LoadLogOverrun | src/main.cpp:446-454 | a concrete file of 241 zero readings makes the loop as written store past the last slot |
| LogDocument.Truncate | src/main.cpp:389-409 | what was written is a prefix of the document, as long as the successful prints allow |
| LogDocument.Persisted | src/main.cpp:372-409 | the file after `saveLog` exists exactly when it could be opened, and then holds a prefix of the document, as long as the successful prints allow |
| LogDocument.PersistOk | src/main.cpp:374-415 | `saveLog` returns true when the file opens and all 2·n+1 prints succeed |
| LogDocument.SaveCutShort | src/main.cpp:380-409 | a save whose prints give out before the end leaves exactly what was printed and fails |
| LogDocument.SaveComplete | src/main.cpp:380-415 | a save that prints the whole document leaves it in the file and succeeds |
| LogDocument.PersistThenRestore | src/main.cpp:368-461 | after a successful save the file is exactly the document, and restoring it gives back the whole log |
| LogDocument.SavesSameSecond | src/main.cpp:222-237 | two saves of the same log in the same second of uptime, with the same prints succeeding, leave the same file |
| LogDocument.SavesDifferByUptime | src/main.cpp:222-237 | two successful saves of the same non-empty log in different seconds of uptime leave different files |
| LogDocument.Appended | src/main.cpp:356-360 | one append keeps the length, drops the oldest reading and puts the new one last |
| LogDocument.AppendAllKeepsLatest | src/main.cpp:354-363 | after any number of appends the log holds exactly the latest LOGSIZE readings of its history, oldest first |
| LogDocument.LastSlotsAppended | src/main.cpp:354-363 | after k <= LOGSIZE appends the last k slots are the appended readings in order |
| SensorLog.SensorLog.constructor | src/main.h:111 | every slot is the zero reading, `lastLog` is 0, and the file is what flash held |
| SensorLog.SensorLog.GetLog | src/main.cpp:331-349 | the payload is the document of the current slots |
| SensorLog.SensorLog.SaveLog | src/main.cpp:368-416 | the file becomes `Persisted` of the slots; the result is `PersistOk`; `lastLog` becomes now only on success |
| SensorLog.SensorLog.UpdateLog | src/main.cpp:354-363 | the slots become `Appended` of the old ones with the current reading, and are saved |
| SensorLog.SensorLog.InitLog | src/main.cpp:737-754 | every slot becomes the nominal reading with the timestamp, and the log is saved |
| SensorLog.SensorLog.LoadLog | src/main.cpp:421-461 | the result is the restore outcome and the slots become `AfterLoad` of the old ones |
| SensorLog.SensorLog.ReadEntries | src/main.cpp:436-456 | the loop's result and slots are those of the bounded `Entries` specification |
| Monitor.LogDueAcrossWrap | src/main.cpp:874 | the uint32_t test `millis() - lastLog > logInterval` measures the true elapsed time even across a wrap of `millis()` |
| Monitor.FirstLogWaits | src/main.cpp:874 | with `lastLog` still 0, the first log update waits until uptime exceeds the interval |
| Monitor.LogDue | src/main.cpp:874 | the log test of `loop`: the uint32_t difference `millis() - lastLog` exceeds the log interval |
| Monitor.ReadSensor | src/main.cpp:200-216 | `readSensor`: the timestamp and the library outputs, pressure divided by 100 |
| Monitor.BootOk | src/main.cpp:796-835 | boot succeeds when the sensor, flash, WiFi and NTP steps all succeed |
| Monitor.BootError | src/main.cpp:796-835 | the message of the first failing step, in boot order |
| Monitor.Route | src/main.cpp:682-696 | "/" for any method goes to the root page; GET /sensor, GET /config and GET /log to their handlers; PUT /config to `putConfig`; every unregistered method and path combination to the static handler |
| Monitor.Monitor.constructor | src/main.h:89-111 | the globals at their initial values: default intervals, zero current reading, zero log slots with `lastLog` 0, `active` cleared; the calibration store's RAM image is the flash, its buffer zero and its counter 0 |
| Monitor.Monitor.SetErr | src/main.cpp:759-770 | `active` is cleared and the message shown; nothing else changes |
| Monitor.Monitor.InitBme680 | src/main.cpp:592-625 | success if and only if both checked statuses pass; the calibration is loaded only when the configuration status passes |
| Monitor.Monitor.Setup | src/main.cpp:775-851 | `active` ends set if and only if every step succeeds, and otherwise the first failure's message is shown; on success the log is restored, or initialised and saved when restoring fails |
| Monitor.Monitor.Loop | src/main.cpp:856-887 | nothing happens while inactive or without new data; otherwise the reading is taken and the calibration schedule applied, and the log is appended, saved and `lastLog` set exactly when the interval has passed |
| Monitor.Monitor.Serve | src/main.cpp:682-696 | while active, each route gets its handler's reply from the current state, and only PUT /config changes the configuration; while inactive nothing is served |
| Monitor.LoadStatusIgnored | src/main.cpp:604 | the status reported during the calibration load does not affect whether boot succeeds |
| Monitor.ColdBootWithoutCalibration | src/main.cpp:592-604 | a fresh boot whose flash has no valid sentinel ends with the whole calibration area zeroed and committed, and the current reading still zero |
| Monitor.ColdBootLog | src/main.cpp:737-848 | a fresh system with no log file that boots successfully answers GET /log with LOGSIZE nominal entries, all carrying the boot timestamp |
| Client.LeftPad | src/iaqmonitor.js:25-33 | the number as digits, with a leading "0" exactly when it is below 10; two characters below 100 |
| Client.UptimeFields | src/iaqmonitor.js:85-87 | hours, minutes and seconds recombine to the duration, and minutes and seconds are below 60 |
| Client.FormatUptime | src/iaqmonitor.js:82-95 | `formatUptime`: hours, a colon, minutes padded to two digits, a colon, seconds padded to two digits |
| Client.FormatUptimeShape | src/iaqmonitor.js:82-95 | `formatUptime` is the unpadded hours, a colon, `leftPad` of the minutes, a colon and `leftPad` of the seconds |
| Client.ParseFormatUptime | src/iaqmonitor.js:82-95 | the displayed H:MM:SS determines the duration |
| Client.IaqDescription | src/iaqmonitor.js:311-334 | the label of each IAQ band |
| Client.FairUnreachable | src/iaqmonitor.js:314-320 | "Fair" is never returned, because the second test repeats the first |
| Client.ClientReadsConfig | src/iaqmonitor.js:156-164 | the page adopts exactly the intervals the device reports |
| Client.ParseInt | src/iaqmonitor.js:159-163 | `parseInt` of a member of a /config reply: an integer kept, another number cut to its integer part, the leading decimal digits of a string read, NaN for a missing member or a string without leading digits |
| Client.ClientIntervals | src/iaqmonitor.js:159-164 | the three intervals the page adopts, NaN replaced by 5000, 5000 and 3600000 |
| Client.ClientFallbacks | src/iaqmonitor.js:159-164 | with no usable members the page falls back to 5000, 5000 and 3600000, which differ from the device's graph and log defaults |

## Left out

- The BSEC sensor driver and its fusion algorithm. Its status codes, outputs and calibration blob are inputs.
- EEPROM, SPIFFS and WebServer I/O. They are modelled as values: the RAM image and the committed flash, the set of files, the prints that succeed, and replies as data.
- The size check after `streamFile` (src/main.cpp:579-583), which only logs.
- Network and time bring-up (`initWiFi`, `initTime`, `initSPIFFS`). Each contributes only a success flag.
- `setTimestamp` and the system clock. The timestamp text and `millis()` are inputs.
- `Timestamp` states the format and its inverse, but does not model `localtime` or `strftime`.
- The clock is read once per call in the model. The firmware may see `millis()` advance during one `saveLog` or `loop`.
- The serial monitor, the OLED display, and the SHOW_MON, SHOW_OLED and INIT_EEPROM compile options.
- ArduinoJson text rendering and parsing, its type coercions, and its document capacities. JSON is modelled at the level of members and values, and `putConfig`'s numbers arrive as uint32.
- The file contents are a sequence of tokens, so a comma or bracket inside an entry or inside junk is not seen by the `find`/`findUntil` scan.
- Floating point. Readings hold reals, and `pressure / 100` is exact division.
- NaN in `getIAQDesc` is not modelled.
- Heap buffers and their leaks on early returns, and the file left open when `loadLog` fails.
- The drawing, charting and timer code of the browser script.
- Calibration.CalibrationStore: BSEC_MAX_STATE_BLOB_SIZE is a vendor constant. It is taken as a parameter of 1..254, so that the sentinel fits a byte and the uint8_t loop over addresses 0..N ends.
- Json.JsonToReading: reads a missing or non-string "time" member as "" and copies a "time" of any length, where the firmware's `strcpy` (src/main.cpp:247, 446) dereferences a null pointer or overruns `char time[25]` (src/main.h:100), which is undefined behaviour. `Json.TimeCopyable` states when the copy is defined, and `Json.EncodedTimeCopyable` shows that entries the firmware writes itself satisfy it.
- Timestamp.ParseFormat: limited to four-digit years (`ValidDateTime`), the only years `%Y` renders in a 24-character timestamp.
- LogDocument.PersistOk: counts 2·|log|+1 prints, which is right for a non-empty log only. `SaveCutShort` and `SaveComplete` require a non-empty log for the same reason. The firmware's log always has LOGSIZE slots.

## Findings

| source | as written | input that shows it | evidently intended | confidence | as-written member | corrected member |
|---|---|---|---|---|---|---|
| src/main.cpp:436-456 | `loadLog`'s do-while stores each parsed object at `sensorLog[i]` and increments `i` with no check against LOGSIZE | a "/logfile.json" holding 241 entries, for example one written before LOGSIZE was reduced: the 241st object is written past the end of `sensorLog` | stop at LOGSIZE entries, treating the excess as a failed restore | medium; not executed (main.h:77 asks for flash to be erased when LOGSIZE changes, which avoids the case in normal use) | LogDocument.LoadLogOverrun | SensorLog.SensorLog.ReadEntries |
| src/main.cpp:492 | the argument loop of `handleWebRequests` counts with a `uint8_t`, which wraps from 255 to 0 | a request for a missing file with 256 arguments: after 256 iterations the index is 0 again and still below `webserver.args()`, so the loop never ends and the reply is never sent | list every argument once, with an index wide enough for the argument count | medium; not executed (it needs a client sending 256 or more arguments) | Resources.ArgIndexCounts | Resources.NotFoundMessage |
