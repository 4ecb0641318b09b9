# Soehnle Shape200 driver, modelled in Dafny

This project models the Soehnle Shape200 body scale driver (`src/devices/soehnle.rs`).
The driver's `get_data` runs in two phases.

- **Arming.** It resolves the scale's vendor service and the standard User Data service. It resolves the
  vendor weight and command characteristics. It writes the two commands `[0x09, 1]` and `[0x0c, 1]`
  with acknowledgement. It opens the weight characteristic's event stream and starts notifications.
- **Collection.** It gathers notifications until the stream ends or stays quiet for a second. Each
  payload is classified by its first byte:
  - a **weight frame** (tag 9) is decoded at fixed offsets into a timestamp and a weight in tenths of a
    kilogram. The driver then reads the age, sex and height characteristics of the User Data service
    and appends one record;
  - an **activity frame** (tag 12, sub-tag 1) is only printed;
  - any other payload is ignored.

The model has three modules:

- `Wrappers`: the `Option` and `Result` datatypes.
- `Frames`: classification and the weight-frame decoder. It includes chrono's calendar checks and an
  encoder used to state the round trip.
- `Shape200`: the session protocol and the collection loop. `GetDataSpec` is the function that
  specifies them. `GetData`, its receive loop `CollectEvents` and `ReadUserData` are the imperative
  driver, each proved equal to its specification function.

How the model represents the driver's environment:

- **The BLE session is a parameter.** `Session` holds three reply functions. Each answers a call from
  the list of calls made before it. Every run returns that list (`calls`), so properties about the
  order and the content of the calls are stated on it.
- **The event stream is a finite sequence.** Its end stands for both the end of the stream and the
  1000 ms timeout.
- **A Rust panic is an outcome, not a precondition.** `get_data` ends in `Records`, `Failed` (an error
  passed on by `?`) or `Panicked`. Three things panic:
  - an index past the end of a payload or of a read value;
  - `NaiveDate::from_ymd` given an impossible date;
  - `NaiveTime::from_hms` given an impossible time.

Three consequences of the code as written:

- **An impossible date or time ends the call.** `from_ymd` and `from_hms` panic, so the whole
  `get_data` aborts and the records gathered so far are lost (`InvalidDateAbortsSession`).
- **The weight is a 16-bit big-endian field** of tenths of a kilogram, `value[9] * 256 + value[10]`.
  The bytes `[2, 188]` give 700 tenths, that is 70.0 kg (`SampleWeightFrame`).
- **The sex characteristic has the height characteristic's identifier** (`0x2A8E`), as the code
  declares it. Every weight frame therefore reads the height characteristic twice
  (`SexCharacteristicIsHeight`).

## Model

| member | source | states |
|---|---|---|
| Frames.Be16 | src/devices/soehnle.rs:96 | a big-endian 16-bit field is below 65536 and splits back into its high and low bytes |
| Frames.DaysInMonth | src/devices/soehnle.rs:97 | a month has 28 to 31 days, and 29 exactly for February of a Gregorian leap year, the limit `from_ymd` checks the day against |
| Frames.ValidDate | src/devices/soehnle.rs:97 | definition: the dates `from_ymd` accepts, a year in chrono's range, a month 1-12, a day within the month |
| Frames.ValidTime | src/devices/soehnle.rs:98-99 | definition: the times `from_hms` accepts, hour below 24, minute and second below 60 |
| Frames.Classify | src/devices/soehnle.rs:95-114 | weight iff the first byte is 9; activity iff bytes 0 and 1 are 12 and 1; a panic iff the payload is empty, or is the single byte 12 (the short-circuit reaches `value[1]`), with the index and length of the failing access |
| Frames.DecodeWeightFrame | src/devices/soehnle.rs:96-103 | succeeds iff the payload has 15 bytes or more and bytes 2-5 form a valid date and bytes 6-8 a valid time; on success every field is the bytes at its offset and the timestamp is a valid date-time; an index panic names an offset from the payload length up to 14 |
| Frames.EncodeWeightFrame | src/devices/soehnle.rs:95-103 | the encoding of a frame is 15 bytes long and classifies as a weight frame |
| Frames.Be16Split | src/devices/soehnle.rs:96 | a number below 65536 is recovered from its two bytes |
| Frames.DecodeEncode | src/devices/soehnle.rs:96-103 | decoding the encoding of a frame with a valid date and time gives that frame back |
| Frames.EncodeDecode | src/devices/soehnle.rs:95-103 | a decoded frame re-encodes to the tag and to bytes 2-14 it was read from |
| Frames.ToRecord | src/devices/soehnle.rs:109-112 | definition: `Record::with_values` of the frame's date and time and its one weight |
| Frames.Timestamp | src/devices/soehnle.rs:110 | definition: `NaiveDateTime::new(date, time)` of the frame's date and time fields |
| Frames.RecordDropsImpedance | src/devices/soehnle.rs:101-112 | the record holds the timestamp and the one weight value; the two impedances do not affect it |
| Frames.SampleWeightFrame | src/devices/soehnle.rs:95-112 | the frame for 2023-01-15 10:30:00 with weight bytes [2, 188] decodes to 700 tenths (70.0 kg) and to that record |
| Frames.MonthThirteenPanics | src/devices/soehnle.rs:97 | month 13 makes `from_ymd` panic |
| Shape200.Arm | src/devices/soehnle.rs:50-86 | the calls issued are a prefix of the eight arming calls, taken with the handles the session resolved; every call but the last was accepted (lookup resolved, write, stream opening or `start_notify` acknowledged); the run goes on iff all eight were accepted, and then holds those handles; otherwise it ends in `Failed` (`ArmFailureIsPrefix` names the error) |
| Shape200.ArmFailureIsPrefix | src/devices/soehnle.rs:50-86 | an arming failure ends `get_data` with the session's error for the last call issued and no records, the calls issued being a prefix of the arming sequence |
| Shape200.SexCharacteristicIsHeight | src/devices/soehnle.rs:20-22 | the sex and height characteristic identifiers are equal, and the age identifier differs from them |
| Shape200.Accepted | src/devices/soehnle.rs:50-107 | definition: the session accepted a call, that is the lookup resolved, the read gave a value with a first byte, or the request was acknowledged |
| Shape200.EndedByLastReply | src/devices/soehnle.rs:50-107 | definition: the outcome is the session's error for the last call, or the `[0]` panic on an empty read |
| Shape200.Resolved | src/devices/soehnle.rs:50-61 | definition: the handles the four arming lookups resolve, each after the ones before it |
| Shape200.ArmingSequence | src/devices/soehnle.rs:50-86 | definition: the eight arming calls in the driver's order, the two service lookups, the two characteristic lookups, the two command writes, the event stream and `start_notify` |
| Shape200.AcceptedBetween | src/devices/soehnle.rs:50-107 | definition: every call in an index range was accepted, each given the calls before it |
| Shape200.ArmAccepted | src/devices/soehnle.rs:50-86 | every arming call but the last was accepted, and arming goes on iff all eight were |
| Shape200.ProfileRead | src/devices/soehnle.rs:105 | one lookup and then one read of the named characteristic, at most two calls; it goes on with a byte iff the session resolved the lookup and the read returned a non-empty value; otherwise the outcome is the session's error for the last call made, or the `[0]` panic on an empty value |
| Shape200.ProfileReadReplies | src/devices/soehnle.rs:105 | a failed lookup ends the run with the session's error right after the lookup; otherwise the read is of the handle just looked up, a failed read ends the run with its error, an empty value with the `[0]` panic, and a value goes on with its first byte |
| Shape200.ProfileReadAccepted | src/devices/soehnle.rs:105 | a profile read that goes on had both its calls accepted; one that stops had every call but its last accepted |
| Shape200.UserDataReads | src/devices/soehnle.rs:105-107 | definition: the characteristics read per weight frame, age, sex and height in that order |
| Shape200.ProfileReads | src/devices/soehnle.rs:105-107 | the reads extend the call list by two calls per characteristic when all succeed, and never by more; every call but the last was accepted, and reads that go on had every call accepted, so a failed lookup, a failed read or an empty value for any characteristic ends them; an end is the session's reply to the last call made |
| Shape200.ProfileReadsOrder | src/devices/soehnle.rs:105-107 | the k-th lookup is of the k-th characteristic, at offset 2k, and each is followed by a read |
| Shape200.ReadsInOrder | src/devices/soehnle.rs:105-107 | definition: from a given offset, the k-th lookup is of the k-th characteristic, two calls apart, each followed by a read |
| Shape200.ProfileReadsFirst | src/devices/soehnle.rs:105 | the reads begin with the lookup of the first characteristic, followed by a read if there is a second call |
| Shape200.ProfileReadsTrace | src/devices/soehnle.rs:105-107 | the reads issue nothing but lookups of user-data characteristics in the User Data service and reads |
| Shape200.ReadUserData | src/devices/soehnle.rs:105-107 | the method reads age, sex and height in that order, as `ProfileReads` specifies |
| Shape200.FrameRecords | src/devices/soehnle.rs:95-112 | an event contributes at most one record, with a valid timestamp and one value |
| Shape200.ExpectedRecords | src/devices/soehnle.rs:88-122 | a stream yields at most one record per event |
| Shape200.Benign | src/devices/soehnle.rs:95-103 | definition: the events the loop gets through without a panic, a payload with a readable tag and, for a weight frame, a decodable one |
| Shape200.HandleEvent | src/devices/soehnle.rs:90-118 | an event that is not a weight frame and does not panic changes nothing; a payload the driver cannot get through (`Benign` fails) panics before any further call, and only such a payload ends a step without a call; any other end is the session's reply to the last call; every call but the last was accepted, and a step that goes on had all its calls accepted and has appended exactly the frame's record; calls are only ever appended |
| Shape200.StepTrace | src/devices/soehnle.rs:90-118 | one iteration issues nothing but user-data lookups and reads |
| Shape200.StepRecords | src/devices/soehnle.rs:95-112 | an iteration that goes on makes six calls for a weight frame and none for any other event |
| Shape200.Collect | src/devices/soehnle.rs:88-122 | the loop only appends calls, and a run that reaches the end of the stream only appends records; every call but the last was accepted, and a run that reaches the end had every call accepted |
| Shape200.GetDataSpec | src/devices/soehnle.rs:46-123 | definition: `get_data` as a whole, arming and then the loop from an empty record list |
| Shape200.CollectTrace | src/devices/soehnle.rs:88-122 | every call the loop issues is a user-data lookup or read |
| Shape200.CollectRecords | src/devices/soehnle.rs:88-122 | a loop that reaches the end of the stream has appended exactly one record per decodable weight frame, in arrival order |
| Shape200.CollectCallCount | src/devices/soehnle.rs:88-122 | such a loop has issued six calls per record |
| Shape200.RunTrace | src/devices/soehnle.rs:50-107 | once armed, a run begins with the eight arming calls in order, and every later call is a user-data lookup or read, so the commands are written once and the stream is opened before notifications start |
| Shape200.RecordsAreWeightFramesInOrder | src/devices/soehnle.rs:88-122 | `Ok(records)` lists one record per weight frame in arrival order, after exactly 8 + 6 × records calls |
| Shape200.CollectFailure | src/devices/soehnle.rs:88-122 | a loop that fails was ended by the session's error for its last call |
| Shape200.CollectPanic | src/devices/soehnle.rs:88-122 | a loop that panics met a payload it cannot get through, or ended on an empty user-data value |
| Shape200.FailureIsSessionError | src/devices/soehnle.rs:46-123 | every `Err` of `get_data` is the session's error for the last call it made |
| Shape200.RunAccepted | src/devices/soehnle.rs:46-123 | every call of `get_data` but the last was accepted, and `Ok(records)` means every call was; with `FailureIsSessionError`, any failed lookup, read, write or subscription, or empty value, ends the run right there |
| Shape200.RunPanic | src/devices/soehnle.rs:46-123 | a `get_data` that panics was armed, and met a payload it cannot get through or ended on an empty user-data value; arming never panics |
| Shape200.UserDataFailureFailsRun | src/devices/soehnle.rs:105 | once armed, a failed age lookup, or a failed age read, for the first weight frame ends `get_data` with that error right after that call |
| Shape200.CooperativeReads | src/devices/soehnle.rs:105-107 | the user-data reads cannot fail against a session that never fails |
| Shape200.CooperativeStep | src/devices/soehnle.rs:90-118 | against such a session only a panicking payload stops an iteration |
| Shape200.CooperativeCollect | src/devices/soehnle.rs:88-122 | against such a session, a stream without panicking payloads is collected whole |
| Shape200.CooperativeCollectPanics | src/devices/soehnle.rs:88-122 | against such a session, a panicking payload anywhere in the stream ends the loop in a panic |
| Shape200.CooperativeArm | src/devices/soehnle.rs:50-86 | arming cannot fail against such a session |
| Shape200.CooperativeSessionCollectsEveryWeightFrame | src/devices/soehnle.rs:46-123 | `get_data` against a session that never fails, on a stream without panicking payloads, returns every weight frame's record in arrival order |
| Shape200.CooperativeSessionPanics | src/devices/soehnle.rs:46-123 | against such a session, one panicking payload makes the whole call panic |
| Shape200.CollectWithoutWeightFrames | src/devices/soehnle.rs:88-122 | a stream with no weight frames and no panicking payloads adds no calls and no records |
| Shape200.NoWeightFramesNoRecords | src/devices/soehnle.rs:88-122 | once armed, such a stream (the empty one included) gives `Ok` with no records after the eight arming calls |
| Shape200.InvalidDateAbortsSession | src/devices/soehnle.rs:97 | a weight frame with month 13 panics the whole call, so the valid frame after it is never decoded |
| Shape200.CollectEvents | src/devices/soehnle.rs:88-122 | the receive loop's outcome and calls are those `Collect` specifies |
| Shape200.GetData | src/devices/soehnle.rs:46-123 | the driver's outcome and its calls are those `GetDataSpec` specifies, so every property above holds of it |

## Left out

- `connect` and `disconnect` (src/devices/soehnle.rs:36-44) are single session calls that pass on its error, with nothing to model beyond that.
- `Shape200::new` and the `Device` trait are construction and dispatch only. `Device` is not part of this model.
- The BLE transport (bluez over D-Bus) is not modelled. It is represented by the session's reply functions, which may depend on every earlier call. Service and characteristic descriptors are reduced to their handles.
- Asynchrony and the 1000 ms timeout are not modelled. A quiet period and the end of the stream both appear as the end of the event sequence, and events that are not characteristic values appear as `OtherEvent`.
- The weight is kept as integer tenths of a kilogram, not the `f64` division by 10.0.
- The printing of activity frames is not modelled, since it only writes to standard output.
- The byte values read for age, sex and height are read and then discarded, as the driver discards them. Only the calls, their failures, the empty-value panic and the first byte taken are modelled.
- Of chrono, only the validity checks of `from_ymd` and `from_hms` are modelled, together with the year range of `NaiveDate`. `NaiveDateTime` is a plain tuple of its six fields.
- `Uuid::from_u128` is modelled as the 128-bit integer it wraps.
- `crate::store::measurement` (`Record`, `Value`) is not part of this model. `Record` is its timestamp and its list of values, and `Value` has only the weight variant the driver builds.
