/**
 * `Shape200::get_data`: arm the scale over its vendor GATT service, subscribe
 * to its measurement characteristic and collect one record per weight frame
 * until the event stream ends or goes quiet.
 *
 * The BLE session is a collaborator: `Session` answers each call from the
 * calls made before it, so any deterministic session double is one value of
 * it. The event stream is a finite sequence; its end stands for both the
 * 1000 ms timeout and the end of the stream. `calls` is the log of every
 * session call in issue order.
 */
module Shape200 {
  import opened Wrappers
  import opened Frames

  // ---------------------------------------------------------------------------
  // Identifiers

  newtype Uuid = x: int | 0 <= x < 0x1_0000_0000_0000_0000_0000_0000_0000_0000

  const WeightCustomCharacteristic: Uuid := 0x352e3001_28e9_40b8_a361_6db4cca4147c
  const CmdCharacteristic: Uuid := 0x352e3002_28e9_40b8_a361_6db4cca4147c
  const CustomService: Uuid := 0x352e3000_28e9_40b8_a361_6db4cca4147c
  const UserDataService: Uuid := 0x0000181C_0000_1000_8000_00805F9B34FB
  const HeightCharacteristic: Uuid := 0x00002A8E_0000_1000_8000_00805F9B34FB
  const AgeCharacteristic: Uuid := 0x00002A80_0000_1000_8000_00805F9B34FB
  // Textually the height characteristic's identifier, as in the driver.
  const SexCharacteristic: Uuid := 0x00002A8E_0000_1000_8000_00805F9B34FB

  /** The peripheral's identifier in the session (a D-Bus object path). */
  type DeviceId = string

  /** An opaque reference the session hands out for a resolved service or characteristic. */
  type Handle = nat

  /** The session's description of a failed call. */
  type Error = string

  // ---------------------------------------------------------------------------
  // The session collaborator

  datatype WriteType = WithResponse | WithoutResponse
  datatype WriteOptions = WriteOptions(offset: nat, writeType: Option<WriteType>)

  /** Both command writes: offset 0, acknowledged by the peripheral. */
  const Acknowledged: WriteOptions := WriteOptions(0, Some(WithResponse))

  datatype Call =
    | GetServiceByUuid(device: DeviceId, uuid: Uuid)
    | GetCharacteristicByUuid(service: Handle, uuid: Uuid)
    | WriteCharacteristicValue(characteristic: Handle, bytes: seq<byte>, options: WriteOptions)
    | CharacteristicEventStream(characteristic: Handle)
    | StartNotify(characteristic: Handle)
    | ReadCharacteristicValue(characteristic: Handle)

  /**
   * The replies of the session: `lookup` for the two `get_*_by_uuid` calls,
   * `acknowledge` for writes, opening the event stream and `start_notify`,
   * `read` for `read_characteristic_value`. Each sees the calls made so far.
   */
  datatype Session = Session(
    lookup: (seq<Call>, Call) -> Result<Handle, Error>,
    acknowledge: (seq<Call>, Call) -> Option<Error>,
    read: (seq<Call>, Call) -> Result<seq<byte>, Error>)

  /** A session that never fails and never answers a read with an empty value. */
  ghost predicate Cooperative(s: Session) {
    forall h: seq<Call>, c: Call ::
      s.lookup(h, c).Success? && s.acknowledge(h, c).None? &&
      s.read(h, c).Success? && |s.read(h, c).value| > 0
  }

  /** An item of the characteristic event stream. */
  datatype Event = CharacteristicValue(value: seq<byte>) | OtherEvent

  /** What `get_data` ends in: `Ok(records)`, an `Err` from the session, or a panic. */
  datatype Outcome = Records(records: seq<Record>) | Failed(error: Error) | Panicked(panic: Panic)

  /** Part of a run: it either goes on with a value, or has ended the run. */
  datatype Step<+T> = Continue(state: T, calls: seq<Call>) | Abort(outcome: Outcome, calls: seq<Call>)

  datatype Run = Run(outcome: Outcome, calls: seq<Call>)

  /**
   * The session accepted the call: the lookup resolved, the read returned a
   * value with a first byte, the request was acknowledged.
   */
  predicate Accepted(s: Session, history: seq<Call>, c: Call) {
    match c
    case GetServiceByUuid(_, _) => s.lookup(history, c).Success?
    case GetCharacteristicByUuid(_, _) => s.lookup(history, c).Success?
    case ReadCharacteristicValue(_) => s.read(history, c).Success? && |s.read(history, c).value| > 0
    case _ => s.acknowledge(history, c).None?
  }

  /**
   * The run was ended by the reply to its last call: the outcome is the error
   * the session returned for it, or the `[0]` panic on an empty read.
   */
  predicate EndedByLastReply(s: Session, calls: seq<Call>, o: Outcome) {
    |calls| > 0 &&
    var history := calls[..|calls| - 1];
    var c := calls[|calls| - 1];
    match c
    case GetServiceByUuid(_, _) => s.lookup(history, c).Failure? && o == Failed(s.lookup(history, c).error)
    case GetCharacteristicByUuid(_, _) => s.lookup(history, c).Failure? && o == Failed(s.lookup(history, c).error)
    case ReadCharacteristicValue(_) =>
      if s.read(history, c).Failure? then o == Failed(s.read(history, c).error)
      else |s.read(history, c).value| == 0 && o == Panicked(IndexOutOfBounds(0, 0))
    case _ => s.acknowledge(history, c).Some? && o == Failed(s.acknowledge(history, c).value)
  }

  /** Every call at an index in [lo, hi) was accepted, each given the calls before it. */
  predicate AcceptedBetween(s: Session, calls: seq<Call>, lo: int, hi: int) {
    forall j {:trigger Accepted(s, calls[..j], calls[j])} | lo <= j < hi && 0 <= j < |calls| ::
      Accepted(s, calls[..j], calls[j])
  }

  /** Acceptance of a prefix and of what follows it joins into acceptance of the whole. */
  lemma AcceptedJoin(s: Session, prefix: seq<Call>, calls: seq<Call>, lo: int, hi: int)
    requires prefix <= calls
    requires AcceptedBetween(s, prefix, lo, |prefix|) && AcceptedBetween(s, calls, |prefix|, hi)
    ensures AcceptedBetween(s, calls, lo, hi)
  {
    forall j | lo <= j < hi && 0 <= j < |calls|
      ensures Accepted(s, calls[..j], calls[j])
    {
      if j < |prefix| {
        assert calls[..j] == prefix[..j] && calls[j] == prefix[j];
      }
    }
  }

  // ---------------------------------------------------------------------------
  // Arming: services, characteristics, the two commands, the subscription

  datatype Armed = Armed(weightService: Handle, userDataService: Handle, weight: Handle, command: Handle)

  /** The eight calls that arm the scale, in their required order. */
  function ArmingSequence(device: DeviceId, a: Armed): seq<Call> {
    [GetServiceByUuid(device, CustomService),
     GetServiceByUuid(device, UserDataService),
     GetCharacteristicByUuid(a.weightService, WeightCustomCharacteristic),
     GetCharacteristicByUuid(a.weightService, CmdCharacteristic),
     WriteCharacteristicValue(a.command, [0x09, 1], Acknowledged),
     WriteCharacteristicValue(a.command, [0x0c, 1], Acknowledged),
     CharacteristicEventStream(a.weight),
     StartNotify(a.weight)]
  }

  /**
   * The handles the session resolves for the four arming lookups, each taken
   * after the lookups before it (0 stands for a lookup that failed: no call
   * made with it is ever issued).
   */
  function Resolved(device: DeviceId, s: Session): Armed {
    var c0 := GetServiceByUuid(device, CustomService);
    var c1 := GetServiceByUuid(device, UserDataService);
    var weightService := s.lookup([], c0).GetOr(0);
    var c2 := GetCharacteristicByUuid(weightService, WeightCustomCharacteristic);
    var c3 := GetCharacteristicByUuid(weightService, CmdCharacteristic);
    Armed(weightService, s.lookup([c0], c1).GetOr(0),
          s.lookup([c0, c1], c2).GetOr(0), s.lookup([c0, c1, c2], c3).GetOr(0))
  }

  /**
   * Issues the arming calls one by one; the first failure ends the run with
   * the session's error for it. On success the handles are those the session
   * resolved, and every write and subscription was acknowledged.
   */
  function Arm(device: DeviceId, s: Session): (r: Step<Armed>)
    ensures 1 <= |r.calls| <= 8 && r.calls == ArmingSequence(device, Resolved(device, s))[..|r.calls|]
    ensures r.Continue? ==> r.calls == ArmingSequence(device, r.state) && r.state == Resolved(device, s)
    ensures r.Continue? ==>
      s.lookup([], r.calls[0]) == Success(r.state.weightService) &&
      s.lookup([r.calls[0]], r.calls[1]) == Success(r.state.userDataService) &&
      s.lookup([r.calls[0], r.calls[1]], r.calls[2]) == Success(r.state.weight) &&
      s.lookup([r.calls[0], r.calls[1], r.calls[2]], r.calls[3]) == Success(r.state.command)
    // Together: every call before the last was accepted (`ArmAccepted` states it as one range).
    ensures |r.calls| > 1 ==> Accepted(s, [], r.calls[0])
    ensures |r.calls| > 2 ==> Accepted(s, [r.calls[0]], r.calls[1])
    ensures |r.calls| > 3 ==> Accepted(s, [r.calls[0], r.calls[1]], r.calls[2])
    ensures |r.calls| > 4 ==> Accepted(s, [r.calls[0], r.calls[1], r.calls[2]], r.calls[3])
    ensures |r.calls| > 5 ==> Accepted(s, [r.calls[0], r.calls[1], r.calls[2], r.calls[3]], r.calls[4])
    ensures |r.calls| > 6 ==> Accepted(s, [r.calls[0], r.calls[1], r.calls[2], r.calls[3], r.calls[4]], r.calls[5])
    ensures |r.calls| > 7 ==> Accepted(s, [r.calls[0], r.calls[1], r.calls[2], r.calls[3], r.calls[4], r.calls[5]], r.calls[6])
    ensures r.Continue? <==> |r.calls| == 8 && Accepted(s, [r.calls[0], r.calls[1], r.calls[2], r.calls[3], r.calls[4], r.calls[5], r.calls[6]], r.calls[7])
    ensures r.Abort? ==> r.outcome.Failed?
  {
    var c0 := GetServiceByUuid(device, CustomService);
    var weightService := s.lookup([], c0);
    if weightService.Failure? then Abort(Failed(weightService.error), [c0]) else
    var c1 := GetServiceByUuid(device, UserDataService);
    assert [c0, c1][..1] == [c0];
    var userDataService := s.lookup([c0], c1);
    if userDataService.Failure? then Abort(Failed(userDataService.error), [c0, c1]) else
    var c2 := GetCharacteristicByUuid(weightService.value, WeightCustomCharacteristic);
    assert [c0, c1, c2][..2] == [c0, c1];
    var weight := s.lookup([c0, c1], c2);
    if weight.Failure? then Abort(Failed(weight.error), [c0, c1, c2]) else
    var c3 := GetCharacteristicByUuid(weightService.value, CmdCharacteristic);
    assert [c0, c1, c2, c3][..3] == [c0, c1, c2];
    var command := s.lookup([c0, c1, c2], c3);
    if command.Failure? then Abort(Failed(command.error), [c0, c1, c2, c3]) else
    var c4 := WriteCharacteristicValue(command.value, [0x09, 1], Acknowledged);
    assert [c0, c1, c2, c3, c4][..4] == [c0, c1, c2, c3];
    var e4 := s.acknowledge([c0, c1, c2, c3], c4);
    if e4.Some? then Abort(Failed(e4.value), [c0, c1, c2, c3, c4]) else
    var c5 := WriteCharacteristicValue(command.value, [0x0c, 1], Acknowledged);
    assert [c0, c1, c2, c3, c4, c5][..5] == [c0, c1, c2, c3, c4];
    var e5 := s.acknowledge([c0, c1, c2, c3, c4], c5);
    if e5.Some? then Abort(Failed(e5.value), [c0, c1, c2, c3, c4, c5]) else
    var c6 := CharacteristicEventStream(weight.value);
    assert [c0, c1, c2, c3, c4, c5, c6][..6] == [c0, c1, c2, c3, c4, c5];
    var e6 := s.acknowledge([c0, c1, c2, c3, c4, c5], c6);
    if e6.Some? then Abort(Failed(e6.value), [c0, c1, c2, c3, c4, c5, c6]) else
    var c7 := StartNotify(weight.value);
    assert [c0, c1, c2, c3, c4, c5, c6, c7][..7] == [c0, c1, c2, c3, c4, c5, c6];
    var e7 := s.acknowledge([c0, c1, c2, c3, c4, c5, c6], c7);
    if e7.Some? then Abort(Failed(e7.value), [c0, c1, c2, c3, c4, c5, c6, c7]) else
    Continue(Armed(weightService.value, userDataService.value, weight.value, command.value),
             [c0, c1, c2, c3, c4, c5, c6, c7])
  }

  /** Arming goes on iff the session accepted all eight calls; a failed arming had every call but its last accepted. */
  lemma ArmAccepted(device: DeviceId, s: Session)
    ensures var r := Arm(device, s);
      AcceptedBetween(s, r.calls, 0, |r.calls| - 1) &&
      (r.Continue? <==> |r.calls| == 8 && AcceptedBetween(s, r.calls, 0, 8))
  {
    var r := Arm(device, s);
    var c := r.calls;
    if |c| > 1 { assert c[..0] == []; }
    if |c| > 2 { assert c[..1] == [c[0]]; }
    if |c| > 3 { assert c[..2] == [c[0], c[1]]; }
    if |c| > 4 { assert c[..3] == [c[0], c[1], c[2]]; }
    if |c| > 5 { assert c[..4] == [c[0], c[1], c[2], c[3]]; }
    if |c| > 6 { assert c[..5] == [c[0], c[1], c[2], c[3], c[4]]; }
    if |c| > 7 { assert c[..6] == [c[0], c[1], c[2], c[3], c[4], c[5]]; }
    if |c| == 8 { assert c[..7] == [c[0], c[1], c[2], c[3], c[4], c[5], c[6]]; }
  }

  // ---------------------------------------------------------------------------
  // The user-data reads made for every weight frame

  predicate IsUserDataCharacteristic(uuid: Uuid) {
    uuid == AgeCharacteristic || uuid == SexCharacteristic || uuid == HeightCharacteristic
  }

  /** A call the collection loop may issue: a user-data characteristic lookup, or a read. */
  predicate ProfileCall(userData: Handle, c: Call) {
    (c.GetCharacteristicByUuid? && c.service == userData && IsUserDataCharacteristic(c.uuid))
    || c.ReadCharacteristicValue?
  }

  /**
   * Looks a user-data characteristic up, reads it and takes its first byte:
   * a failed lookup or read ends the run with the session's error, an empty
   * value panics on `[0]`.
   */
  function ProfileRead(s: Session, userData: Handle, uuid: Uuid, calls: seq<Call>): (r: Step<byte>)
    ensures |calls| < |r.calls| <= |calls| + 2 && r.calls[..|calls|] == calls
    ensures r.calls[|calls|] == GetCharacteristicByUuid(userData, uuid)
    ensures |r.calls| == |calls| + 2 ==> r.calls[|calls| + 1].ReadCharacteristicValue?
    ensures r.Continue? ==> |r.calls| == |calls| + 2
    ensures r.Abort? ==> r.outcome.Failed? || r.outcome == Panicked(IndexOutOfBounds(0, 0))
    ensures r.Continue? <==>
      (|r.calls| == |calls| + 2 &&
       Accepted(s, calls, r.calls[|calls|]) && Accepted(s, calls + [r.calls[|calls|]], r.calls[|calls| + 1]))
    ensures r.Abort? ==> EndedByLastReply(s, r.calls, r.outcome)
  {
    var lookup := GetCharacteristicByUuid(userData, uuid);
    var characteristic := s.lookup(calls, lookup);
    if characteristic.Failure? then Abort(Failed(characteristic.error), calls + [lookup]) else
    var read := ReadCharacteristicValue(characteristic.value);
    var value := s.read(calls + [lookup], read);
    assert (calls + [lookup, read])[..|calls| + 1] == calls + [lookup];
    if value.Failure? then Abort(Failed(value.error), calls + [lookup, read])
    else if |value.value| == 0 then Abort(Panicked(IndexOutOfBounds(0, 0)), calls + [lookup, read])
    else Continue(value.value[0], calls + [lookup, read])
  }

  /** Each reply of the session decides the outcome of one profile read: a failed lookup or read ends the
      call with that error, an empty value panics on index 0, and otherwise the first byte is the value;
      the read is of the handle the lookup returned. */
  lemma ProfileReadReplies(s: Session, userData: Handle, uuid: Uuid, calls: seq<Call>)
    ensures var lookup := GetCharacteristicByUuid(userData, uuid); var lk := s.lookup(calls, lookup);
      lk.Failure? ==> ProfileRead(s, userData, uuid, calls) == Abort(Failed(lk.error), calls + [lookup])
    ensures var lookup := GetCharacteristicByUuid(userData, uuid); var lk := s.lookup(calls, lookup);
      lk.Success? ==>
        var read := ReadCharacteristicValue(lk.value); var rd := s.read(calls + [lookup], read);
        var r := ProfileRead(s, userData, uuid, calls);
        (rd.Failure? ==> r == Abort(Failed(rd.error), calls + [lookup, read])) &&
        (rd.Success? && |rd.value| == 0 ==> r == Abort(Panicked(IndexOutOfBounds(0, 0)), calls + [lookup, read])) &&
        (rd.Success? && |rd.value| > 0 ==> r == Continue(rd.value[0], calls + [lookup, read]))
  {
  }

  /** The user-data characteristics read for every weight frame, in the driver's order. */
  const UserDataReads: seq<Uuid> := [AgeCharacteristic, SexCharacteristic, HeightCharacteristic]

  /** A profile read that goes on had both its calls accepted; one that stops, every call but its last. */
  lemma ProfileReadAccepted(s: Session, userData: Handle, uuid: Uuid, calls: seq<Call>)
    ensures var r := ProfileRead(s, userData, uuid, calls);
      AcceptedBetween(s, r.calls, |calls|, if r.Continue? then |r.calls| else |r.calls| - 1)
  {
    var r := ProfileRead(s, userData, uuid, calls);
    assert r.calls[..|calls|] == calls;
    if |r.calls| == |calls| + 2 {
      assert r.calls[..|calls| + 1] == calls + [r.calls[|calls|]];
      ProfileReadReplies(s, userData, uuid, calls);
    }
  }

  /**
   * Reads each characteristic in turn; the values are discarded. The run goes
   * on only while the session accepts every call; the first failure ends it.
   */
  function ProfileReads(s: Session, userData: Handle, uuids: seq<Uuid>, calls: seq<Call>): (r: Step<()>)
    ensures calls <= r.calls && |r.calls| <= |calls| + 2 * |uuids|
    ensures r.Continue? ==> |r.calls| == |calls| + 2 * |uuids|
    ensures r.Abort? ==> |calls| < |r.calls| && EndedByLastReply(s, r.calls, r.outcome)
    ensures AcceptedBetween(s, r.calls, |calls|, |r.calls| - 1)
    ensures r.Continue? ==> AcceptedBetween(s, r.calls, |calls|, |r.calls|)
    decreases |uuids|
  {
    if uuids == [] then Continue((), calls)
    else
      var first := ProfileRead(s, userData, uuids[0], calls);
      ProfileReadAccepted(s, userData, uuids[0], calls);
      match first
      case Abort(o, c) => Abort(o, c)
      case Continue(_, c) =>
        var rest := ProfileReads(s, userData, uuids[1..], c);
        AcceptedJoin(s, c, rest.calls, |calls|, if rest.Continue? then |rest.calls| else |rest.calls| - 1);
        rest
  }

  /** From offset `base` on, the k-th lookup is of the k-th characteristic, at `base + 2k`, and is followed by a read. */
  predicate ReadsInOrder(userData: Handle, uuids: seq<Uuid>, calls: seq<Call>, base: int) {
    forall k | 0 <= k < |uuids| && 0 <= base + 2 * k < |calls| ::
      calls[base + 2 * k] == GetCharacteristicByUuid(userData, uuids[k]) &&
      (base + 2 * k + 1 < |calls| ==> calls[base + 2 * k + 1].ReadCharacteristicValue?)
  }

  /** A lookup and a read in front of reads in order make reads in order. */
  lemma ReadsInOrderCons(userData: Handle, uuids: seq<Uuid>, calls: seq<Call>, base: int)
    requires uuids != [] && 0 <= base < |calls|
    requires calls[base] == GetCharacteristicByUuid(userData, uuids[0])
    requires base + 1 < |calls| ==> calls[base + 1].ReadCharacteristicValue?
    requires ReadsInOrder(userData, uuids[1..], calls, base + 2)
    ensures ReadsInOrder(userData, uuids, calls, base)
  {
    forall k | 1 <= k < |uuids| && 0 <= base + 2 * k < |calls|
      ensures calls[base + 2 * k] == GetCharacteristicByUuid(userData, uuids[k])
      ensures base + 2 * k + 1 < |calls| ==> calls[base + 2 * k + 1].ReadCharacteristicValue?
    {
      assert base + 2 * k == (base + 2) + 2 * (k - 1) && uuids[1..][k - 1] == uuids[k];
    }
  }

  /** The reads go in the order given: the k-th lookup sits at offset 2k, each followed by its read. */
  lemma {:induction false} ProfileReadsOrder(s: Session, userData: Handle, uuids: seq<Uuid>, calls: seq<Call>)
    ensures ReadsInOrder(userData, uuids, ProfileReads(s, userData, uuids, calls).calls, |calls|)
    decreases |uuids|
  {
    if uuids != [] {
      var first := ProfileRead(s, userData, uuids[0], calls);
      var r := ProfileReads(s, userData, uuids, calls);
      ProfileReadsFirst(s, userData, uuids, calls);
      if first.Continue? {
        assert r == ProfileReads(s, userData, uuids[1..], first.calls);
        ProfileReadsOrder(s, userData, uuids[1..], first.calls);
      } else {
        assert |r.calls| <= |calls| + 2;
      }
      ReadsInOrderCons(userData, uuids, r.calls, |calls|);
    }
  }

  /** The reads begin with the lookup of the first characteristic, followed by a read. */
  lemma ProfileReadsFirst(s: Session, userData: Handle, uuids: seq<Uuid>, calls: seq<Call>)
    requires uuids != []
    ensures var r := ProfileReads(s, userData, uuids, calls);
      |calls| < |r.calls| && r.calls[|calls|] == GetCharacteristicByUuid(userData, uuids[0]) &&
      (|calls| + 1 < |r.calls| ==> r.calls[|calls| + 1].ReadCharacteristicValue?)
  {
    var first := ProfileRead(s, userData, uuids[0], calls);
    var r := ProfileReads(s, userData, uuids, calls);
    if first.Continue? {
      assert r == ProfileReads(s, userData, uuids[1..], first.calls);
      assert |first.calls| == |calls| + 2 && first.calls <= r.calls;
      assert r.calls[|calls|] == first.calls[|calls|] && r.calls[|calls| + 1] == first.calls[|calls| + 1];
    } else {
      assert r == Abort(first.outcome, first.calls);
    }
  }

  /** Every call the reads make is a user-data lookup or a read. */
  lemma {:induction false} ProfileReadsTrace(s: Session, userData: Handle, uuids: seq<Uuid>, calls: seq<Call>)
    requires forall k | 0 <= k < |uuids| :: IsUserDataCharacteristic(uuids[k])
    ensures forall i | |calls| <= i < |ProfileReads(s, userData, uuids, calls).calls| ::
      ProfileCall(userData, ProfileReads(s, userData, uuids, calls).calls[i])
    decreases |uuids|
  {
    if uuids != [] {
      var first := ProfileRead(s, userData, uuids[0], calls);
      assert IsUserDataCharacteristic(uuids[0]);
      if first.Continue? {
        ProfileReadsTrace(s, userData, uuids[1..], first.calls);
        var r := ProfileReads(s, userData, uuids[1..], first.calls);
        forall i | |calls| <= i < |r.calls|
          ensures ProfileCall(userData, r.calls[i])
        {
          if i < |first.calls| {
            assert r.calls[i] == first.calls[i];
            if i == |calls| {
              assert first.calls[i] == GetCharacteristicByUuid(userData, uuids[0]);
            } else {
              assert first.calls[i].ReadCharacteristicValue?;
            }
          }
        }
      }
    }
  }

  // ---------------------------------------------------------------------------
  // One event, and the collection loop

  /** The record an event contributes when nothing goes wrong. */
  function FrameRecords(ev: Event): (rs: seq<Record>)
    ensures |rs| <= 1
    ensures |rs| == 1 ==> ValidDateTime(rs[0].timestamp) && |rs[0].values| == 1
  {
    if ev.CharacteristicValue? && Classify(ev.value) == WeightTag && DecodeWeightFrame(ev.value).Success?
    then [ToRecord(DecodeWeightFrame(ev.value).value)]
    else []
  }

  /** The records of a whole stream, in arrival order: one per decodable weight frame. */
  function ExpectedRecords(events: seq<Event>): (rs: seq<Record>)
    ensures |rs| <= |events|
  {
    if events == [] then [] else FrameRecords(events[0]) + ExpectedRecords(events[1..])
  }

  /** An event the driver gets through without a panic. */
  predicate Benign(ev: Event) {
    ev.CharacteristicValue? ==>
      !Classify(ev.value).TagPanic? &&
      (Classify(ev.value) == WeightTag ==> DecodeWeightFrame(ev.value).Success?)
  }

  predicate IsWeightFrame(ev: Event) {
    ev.CharacteristicValue? && Classify(ev.value) == WeightTag
  }

  /**
   * One iteration of the loop: other events and non-weight frames change
   * nothing; a weight frame is decoded, the user data is read, and one record
   * is appended.
   */
  function HandleEvent(s: Session, userData: Handle, ev: Event, calls: seq<Call>, records: seq<Record>)
    : (r: Step<seq<Record>>)
    ensures calls <= r.calls
    ensures r.Abort? ==> !r.outcome.Records?
    ensures !IsWeightFrame(ev) && Benign(ev) ==> r == Continue(records, calls)
    ensures !Benign(ev) ==> r.Abort? && r.outcome.Panicked? && r.calls == calls
    ensures r.Continue? ==> r.state == records + FrameRecords(ev)
    ensures r.Abort? ==> (!Benign(ev) && r.outcome.Panicked? && r.calls == calls) || EndedByLastReply(s, r.calls, r.outcome)
    ensures AcceptedBetween(s, r.calls, |calls|, |r.calls| - 1)
    ensures r.Continue? ==> AcceptedBetween(s, r.calls, |calls|, |r.calls|)
  {
    match ev
    case OtherEvent => Continue(records, calls)
    case CharacteristicValue(value) =>
      match Classify(value)
      case TagPanic(p) => Abort(Panicked(p), calls)
      case WeightTag =>
        (match DecodeWeightFrame(value)
         case Failure(p) => Abort(Panicked(p), calls)
         case Success(frame) =>
           match ProfileReads(s, userData, UserDataReads, calls)
           case Abort(o, c) => Abort(o, c)
           case Continue(_, c) => Continue(records + [ToRecord(frame)], c))
      case ActivityTag => Continue(records, calls)  // only printed by the driver
      case OtherTag => Continue(records, calls)
  }

  /** The loop from the given point on: the stream's end returns the records gathered. */
  function Collect(s: Session, userData: Handle, events: seq<Event>, calls: seq<Call>, records: seq<Record>)
    : (r: Run)
    ensures calls <= r.calls
    ensures r.outcome.Records? ==> records <= r.outcome.records
    ensures AcceptedBetween(s, r.calls, |calls|, |r.calls| - 1)
    ensures r.outcome.Records? ==> AcceptedBetween(s, r.calls, |calls|, |r.calls|)
    decreases |events|
  {
    if events == [] then Run(Records(records), calls)
    else
      match HandleEvent(s, userData, events[0], calls, records)
      case Abort(o, c) => Run(o, c)
      case Continue(rs, c) =>
        var rest := Collect(s, userData, events[1..], c, rs);
        AcceptedJoin(s, c, rest.calls, |calls|, if rest.outcome.Records? then |rest.calls| else |rest.calls| - 1);
        rest
  }

  /** `get_data` as a whole. */
  function GetDataSpec(device: DeviceId, s: Session, events: seq<Event>): Run {
    match Arm(device, s)
    case Abort(o, c) => Run(o, c)
    case Continue(a, c) => Collect(s, a.userDataService, events, c, [])
  }

  // ---------------------------------------------------------------------------
  // Properties of a run

  /** The sex and height characteristics share one identifier; the age characteristic is another. */
  lemma SexCharacteristicIsHeight()
    ensures SexCharacteristic == HeightCharacteristic
    ensures AgeCharacteristic != HeightCharacteristic
  {
  }

  /**
   * A failure while arming ends `get_data` with the session's error for the
   * last call issued, and no records; the calls issued are a prefix of the
   * arming sequence.
   */
  lemma ArmFailureIsPrefix(device: DeviceId, s: Session, events: seq<Event>)
    requires Arm(device, s).Abort?
    ensures var run := GetDataSpec(device, s, events);
      run.outcome.Failed? && EndedByLastReply(s, run.calls, run.outcome) &&
      1 <= |run.calls| <= 8 && run.calls == ArmingSequence(device, Resolved(device, s))[..|run.calls|]
  {
    var c0 := GetServiceByUuid(device, CustomService);
    var weightService := s.lookup([], c0);
    assert [c0][..0] == [];
    if weightService.Failure? {
      assert Arm(device, s).calls == [c0];
      return;
    }
    var c1 := GetServiceByUuid(device, UserDataService);
    var userDataService := s.lookup([c0], c1);
    assert [c0, c1][..1] == [c0];
    if userDataService.Failure? {
      assert Arm(device, s).calls == [c0, c1];
      return;
    }
    var c2 := GetCharacteristicByUuid(weightService.value, WeightCustomCharacteristic);
    var weight := s.lookup([c0, c1], c2);
    assert [c0, c1, c2][..2] == [c0, c1];
    if weight.Failure? {
      assert Arm(device, s).calls == [c0, c1, c2];
      return;
    }
    var c3 := GetCharacteristicByUuid(weightService.value, CmdCharacteristic);
    var command := s.lookup([c0, c1, c2], c3);
    assert [c0, c1, c2, c3][..3] == [c0, c1, c2];
    if command.Failure? {
      assert Arm(device, s).calls == [c0, c1, c2, c3];
      return;
    }
    var c4 := WriteCharacteristicValue(command.value, [0x09, 1], Acknowledged);
    var e4 := s.acknowledge([c0, c1, c2, c3], c4);
    assert [c0, c1, c2, c3, c4][..4] == [c0, c1, c2, c3];
    if e4.Some? {
      assert Arm(device, s).calls == [c0, c1, c2, c3, c4];
      return;
    }
    var c5 := WriteCharacteristicValue(command.value, [0x0c, 1], Acknowledged);
    var e5 := s.acknowledge([c0, c1, c2, c3, c4], c5);
    assert [c0, c1, c2, c3, c4, c5][..5] == [c0, c1, c2, c3, c4];
    if e5.Some? {
      assert Arm(device, s).calls == [c0, c1, c2, c3, c4, c5];
      return;
    }
    var c6 := CharacteristicEventStream(weight.value);
    var e6 := s.acknowledge([c0, c1, c2, c3, c4, c5], c6);
    assert [c0, c1, c2, c3, c4, c5, c6][..6] == [c0, c1, c2, c3, c4, c5];
    if e6.Some? {
      assert Arm(device, s).calls == [c0, c1, c2, c3, c4, c5, c6];
      return;
    }
    var c7 := StartNotify(weight.value);
    var e7 := s.acknowledge([c0, c1, c2, c3, c4, c5, c6], c7);
    assert [c0, c1, c2, c3, c4, c5, c6, c7][..7] == [c0, c1, c2, c3, c4, c5, c6];
    if e7.Some? {
      assert Arm(device, s).calls == [c0, c1, c2, c3, c4, c5, c6, c7];
      return;
    }
  }

  /** An iteration issues nothing but user-data lookups and reads. */
  lemma StepTrace(s: Session, userData: Handle, ev: Event, calls: seq<Call>, records: seq<Record>)
    ensures forall i | |calls| <= i < |HandleEvent(s, userData, ev, calls, records).calls| ::
      ProfileCall(userData, HandleEvent(s, userData, ev, calls, records).calls[i])
  {
    if IsWeightFrame(ev) && DecodeWeightFrame(ev.value).Success? {
      ProfileReadsTrace(s, userData, UserDataReads, calls);
    }
  }

  lemma {:induction false} CollectTrace(
    s: Session, userData: Handle, events: seq<Event>, calls: seq<Call>, records: seq<Record>)
    ensures forall i | |calls| <= i < |Collect(s, userData, events, calls, records).calls| ::
      ProfileCall(userData, Collect(s, userData, events, calls, records).calls[i])
    decreases |events|
  {
    if events != [] {
      var step := HandleEvent(s, userData, events[0], calls, records);
      StepTrace(s, userData, events[0], calls, records);
      if step.Continue? {
        CollectTrace(s, userData, events[1..], step.calls, step.state);
        var run := Collect(s, userData, events[1..], step.calls, step.state);
        forall i | |calls| <= i < |run.calls|
          ensures ProfileCall(userData, run.calls[i])
        {
          if i < |step.calls| {
            assert run.calls[i] == step.calls[i];
          }
        }
      }
    }
  }

  /**
   * Once armed, the run begins with the eight arming calls in order, and every
   * later call is a user-data lookup or read: the commands are written once,
   * and the subscription is opened before notifications are started.
   */
  lemma RunTrace(device: DeviceId, s: Session, events: seq<Event>)
    requires Arm(device, s).Continue?
    ensures var a := Arm(device, s).state; var run := GetDataSpec(device, s, events);
      |run.calls| >= 8 && run.calls[..8] == ArmingSequence(device, a) &&
      forall i | 8 <= i < |run.calls| :: ProfileCall(a.userDataService, run.calls[i])
  {
    var armed := Arm(device, s);
    var run := Collect(s, armed.state.userDataService, events, armed.calls, []);
    assert armed.calls <= run.calls;
    CollectTrace(s, armed.state.userDataService, events, armed.calls, []);
  }

  /** An iteration that goes on makes six user-data calls for a weight frame and none otherwise. */
  lemma StepRecords(s: Session, userData: Handle, ev: Event, calls: seq<Call>, records: seq<Record>)
    requires HandleEvent(s, userData, ev, calls, records).Continue?
    ensures var step := HandleEvent(s, userData, ev, calls, records);
      |step.calls| == |calls| + 6 * |FrameRecords(ev)|
  {
  }

  /** An iteration that goes on hands the rest of the stream its calls and its records. */
  lemma CollectStep(s: Session, userData: Handle, events: seq<Event>, calls: seq<Call>, records: seq<Record>)
    requires events != [] && HandleEvent(s, userData, events[0], calls, records).Continue?
    ensures var step := HandleEvent(s, userData, events[0], calls, records);
      Collect(s, userData, events, calls, records) == Collect(s, userData, events[1..], step.calls, step.state) &&
      step.state + ExpectedRecords(events[1..]) == records + ExpectedRecords(events)
  {
    CollectUnfold(s, userData, events, calls, records);
    var step := HandleEvent(s, userData, events[0], calls, records);
    ExpectedRecordsStep(events, records, step.state);
  }

  lemma CollectUnfold(s: Session, userData: Handle, events: seq<Event>, calls: seq<Call>, records: seq<Record>)
    requires events != [] && HandleEvent(s, userData, events[0], calls, records).Continue?
    ensures var step := HandleEvent(s, userData, events[0], calls, records);
      Collect(s, userData, events, calls, records) == Collect(s, userData, events[1..], step.calls, step.state)
  {
  }

  lemma AppendAssociative<T>(a: seq<T>, b: seq<T>, c: seq<T>)
    ensures (a + b) + c == a + (b + c)
  {
  }

  lemma ExpectedRecordsStep(events: seq<Event>, records: seq<Record>, next: seq<Record>)
    requires events != [] && next == records + FrameRecords(events[0])
    ensures next + ExpectedRecords(events[1..]) == records + ExpectedRecords(events)
  {
    var head, rest := FrameRecords(events[0]), ExpectedRecords(events[1..]);
    AppendAssociative(records, head, rest);
    assert ExpectedRecords(events) == head + rest;
  }

  /** A run that reaches the end of the stream has appended exactly the weight frames' records, in arrival order. */
  lemma {:induction false} CollectRecords(
    s: Session, userData: Handle, events: seq<Event>, calls: seq<Call>, records: seq<Record>)
    requires Collect(s, userData, events, calls, records).outcome.Records?
    ensures Collect(s, userData, events, calls, records).outcome.records == records + ExpectedRecords(events)
    decreases |events|
  {
    if events != [] {
      var step := HandleEvent(s, userData, events[0], calls, records);
      assert step.Continue?;
      CollectStep(s, userData, events, calls, records);
      CollectRecords(s, userData, events[1..], step.calls, step.state);
    }
  }

  /** A run that reaches the end of the stream has made six user-data calls per record it gathered. */
  lemma {:induction false} CollectCallCount(
    s: Session, userData: Handle, events: seq<Event>, calls: seq<Call>, records: seq<Record>)
    requires Collect(s, userData, events, calls, records).outcome.Records?
    ensures |Collect(s, userData, events, calls, records).calls| == |calls| + 6 * |ExpectedRecords(events)|
    decreases |events|
  {
    if events != [] {
      var ev := events[0];
      var step := HandleEvent(s, userData, ev, calls, records);
      assert step.Continue?;
      assert Collect(s, userData, events, calls, records) == Collect(s, userData, events[1..], step.calls, step.state);
      StepRecords(s, userData, ev, calls, records);
      CollectCallCount(s, userData, events[1..], step.calls, step.state);
      assert |ExpectedRecords(events)| == |FrameRecords(ev)| + |ExpectedRecords(events[1..])|;
    }
  }

  /** `Ok(records)` lists one record per weight frame, in arrival order. */
  lemma RecordsAreWeightFramesInOrder(device: DeviceId, s: Session, events: seq<Event>)
    requires GetDataSpec(device, s, events).outcome.Records?
    ensures var run := GetDataSpec(device, s, events);
      run.outcome.records == ExpectedRecords(events) &&
      |run.calls| == 8 + 6 * |run.outcome.records|
  {
    var armed := Arm(device, s);
    CollectRecords(s, armed.state.userDataService, events, armed.calls, []);
    CollectCallCount(s, armed.state.userDataService, events, armed.calls, []);
  }

  /** A loop that fails was ended by the session's reply to the last call it made. */
  lemma {:induction false} CollectFailure(
    s: Session, userData: Handle, events: seq<Event>, calls: seq<Call>, records: seq<Record>)
    requires Collect(s, userData, events, calls, records).outcome.Failed?
    ensures var run := Collect(s, userData, events, calls, records);
      EndedByLastReply(s, run.calls, run.outcome)
    decreases |events|
  {
    var step := HandleEvent(s, userData, events[0], calls, records);
    if step.Continue? {
      assert Collect(s, userData, events, calls, records) == Collect(s, userData, events[1..], step.calls, step.state);
      CollectFailure(s, userData, events[1..], step.calls, step.state);
    }
  }

  /**
   * Every `Err` of `get_data` is the session's error for the last call made:
   * a failed lookup, read, write, stream opening or `start_notify`.
   */
  lemma FailureIsSessionError(device: DeviceId, s: Session, events: seq<Event>)
    requires GetDataSpec(device, s, events).outcome.Failed?
    ensures var run := GetDataSpec(device, s, events);
      EndedByLastReply(s, run.calls, run.outcome)
  {
    var armed := Arm(device, s);
    if armed.Continue? {
      CollectFailure(s, armed.state.userDataService, events, armed.calls, []);
    } else {
      ArmFailureIsPrefix(device, s, events);
    }
  }

  /** A loop that panics met a payload it cannot get through, or an empty user-data value. */
  lemma {:induction false} CollectPanic(
    s: Session, userData: Handle, events: seq<Event>, calls: seq<Call>, records: seq<Record>)
    requires Collect(s, userData, events, calls, records).outcome.Panicked?
    ensures var run := Collect(s, userData, events, calls, records);
      (exists i | 0 <= i < |events| :: !Benign(events[i])) || EndedByLastReply(s, run.calls, run.outcome)
    decreases |events|
  {
    var step := HandleEvent(s, userData, events[0], calls, records);
    if step.Continue? {
      assert Collect(s, userData, events, calls, records) == Collect(s, userData, events[1..], step.calls, step.state);
      CollectPanic(s, userData, events[1..], step.calls, step.state);
      var run := Collect(s, userData, events[1..], step.calls, step.state);
      if !EndedByLastReply(s, run.calls, run.outcome) {
        var i :| 0 <= i < |events[1..]| && !Benign(events[1..][i]);
        assert events[i + 1] == events[1..][i];
      }
    } else if !EndedByLastReply(s, step.calls, step.outcome) {
      assert !Benign(events[0]);
    }
  }

  /**
   * A `get_data` that panics met a payload it cannot get through, or an empty
   * user-data value; arming never panics.
   */
  lemma RunPanic(device: DeviceId, s: Session, events: seq<Event>)
    requires GetDataSpec(device, s, events).outcome.Panicked?
    ensures var run := GetDataSpec(device, s, events);
      Arm(device, s).Continue? &&
      ((exists i | 0 <= i < |events| :: !Benign(events[i])) || EndedByLastReply(s, run.calls, run.outcome))
  {
    var armed := Arm(device, s);
    CollectPanic(s, armed.state.userDataService, events, armed.calls, []);
  }

  /**
   * `get_data` returns records only if the session accepted every call it was
   * given; whatever the outcome, every call before the last was accepted.
   * With `FailureIsSessionError`: any failed or empty reply ends the run there.
   */
  lemma RunAccepted(device: DeviceId, s: Session, events: seq<Event>)
    ensures var run := GetDataSpec(device, s, events);
      AcceptedBetween(s, run.calls, 0, |run.calls| - 1) &&
      (run.outcome.Records? ==> AcceptedBetween(s, run.calls, 0, |run.calls|))
  {
    var armed := Arm(device, s);
    ArmAccepted(device, s);
    if armed.Continue? {
      var run := Collect(s, armed.state.userDataService, events, armed.calls, []);
      AcceptedJoin(s, armed.calls, run.calls, 0, if run.outcome.Records? then |run.calls| else |run.calls| - 1);
    }
  }

  /**
   * Once armed, a weight frame whose age lookup or age read the session fails
   * ends `get_data` with that error, right after that call.
   */
  lemma UserDataFailureFailsRun(device: DeviceId, s: Session, frame: seq<byte>, events: seq<Event>)
    requires Arm(device, s).Continue?
    requires Classify(frame) == WeightTag && DecodeWeightFrame(frame).Success?
    ensures var armed := Arm(device, s);
      var lookup := GetCharacteristicByUuid(armed.state.userDataService, AgeCharacteristic);
      var lk := s.lookup(armed.calls, lookup);
      lk.Failure? ==>
        GetDataSpec(device, s, [CharacteristicValue(frame)] + events) == Run(Failed(lk.error), armed.calls + [lookup])
    ensures var armed := Arm(device, s);
      var lookup := GetCharacteristicByUuid(armed.state.userDataService, AgeCharacteristic);
      var lk := s.lookup(armed.calls, lookup);
      lk.Success? ==>
        var read := ReadCharacteristicValue(lk.value);
        var rd := s.read(armed.calls + [lookup], read);
        rd.Failure? ==>
        GetDataSpec(device, s, [CharacteristicValue(frame)] + events) == Run(Failed(rd.error), armed.calls + [lookup, read])
  {
    var armed := Arm(device, s);
    var stream := [CharacteristicValue(frame)] + events;
    assert stream[0] == CharacteristicValue(frame);
    assert GetDataSpec(device, s, stream) == Collect(s, armed.state.userDataService, stream, armed.calls, []);
    ProfileReadReplies(s, armed.state.userDataService, AgeCharacteristic, armed.calls);
  }

  lemma {:induction false} CooperativeReads(s: Session, userData: Handle, uuids: seq<Uuid>, calls: seq<Call>)
    requires Cooperative(s)
    ensures ProfileReads(s, userData, uuids, calls).Continue?
    decreases |uuids|
  {
    if uuids != [] {
      var first := ProfileRead(s, userData, uuids[0], calls);
      assert first.Continue?;
      CooperativeReads(s, userData, uuids[1..], first.calls);
    }
  }

  /** Against a session that never fails, only a panicking payload stops the loop. */
  lemma CooperativeStep(s: Session, userData: Handle, ev: Event, calls: seq<Call>, records: seq<Record>)
    requires Cooperative(s) && Benign(ev)
    ensures HandleEvent(s, userData, ev, calls, records).Continue?
  {
    CooperativeReads(s, userData, UserDataReads, calls);
  }

  /** Against a session that never fails, a stream without panicking payloads is collected whole. */
  lemma {:induction false} CooperativeCollect(
    s: Session, userData: Handle, events: seq<Event>, calls: seq<Call>, records: seq<Record>)
    requires Cooperative(s)
    requires forall i | 0 <= i < |events| :: Benign(events[i])
    ensures Collect(s, userData, events, calls, records).outcome == Records(records + ExpectedRecords(events))
    decreases |events|
  {
    if events != [] {
      var step := HandleEvent(s, userData, events[0], calls, records);
      assert Benign(events[0]);
      CooperativeStep(s, userData, events[0], calls, records);
      CollectStep(s, userData, events, calls, records);
      CooperativeCollect(s, userData, events[1..], step.calls, step.state);
    }
  }

  /** Against a session that never fails, a payload that panics ends the run in that panic. */
  lemma {:induction false} CooperativeCollectPanics(
    s: Session, userData: Handle, events: seq<Event>, calls: seq<Call>, records: seq<Record>, k: nat)
    requires Cooperative(s)
    requires k < |events| && !Benign(events[k])
    ensures Collect(s, userData, events, calls, records).outcome.Panicked?
    decreases |events|
  {
    var ev := events[0];
    if Benign(ev) {
      var step := HandleEvent(s, userData, ev, calls, records);
      CooperativeStep(s, userData, ev, calls, records);
      assert events[1..][k - 1] == events[k];
      CooperativeCollectPanics(s, userData, events[1..], step.calls, step.state, k - 1);
    }
  }

  /** Arming cannot fail against a session that never fails. */
  lemma CooperativeArm(device: DeviceId, s: Session)
    requires Cooperative(s)
    ensures Arm(device, s).Continue?
  {
  }

  /**
   * `get_data` against a session that never fails returns every weight
   * frame's record, in arrival order, when no payload panics.
   */
  lemma CooperativeSessionCollectsEveryWeightFrame(device: DeviceId, s: Session, events: seq<Event>)
    requires Cooperative(s)
    requires forall i | 0 <= i < |events| :: Benign(events[i])
    ensures GetDataSpec(device, s, events).outcome == Records(ExpectedRecords(events))
  {
    CooperativeArm(device, s);
    var armed := Arm(device, s);
    assert GetDataSpec(device, s, events) == Collect(s, armed.state.userDataService, events, armed.calls, []);
    CooperativeCollect(s, armed.state.userDataService, events, armed.calls, []);
  }

  /** ... and panics, returning nothing, when some payload panics. */
  lemma CooperativeSessionPanics(device: DeviceId, s: Session, events: seq<Event>, k: nat)
    requires Cooperative(s)
    requires k < |events| && !Benign(events[k])
    ensures GetDataSpec(device, s, events).outcome.Panicked?
  {
    CooperativeArm(device, s);
    var armed := Arm(device, s);
    CooperativeCollectPanics(s, armed.state.userDataService, events, armed.calls, [], k);
  }

  /**
   * A stream without weight frames (and without payloads that panic) changes
   * nothing: no further calls, no records. The empty stream is one such.
   */
  lemma {:induction false} CollectWithoutWeightFrames(
    s: Session, userData: Handle, events: seq<Event>, calls: seq<Call>, records: seq<Record>)
    requires forall i | 0 <= i < |events| :: Benign(events[i]) && !IsWeightFrame(events[i])
    ensures Collect(s, userData, events, calls, records) == Run(Records(records), calls)
    decreases |events|
  {
    if events != [] {
      assert Benign(events[0]) && !IsWeightFrame(events[0]);
      CollectWithoutWeightFrames(s, userData, events[1..], calls, records);
    }
  }

  lemma NoWeightFramesNoRecords(device: DeviceId, s: Session, events: seq<Event>)
    requires Arm(device, s).Continue?
    requires forall i | 0 <= i < |events| :: Benign(events[i]) && !IsWeightFrame(events[i])
    ensures GetDataSpec(device, s, events) == Run(Records([]), Arm(device, s).calls)
  {
    var armed := Arm(device, s);
    CollectWithoutWeightFrames(s, armed.state.userDataService, events, armed.calls, []);
  }

  /**
   * A weight frame with month 13 panics the whole call: the valid frame after
   * it is never decoded, and nothing is returned.
   */
  lemma InvalidDateAbortsSession(device: DeviceId, s: Session)
    requires Cooperative(s)
    ensures GetDataSpec(device, s, [
        CharacteristicValue([9, 0, 7, 231, 13, 15, 10, 30, 0, 2, 188, 0, 0, 0, 0]),
        CharacteristicValue([9, 0, 7, 231, 1, 15, 10, 30, 0, 2, 188, 0, 0, 0, 0])]).outcome
      == Panicked(InvalidDate)
  {
    CooperativeArm(device, s);
  }

  // ---------------------------------------------------------------------------
  // The driver

  /** The age, sex and height lookups and reads made for one weight frame. */
  method ReadUserData(s: Session, userData: Handle, calls: seq<Call>) returns (r: Step<()>)
    ensures r == ProfileReads(s, userData, UserDataReads, calls)
  {
    var rest := [SexCharacteristic, HeightCharacteristic];
    assert UserDataReads[1..] == rest && rest[1..] == [HeightCharacteristic];
    var age := ProfileRead(s, userData, AgeCharacteristic, calls);
    if age.Abort? {
      return Abort(age.outcome, age.calls);
    }
    assert ProfileReads(s, userData, UserDataReads, calls) == ProfileReads(s, userData, rest, age.calls);
    var sex := ProfileRead(s, userData, SexCharacteristic, age.calls);
    if sex.Abort? {
      return Abort(sex.outcome, sex.calls);
    }
    assert ProfileReads(s, userData, rest, age.calls) == ProfileReads(s, userData, [HeightCharacteristic], sex.calls);
    var height := ProfileRead(s, userData, HeightCharacteristic, sex.calls);
    if height.Abort? {
      return Abort(height.outcome, height.calls);
    }
    return Continue((), height.calls);
  }

  /** The receive loop of `get_data`: one iteration per event, until the stream ends or a call fails. */
  method CollectEvents(s: Session, userData: Handle, events: seq<Event>, armed: seq<Call>)
    returns (result: Outcome, calls: seq<Call>)
    ensures Run(result, calls) == Collect(s, userData, events, armed, [])
  {
    calls := armed;
    var records: seq<Record> := [];
    var i := 0;
    assert events[i..] == events;
    while i < |events|
      invariant 0 <= i <= |events|
      invariant Collect(s, userData, events[i..], calls, records) == Collect(s, userData, events, armed, [])
      decreases |events| - i
    {
      assert events[i..][0] == events[i] && events[i..][1..] == events[i + 1..];
      if events[i].CharacteristicValue? {
        var value := events[i].value;
        var tag := Classify(value);
        if tag.TagPanic? {
          return Panicked(tag.panic), calls;
        }
        if tag == WeightTag {
          var frame := DecodeWeightFrame(value);
          if frame.Failure? {
            return Panicked(frame.error), calls;
          }
          var profile := ReadUserData(s, userData, calls);
          if profile.Abort? {
            return profile.outcome, profile.calls;
          }
          calls := profile.calls;
          records := records + [ToRecord(frame.value)];
        }
      }
      i := i + 1;
    }
    return Records(records), calls;
  }

  /** `get_data`: arms the scale call by call, then runs the receive loop. */
  method GetData(device: DeviceId, s: Session, events: seq<Event>) returns (result: Outcome, calls: seq<Call>)
    ensures Run(result, calls) == GetDataSpec(device, s, events)
  {
    var c0 := GetServiceByUuid(device, CustomService);
    var weightService := s.lookup([], c0);
    calls := [c0];
    if weightService.Failure? {
      return Failed(weightService.error), calls;
    }
    var c1 := GetServiceByUuid(device, UserDataService);
    var userDataService := s.lookup(calls, c1);
    calls := calls + [c1];
    assert calls == [c0, c1];
    if userDataService.Failure? {
      return Failed(userDataService.error), calls;
    }
    var c2 := GetCharacteristicByUuid(weightService.value, WeightCustomCharacteristic);
    var weight := s.lookup(calls, c2);
    calls := calls + [c2];
    assert calls == [c0, c1, c2];
    if weight.Failure? {
      return Failed(weight.error), calls;
    }
    var c3 := GetCharacteristicByUuid(weightService.value, CmdCharacteristic);
    var command := s.lookup(calls, c3);
    calls := calls + [c3];
    assert calls == [c0, c1, c2, c3];
    if command.Failure? {
      return Failed(command.error), calls;
    }
    var c4 := WriteCharacteristicValue(command.value, [0x09, 1], Acknowledged);
    var nack := s.acknowledge(calls, c4);
    calls := calls + [c4];
    assert calls == [c0, c1, c2, c3, c4];
    if nack.Some? {
      return Failed(nack.value), calls;
    }
    var c5 := WriteCharacteristicValue(command.value, [0x0c, 1], Acknowledged);
    nack := s.acknowledge(calls, c5);
    calls := calls + [c5];
    assert calls == [c0, c1, c2, c3, c4, c5];
    if nack.Some? {
      return Failed(nack.value), calls;
    }
    var c6 := CharacteristicEventStream(weight.value);
    nack := s.acknowledge(calls, c6);
    calls := calls + [c6];
    assert calls == [c0, c1, c2, c3, c4, c5, c6];
    if nack.Some? {
      return Failed(nack.value), calls;
    }
    var c7 := StartNotify(weight.value);
    nack := s.acknowledge(calls, c7);
    calls := calls + [c7];
    if nack.Some? {
      return Failed(nack.value), calls;
    }
    assert calls == ArmingSequence(device, Armed(weightService.value, userDataService.value, weight.value, command.value));

    assert Arm(device, s) == Continue(Armed(weightService.value, userDataService.value, weight.value, command.value), calls);
    result, calls := CollectEvents(s, userDataService.value, events, calls);
  }
}
