/** `BinaryInterfaceClient::read`: reassembly of a byte stream from short reads, and the two loops that read
    poses through it. */
module StreamRead {
  import opened Windows

  type Byte = b: nat | b < 256

  /** What `::read` returns. The operating system limits each call to its next answer: at most that many
      bytes, at most `count`, at most what has arrived. An answer below 1 is the end or an error. */
  function OsResult(answers: seq<int>, arrived: nat, count: nat): (r: int)
    ensures r <= count && r <= arrived
  {
    if answers == [] then 0
    else if answers[0] < 1 then answers[0]
    else Min(answers[0], Min(count, arrived))
  }

  function Rest(answers: seq<int>): seq<int> {
    if answers == [] then [] else answers[1..]
  }

  /** `result` as returned, `taken` bytes consumed, `answers` left. */
  datatype Outcome = Outcome(result: int, taken: nat, answers: seq<int>)

  /** The loop as a function, with `done` bytes of `size` in place. */
  function Fill(answers: seq<int>, arrived: nat, done: nat, size: int): (o: Outcome)
    ensures done <= o.taken <= done + arrived
    ensures o.taken <= done || o.taken <= size
    decreases size - done
  {
    if size <= done then Outcome(done, done, answers)
    else
      var r := OsResult(answers, arrived, size - done);
      if r < 1 then Outcome(r, done, Rest(answers))
      else Fill(Rest(answers), arrived - r, done + r, size)
  }

  /** The bytes that the answers grant before the first one below 1. */
  function Granted(answers: seq<int>): nat {
    if answers == [] || answers[0] < 1 then 0 else answers[0] + Granted(answers[1..])
  }

  /** Closed form of the loop: it takes as much as was asked for, has arrived and is granted, and returns
      `size` exactly if that is everything. A failed read has consumed, and lost, what it took. */
  lemma {:induction false} FillTakes(answers: seq<int>, arrived: nat, done: nat, size: nat)
    requires done <= size
    ensures var o := Fill(answers, arrived, done, size);
      && o.taken == Min(size, done + Min(arrived, Granted(answers)))
      && (o.taken == size ==> o.result == size)
      && (o.taken < size ==> o.result < 1)
    decreases size - done
  {
    if done == size {
    } else {
      var r := OsResult(answers, arrived, size - done);
      if 1 <= r {
        FillTakes(Rest(answers), arrived - r, done + r, size);
      }
    }
  }

  /** One byte per call is the slowest the system can be, so `size` positive answers always suffice. */
  lemma {:induction false} PositiveAnswersGrant(answers: seq<int>)
    requires forall a | a in answers :: 1 <= a
    ensures |answers| <= Granted(answers)
  {
    if answers == [] {
    } else {
      assert answers[0] in answers;
      assert forall a | a in answers[1..] :: a in answers;
      PositiveAnswersGrant(answers[1..]);
    }
  }

  /** A read uses at most one answer per byte. */
  lemma {:induction false} FillUsesAnswers(answers: seq<int>, arrived: nat, done: nat, size: int)
    ensures var o := Fill(answers, arrived, done, size);
      && |o.answers| <= |answers|
      && (o.taken >= size ==> |answers| <= |o.answers| + (o.taken - done))
      && forall a | a in o.answers :: a in answers
    decreases size - done
  {
    if size <= done {
    } else {
      var r := OsResult(answers, arrived, size - done);
      if 1 <= r {
        FillUsesAnswers(Rest(answers), arrived - r, done + r, size);
      }
    }
  }

  /** The first answer below 1; a zero if there is none. */
  function Refusal(answers: seq<int>): (r: int)
    ensures r < 1
  {
    if answers == [] then 0 else if answers[0] < 1 then answers[0] else Refusal(answers[1..])
  }

  /** A read that falls short returns the answer that refused more, however many bytes it has taken before, if all
      that was granted has arrived; otherwise that or a zero. */
  lemma {:induction false} ShortReadReturnsRefusal(answers: seq<int>, arrived: nat, done: nat, size: nat)
    requires done < size && Fill(answers, arrived, done, size).taken < size
    ensures var result := Fill(answers, arrived, done, size).result;
      result in {0, Refusal(answers)} && (Granted(answers) <= arrived ==> result == Refusal(answers))
    decreases size - done
  {
    var r := OsResult(answers, arrived, size - done);
    if 1 <= r {
      ShortReadReturnsRefusal(Rest(answers), arrived - r, done + r, size);
    }
  }

  /** The first `n` bytes of the stream over the buffer's own. */
  function Overlay(stream: seq<Byte>, buffer: seq<Byte>, n: nat): seq<Byte>
    requires n <= |stream| && n <= |buffer|
  {
    stream[..n] + buffer[n..]
  }

  lemma IsOverlay(now: seq<Byte>, stream: seq<Byte>, buffer: seq<Byte>, n: nat)
    requires n <= |stream| && n <= |buffer| == |now|
    requires forall i | 0 <= i < |now| :: now[i] == if i < n then stream[i] else buffer[i]
    ensures now == Overlay(stream, buffer, n)
  {}

  // ---------- the two readers, as functions of the connection ----------

  /** A connection: what is still to come, and how the operating system will cut it. */
  datatype Channel = Channel(incoming: seq<Byte>, answers: seq<int>)

  /** One `read` into a field: its result, the field after it, and the connection after it. */
  datatype FieldRead = FieldRead(result: int, field: seq<Byte>, channel: Channel)

  function ReadOf(c: Channel, field: seq<Byte>): (r: FieldRead)
    ensures |r.field| == |field|
  {
    var o := Fill(c.answers, |c.incoming|, 0, |field|);
    FieldRead(o.result, Overlay(c.incoming, field, o.taken), Channel(c.incoming[o.taken..], o.answers))
  }

  /** The leading fields of the recording message. */
  datatype RecordingMessage = RecordingMessage(
    timestamp: seq<Byte>, visualizationId: seq<Byte>, status: seq<Byte>,
    poseX: seq<Byte>, poseY: seq<Byte>, poseYaw: seq<Byte>)

  predicate WellSized(m: RecordingMessage) {
    && |m.timestamp| == |m.visualizationId| == |m.poseX| == |m.poseY| == |m.poseYaw| == 8
    && |m.status| == 4
  }

  const MESSAGE_SIZE: nat := 44

  /** The packed layout of these fields. */
  function Decode(bytes: seq<Byte>): RecordingMessage
    requires |bytes| == MESSAGE_SIZE
  {
    RecordingMessage(bytes[..8], bytes[8..16], bytes[16..20], bytes[20..28], bytes[28..36], bytes[36..])
  }

  datatype RoundEnd = RoundEnd(channel: Channel, message: RecordingMessage, done: bool)

  /** One round: six reads. Only a zero among the last three starts another round. */
  function Round(c: Channel, m: RecordingMessage): RoundEnd {
    var t := ReadOf(c, m.timestamp);
    var v := ReadOf(t.channel, m.visualizationId);
    var s := ReadOf(v.channel, m.status);
    var x := ReadOf(s.channel, m.poseX);
    var m := m.(timestamp := t.field, visualizationId := v.field, status := s.field, poseX := x.field);
    if x.result == 0 then RoundEnd(x.channel, m, false)
    else
      var y := ReadOf(x.channel, m.poseY);
      var m := m.(poseY := y.field);
      if y.result == 0 then RoundEnd(y.channel, m, false)
      else
        var a := ReadOf(y.channel, m.poseYaw);
        RoundEnd(a.channel, m.(poseYaw := a.field), a.result != 0)
  }

  /** At most `n` rounds. */
  function Rounds(c: Channel, m: RecordingMessage, n: nat): RoundEnd
    decreases n
  {
    if n == 0 then RoundEnd(c, m, false)
    else
      var p := Round(c, m);
      if p.done then p else Rounds(p.channel, p.message, n - 1)
  }

  const POSE_MESSAGE_SIZE: nat := 172

  /** The localization reader: at most `n` reads of a whole message, until one is received or fails. */
  datatype PoseRead = Received(bytes: seq<Byte>) | Broken | Pending

  function PoseReads(c: Channel, buffer: seq<Byte>, n: nat): PoseRead
    decreases n
  {
    if n == 0 then Pending
    else
      var r := ReadOf(c, buffer);
      if 0 < r.result then Received(r.field)
      else if r.result < 0 then Broken
      else PoseReads(r.channel, r.field, n - 1)
  }

  // ---------- however the stream is cut ----------

  /** Every call makes progress, and enough arrives. */
  predicate EveryAnswerHelps(answers: seq<int>, arrived: nat, size: nat) {
    size <= arrived && size <= |answers| && forall a | a in answers :: 1 <= a
  }

  lemma FieldArrives(c: Channel, field: seq<Byte>)
    requires EveryAnswerHelps(c.answers, |c.incoming|, |field|)
    ensures var r, size := ReadOf(c, field), |field|;
      && r.result == size && r.field == c.incoming[..size] && r.channel.incoming == c.incoming[size..]
      && EveryAnswerHelps(r.channel.answers, |r.channel.incoming|, 0)
      && |c.answers| - size <= |r.channel.answers|
  {
    PositiveAnswersGrant(c.answers);
    FillTakes(c.answers, |c.incoming|, 0, |field|);
    FillUsesAnswers(c.answers, |c.incoming|, 0, |field|);
  }

  /** `at` bytes of a message have been read, and the rest will arrive. */
  predicate OnTheWay(stream: seq<Byte>, at: nat, c: Channel) {
    && at <= MESSAGE_SIZE <= |stream| && c.incoming == stream[at..]
    && EveryAnswerHelps(c.answers, |c.incoming|, MESSAGE_SIZE - at)
  }

  lemma FieldArrivesAt(stream: seq<Byte>, at: nat, c: Channel, field: seq<Byte>)
    requires OnTheWay(stream, at, c) && at + |field| <= MESSAGE_SIZE
    ensures var r, end := ReadOf(c, field), at + |field|;
      r.result == |field| && r.field == stream[at..end] && OnTheWay(stream, end, r.channel)
  {
    FieldArrives(c, field);
    SliceBehind(stream, at, |field|);
  }

  lemma SliceBehind(stream: seq<Byte>, at: nat, size: nat)
    requires at + size <= |stream|
    ensures stream[at..][..size] == stream[at..at + size] && stream[at..][size..] == stream[at + size..]
  {}

  /** A round in which no read of a pose field returns zero. */
  lemma CompleteRound(
    c: Channel, m: RecordingMessage,
    t: FieldRead, v: FieldRead, s: FieldRead, x: FieldRead, y: FieldRead, a: FieldRead)
    requires t == ReadOf(c, m.timestamp) && v == ReadOf(t.channel, m.visualizationId)
    requires s == ReadOf(v.channel, m.status) && x == ReadOf(s.channel, m.poseX)
    requires y == ReadOf(x.channel, m.poseY) && a == ReadOf(y.channel, m.poseYaw)
    requires x.result != 0 && y.result != 0 && a.result != 0
    ensures Round(c, m)
         == RoundEnd(a.channel, RecordingMessage(t.field, v.field, s.field, x.field, y.field, a.field), true)
  {}

  /** Six chained reads decode the next 44 bytes, and leave the stream behind them. */
  lemma RoundDecodes(c: Channel, m: RecordingMessage)
    requires WellSized(m) && EveryAnswerHelps(c.answers, |c.incoming|, MESSAGE_SIZE)
    ensures var p := Round(c, m);
      && p.done && p.message == Decode(c.incoming[..MESSAGE_SIZE])
      && p.channel.incoming == c.incoming[MESSAGE_SIZE..]
      && HasNextPose(p, c.incoming)
  {
    var stream := c.incoming;
    FieldArrivesAt(stream, 0, c, m.timestamp);
    var t := ReadOf(c, m.timestamp);
    FieldArrivesAt(stream, 8, t.channel, m.visualizationId);
    var v := ReadOf(t.channel, m.visualizationId);
    FieldArrivesAt(stream, 16, v.channel, m.status);
    var s := ReadOf(v.channel, m.status);
    FieldArrivesAt(stream, 20, s.channel, m.poseX);
    var x := ReadOf(s.channel, m.poseX);
    FieldArrivesAt(stream, 28, x.channel, m.poseY);
    var y := ReadOf(x.channel, m.poseY);
    FieldArrivesAt(stream, 36, y.channel, m.poseYaw);
    CompleteRound(c, m, t, v, s, x, y, ReadOf(y.channel, m.poseYaw));
    DecodeOf(stream);
  }

  lemma DecodeOf(stream: seq<Byte>)
    requires MESSAGE_SIZE <= |stream|
    ensures Decode(stream[..MESSAGE_SIZE])
         == RecordingMessage(stream[0..8], stream[8..16], stream[16..20],
                             stream[20..28], stream[28..36], stream[36..44])
  {}

  lemma NothingArrives(c: Channel, field: seq<Byte>)
    requires field != [] && c.answers == []
    ensures ReadOf(c, field) == FieldRead(0, field, c)
  {
    assert c.incoming[0..] == c.incoming && Overlay(c.incoming, field, 0) == field;
  }

  /** A round that the first pose field ends with a zero. */
  lemma IncompleteRound(c: Channel, m: RecordingMessage, t: FieldRead, v: FieldRead, s: FieldRead, x: FieldRead)
    requires t == ReadOf(c, m.timestamp) && v == ReadOf(t.channel, m.visualizationId)
    requires s == ReadOf(v.channel, m.status) && x == ReadOf(s.channel, m.poseX)
    requires x.result == 0
    ensures Round(c, m)
         == RoundEnd(x.channel, RecordingMessage(t.field, v.field, s.field, x.field, m.poseY, m.poseYaw), false)
  {}

  lemma EndedRound(c: Channel, m: RecordingMessage)
    requires WellSized(m) && c.answers == []
    ensures Round(c, m) == RoundEnd(c, m, false)
  {
    NothingArrives(c, m.timestamp);
    NothingArrives(c, m.visualizationId);
    NothingArrives(c, m.status);
    NothingArrives(c, m.poseX);
    IncompleteRound(c, m, ReadOf(c, m.timestamp), ReadOf(c, m.visualizationId),
                    ReadOf(c, m.status), ReadOf(c, m.poseX));
  }

  /** Once the stream has ended for good, no number of rounds completes a message: the reader waits for ever. */
  lemma {:induction false} EndOfStreamNeverCompletes(c: Channel, m: RecordingMessage, n: nat)
    requires WellSized(m) && c.answers == []
    ensures Rounds(c, m, n) == RoundEnd(c, m, false)
    decreases n
  {
    if n == 0 {
    } else {
      EndedRound(c, m);
      EndOfStreamNeverCompletes(c, m, n - 1);
    }
  }

  lemma ZeroRound(c: Channel, m: RecordingMessage)
    requires WellSized(m) && 4 <= |c.answers| && forall i | 0 <= i < 4 :: c.answers[i] == 0
    ensures Round(c, m) == RoundEnd(Dropped(c, 4), m, false)
  {
    FieldFails(c, 0, m.timestamp);
    FieldFails(c, 1, m.visualizationId);
    FieldFails(c, 2, m.status);
    FieldFails(c, 3, m.poseX);
    assert Dropped(c, 0) == c;
    IncompleteRound(c, m, ReadOf(c, m.timestamp), ReadOf(Dropped(c, 1), m.visualizationId),
                    ReadOf(Dropped(c, 2), m.status), ReadOf(Dropped(c, 3), m.poseX));
  }

  /** The round has taken the next message, and has its pose. */
  predicate HasNextPose(p: RoundEnd, stream: seq<Byte>) {
    && p.done && 44 <= |stream| && p.channel.incoming == stream[44..]
    && p.message.poseX == stream[20..28] && p.message.poseY == stream[28..36] && p.message.poseYaw == stream[36..44]
  }

  /** A round that ends in a zero without a byte is made again: it is as if it had not been. */
  lemma StalledRoundIsRetried(c: Channel, m: RecordingMessage, n: nat)
    requires WellSized(m) && 0 < n && 4 <= |c.answers| && forall i | 0 <= i < 4 :: c.answers[i] == 0
    ensures Rounds(c, m, n) == Rounds(Dropped(c, 4), m, n - 1)
  {
    ZeroRound(c, m);
  }

  /** A broken connection, on the other hand, completes the round at once with the fields as they were: the
      trigger goes on with whatever pose these hold. */
  lemma ErrorsCompleteTheRound(c: Channel, m: RecordingMessage)
    requires WellSized(m) && 6 <= |c.answers| && forall i | 0 <= i < 6 :: c.answers[i] < 0
    ensures Round(c, m) == RoundEnd(Dropped(c, 6), m, true)
  {
    FieldFails(c, 0, m.timestamp);
    FieldFails(c, 1, m.visualizationId);
    FieldFails(c, 2, m.status);
    FieldFails(c, 3, m.poseX);
    FieldFails(c, 4, m.poseY);
    FieldFails(c, 5, m.poseYaw);
    assert Dropped(c, 0) == c;
    CompleteRound(c, m, ReadOf(c, m.timestamp), ReadOf(Dropped(c, 1), m.visualizationId),
                  ReadOf(Dropped(c, 2), m.status), ReadOf(Dropped(c, 3), m.poseX),
                  ReadOf(Dropped(c, 4), m.poseY), ReadOf(Dropped(c, 5), m.poseYaw));
  }

  /** The connection after `k` answers without a byte. */
  function Dropped(c: Channel, k: nat): Channel
    requires k <= |c.answers|
  {
    Channel(c.incoming, c.answers[k..])
  }

  lemma FieldFails(c: Channel, k: nat, field: seq<Byte>)
    requires field != [] && k < |c.answers| && c.answers[k] < 1
    ensures ReadOf(Dropped(c, k), field) == FieldRead(c.answers[k], field, Dropped(c, k + 1))
  {
    assert c.answers[k..][1..] == c.answers[k + 1..];
    assert c.incoming[0..] == c.incoming && Overlay(c.incoming, field, 0) == field;
  }

  // ---------- exactly when a round is right ----------

  /** How many bytes a read of `size` takes. */
  function Taken(c: Channel, size: nat): nat {
    Min(size, Min(|c.incoming|, Granted(c.answers)))
  }

  lemma FieldTakes(c: Channel, field: seq<Byte>)
    ensures var r, taken := ReadOf(c, field), Taken(c, |field|);
      && taken <= |c.incoming| && r.channel.incoming == c.incoming[taken..]
      && r.field == Overlay(c.incoming, field, taken)
      && (0 < |field| ==> (r.result == |field| <==> taken == |field|))
      && (taken == |field| ==> r.field == c.incoming[..taken])
      && (taken < |field| ==> r.result < 1)
  {
    FillTakes(c.answers, |c.incoming|, 0, |field|);
  }

  /** Each of the six reads of a round returns the size of its field. */
  predicate EveryReadIsWhole(c: Channel, m: RecordingMessage) {
    var t := ReadOf(c, m.timestamp);
    var v := ReadOf(t.channel, m.visualizationId);
    var s := ReadOf(v.channel, m.status);
    var x := ReadOf(s.channel, m.poseX);
    var y := ReadOf(x.channel, m.poseY);
    var a := ReadOf(y.channel, m.poseYaw);
    t.result == 8 && v.result == 8 && s.result == 4 && x.result == 8 && y.result == 8 && a.result == 8
  }

  lemma FieldShrinks(c: Channel, field: seq<Byte>)
    requires field != []
    ensures var r := ReadOf(c, field);
      && |r.channel.incoming| <= |c.incoming| <= |r.channel.incoming| + |field|
      && (r.result == |field| <==> |c.incoming| == |r.channel.incoming| + |field|)
  {
    FieldTakes(c, field);
  }

  /** A round that completes although a read fell short has taken fewer bytes than a message has. */
  lemma RoundTakes(c: Channel, m: RecordingMessage)
    requires WellSized(m)
    ensures |Round(c, m).channel.incoming| + MESSAGE_SIZE >= |c.incoming|
    ensures Round(c, m).done && |Round(c, m).channel.incoming| + MESSAGE_SIZE == |c.incoming|
       <==> EveryReadIsWhole(c, m)
  {
    var t := ReadOf(c, m.timestamp);
    var v := ReadOf(t.channel, m.visualizationId);
    var s := ReadOf(v.channel, m.status);
    var x := ReadOf(s.channel, m.poseX);
    var y := ReadOf(x.channel, m.poseY);
    FieldShrinks(c, m.timestamp);
    FieldShrinks(t.channel, m.visualizationId);
    FieldShrinks(v.channel, m.status);
    FieldShrinks(s.channel, m.poseX);
    FieldShrinks(x.channel, m.poseY);
    FieldShrinks(y.channel, m.poseYaw);
    RoundCases(c, m, t, v, s, x, y, ReadOf(y.channel, m.poseYaw));
  }

  lemma RoundCases(
    c: Channel, m: RecordingMessage,
    t: FieldRead, v: FieldRead, s: FieldRead, x: FieldRead, y: FieldRead, a: FieldRead)
    requires t == ReadOf(c, m.timestamp) && v == ReadOf(t.channel, m.visualizationId)
    requires s == ReadOf(v.channel, m.status) && x == ReadOf(s.channel, m.poseX)
    requires y == ReadOf(x.channel, m.poseY) && a == ReadOf(y.channel, m.poseYaw)
    ensures Round(c, m).channel == if x.result == 0 then x.channel else if y.result == 0 then y.channel else a.channel
    ensures Round(c, m).done <==> x.result != 0 && y.result != 0 && a.result != 0
    ensures EveryReadIsWhole(c, m) <==>
      t.result == 8 && v.result == 8 && s.result == 4 && x.result == 8 && y.result == 8 && a.result == 8
  {}

  lemma WholeFieldAt(stream: seq<Byte>, at: nat, c: Channel, field: seq<Byte>)
    requires at <= |stream| && c.incoming == stream[at..] && 0 < |field|
    requires ReadOf(c, field).result == |field|
    ensures var r, end := ReadOf(c, field), at + |field|;
      end <= |stream| && r.field == stream[at..end] && r.channel.incoming == stream[end..]
  {
    FieldTakes(c, field);
  }

  lemma WholeFields(
    c: Channel, m: RecordingMessage,
    t: FieldRead, v: FieldRead, s: FieldRead, x: FieldRead, y: FieldRead, a: FieldRead)
    requires WellSized(m)
    requires t == ReadOf(c, m.timestamp) && v == ReadOf(t.channel, m.visualizationId)
    requires s == ReadOf(v.channel, m.status) && x == ReadOf(s.channel, m.poseX)
    requires y == ReadOf(x.channel, m.poseY) && a == ReadOf(y.channel, m.poseYaw)
    requires t.result == 8 && v.result == 8 && s.result == 4 && x.result == 8 && y.result == 8 && a.result == 8
    ensures var stream := c.incoming;
      && MESSAGE_SIZE <= |stream| && a.channel.incoming == stream[MESSAGE_SIZE..]
      && RecordingMessage(t.field, v.field, s.field, x.field, y.field, a.field)
         == RecordingMessage(stream[0..8], stream[8..16], stream[16..20],
                             stream[20..28], stream[28..36], stream[36..44])
  {
    var stream := c.incoming;
    WholeFieldAt(stream, 0, c, m.timestamp);
    WholeFieldAt(stream, 8, t.channel, m.visualizationId);
    WholeFieldAt(stream, 16, v.channel, m.status);
    WholeFieldAt(stream, 20, s.channel, m.poseX);
    WholeFieldAt(stream, 28, x.channel, m.poseY);
    WholeFieldAt(stream, 36, y.channel, m.poseYaw);
  }

  lemma WholeRound(c: Channel, m: RecordingMessage)
    requires WellSized(m) && EveryReadIsWhole(c, m)
    ensures MESSAGE_SIZE <= |c.incoming|
    ensures Round(c, m).done && Round(c, m).message == Decode(c.incoming[..MESSAGE_SIZE])
    ensures Round(c, m).channel.incoming == c.incoming[MESSAGE_SIZE..]
  {
    var t := ReadOf(c, m.timestamp);
    var v := ReadOf(t.channel, m.visualizationId);
    var s := ReadOf(v.channel, m.status);
    var x := ReadOf(s.channel, m.poseX);
    var y := ReadOf(x.channel, m.poseY);
    var a := ReadOf(y.channel, m.poseYaw);
    WholeFields(c, m, t, v, s, x, y, a);
    CompleteRound(c, m, t, v, s, x, y, a);
    DecodeOf(c.incoming);
  }

  /** A round completes with 44 bytes taken exactly if each of its reads was whole; and then its message is
      the next 44 bytes. A round that completes with fewer has mixed fields. */
  lemma RoundIsRightIff(c: Channel, m: RecordingMessage)
    requires WellSized(m)
    ensures var p := Round(c, m);
      && (p.done && |p.channel.incoming| + MESSAGE_SIZE == |c.incoming| <==> EveryReadIsWhole(c, m))
      && (EveryReadIsWhole(c, m) ==>
            && MESSAGE_SIZE <= |c.incoming|
            && p.message == Decode(c.incoming[..MESSAGE_SIZE])
            && p.channel.incoming == c.incoming[MESSAGE_SIZE..])
  {
    RoundTakes(c, m);
    if EveryReadIsWhole(c, m) {
      WholeRound(c, m);
    }
  }

  lemma FieldAtOnce(c: Channel, field: seq<Byte>)
    requires field != [] && |field| <= |c.incoming| && c.answers != [] && |field| <= c.answers[0]
    ensures ReadOf(c, field)
         == FieldRead(|field|, c.incoming[..|field|], Channel(c.incoming[|field|..], c.answers[1..]))
  {
    assert OsResult(c.answers, |c.incoming|, |field|) == |field|;
    assert Fill(Rest(c.answers), |c.incoming| - |field|, |field|, |field|)
        == Outcome(|field|, |field|, Rest(c.answers));
    assert Overlay(c.incoming, field, |field|) == c.incoming[..|field|];
  }

  /** A connection that breaks after the fourth field: the round completes with a new x and an old y and yaw. */
  lemma BreakMixesThePose(c: Channel, m: RecordingMessage)
    requires WellSized(m) && 28 <= |c.incoming| && c.answers == [8, 8, 4, 8, -1, -1]
    ensures var p := Round(c, m);
      p.done && p.message.poseX == c.incoming[20..28] && p.message.poseY == m.poseY && p.message.poseYaw == m.poseYaw
  {
    var c1 := Channel(c.incoming[8..], [8, 4, 8, -1, -1]);
    var c2 := Channel(c1.incoming[8..], [4, 8, -1, -1]);
    var c3 := Channel(c2.incoming[4..], [8, -1, -1]);
    var c4 := Channel(c3.incoming[8..], [-1, -1]);
    FieldAtOnce(c, m.timestamp);
    FieldAtOnce(c1, m.visualizationId);
    FieldAtOnce(c2, m.status);
    FieldAtOnce(c3, m.poseX);
    FieldFails(c4, 0, m.poseY);
    FieldFails(c4, 1, m.poseYaw);
    assert Dropped(c4, 0) == c4;
    CompleteRound(c, m, ReadOf(c, m.timestamp), ReadOf(c1, m.visualizationId), ReadOf(c2, m.status),
                  ReadOf(c3, m.poseX), ReadOf(c4, m.poseY), ReadOf(Dropped(c4, 1), m.poseYaw));
  }

  // ---------- the localization reader ----------

  /** One read of the localization reader, for every connection: a whole message is received exactly if that
      many bytes arrive and are granted; otherwise it stops at an error, and after a zero goes on behind the
      bytes taken. */
  lemma PoseReadStep(c: Channel, buffer: seq<Byte>, n: nat)
    requires |buffer| == POSE_MESSAGE_SIZE && 0 < n
    ensures var r, taken := ReadOf(c, buffer), Taken(c, POSE_MESSAGE_SIZE);
      && r.channel.incoming == c.incoming[taken..]
      && PoseReads(c, buffer, n) ==
           if taken == POSE_MESSAGE_SIZE then Received(c.incoming[..POSE_MESSAGE_SIZE])
           else if r.result < 0 then Broken
           else PoseReads(r.channel, r.field, n - 1)
  {
    FieldTakes(c, buffer);
  }

  /** The bytes taken by reads that ended in a zero, before the reader received a message or stopped. */
  function Skipped(c: Channel, buffer: seq<Byte>, n: nat): nat
    decreases n
  {
    if n == 0 then 0
    else
      var r := ReadOf(c, buffer);
      if r.result == 0 then Taken(c, |buffer|) + Skipped(r.channel, r.field, n - 1) else 0
  }

  /** If the outcome is a message, it is the one that starts `at` bytes from here. */
  predicate ReceivesAt(c: Channel, at: nat, outcome: PoseRead) {
    outcome.Received? ==>
      at + POSE_MESSAGE_SIZE <= |c.incoming| && outcome.bytes == c.incoming[at..at + POSE_MESSAGE_SIZE]
  }

  lemma ReceivesBehind(c: Channel, taken: nat, c': Channel, at: nat, outcome: PoseRead)
    requires taken <= |c.incoming| && c'.incoming == c.incoming[taken..] && ReceivesAt(c', at, outcome)
    ensures ReceivesAt(c, taken + at, outcome)
  {
    if outcome.Received? {
      assert c.incoming[taken..][at..at + POSE_MESSAGE_SIZE]
          == c.incoming[taken + at..taken + at + POSE_MESSAGE_SIZE];
    }
  }

  /** What the localization reader receives is always whole and contiguous, but it starts behind whatever the
      failed reads before have taken: the next message, exactly if they took nothing. */
  lemma {:induction false} ReceivedBehindSkipped(c: Channel, buffer: seq<Byte>, n: nat)
    requires |buffer| == POSE_MESSAGE_SIZE
    ensures ReceivesAt(c, Skipped(c, buffer, n), PoseReads(c, buffer, n))
    decreases n
  {
    if n == 0 {
    } else {
      var r, taken := ReadOf(c, buffer), Taken(c, POSE_MESSAGE_SIZE);
      FieldTakes(c, buffer);
      if r.result == 0 {
        ReceivedBehindSkipped(r.channel, r.field, n - 1);
        ReceivesBehind(c, taken, r.channel, Skipped(r.channel, r.field, n - 1), PoseReads(r.channel, r.field, n - 1));
      } else {
        PoseReadStep(c, buffer, n);
      }
    }
  }

  /** At the end of the stream the localization reader waits for ever. */
  lemma {:induction false} EndOfStreamNeverReceives(c: Channel, buffer: seq<Byte>, n: nat)
    requires buffer != [] && c.answers == []
    ensures PoseReads(c, buffer, n) == Pending
    decreases n
  {
    if n == 0 {
    } else {
      NothingArrives(c, buffer);
      EndOfStreamNeverReceives(c, buffer, n - 1);
    }
  }

  /** In particular: it receives the next message if every call makes progress, and reports a connection that is
      broken from the start. */
  lemma PoseReadOutcome(c: Channel, buffer: seq<Byte>, n: nat)
    requires |buffer| == POSE_MESSAGE_SIZE && 0 < n
    ensures EveryAnswerHelps(c.answers, |c.incoming|, POSE_MESSAGE_SIZE) ==>
      PoseReads(c, buffer, n) == Received(c.incoming[..172])
    ensures c.answers != [] && c.answers[0] < 0 ==> PoseReads(c, buffer, n) == Broken
    ensures c.answers == [] ==> PoseReads(c, buffer, n) == Pending
  {
    PoseReadStep(c, buffer, n);
    if EveryAnswerHelps(c.answers, |c.incoming|, POSE_MESSAGE_SIZE) {
      PositiveAnswersGrant(c.answers);
    } else if c.answers == [] {
      EndOfStreamNeverReceives(c, buffer, n);
    }
  }

  class BinaryInterfaceClient {
    var incoming: seq<Byte>  // what is still to come on the connection
    var answers: seq<int>    // how the operating system will cut it

    ghost function State(): Channel
      reads this
    {
      Channel(incoming, answers)
    }

    constructor (incoming: seq<Byte>, answers: seq<int>)
      ensures this.incoming == incoming && this.answers == answers
    {
      this.incoming := incoming;
      this.answers := answers;
    }

    method OsRead(target: array<Byte>, offset: nat, count: nat) returns (result: int)
      requires offset + count <= target.Length
      modifies this, target
      ensures result == OsResult(old(answers), |old(incoming)|, count)
      ensures answers == Rest(old(answers))
      ensures result < 1 ==>
        && incoming == old(incoming)
        && forall i | 0 <= i < target.Length :: target[i] == old(target[i])
      ensures 1 <= result ==>
        && incoming == old(incoming)[result..]
        && forall i | 0 <= i < target.Length ::
             target[i] == if offset <= i < offset + result then old(incoming)[i - offset] else old(target[i])
    {
      result := OsResult(answers, |incoming|, count);
      answers := Rest(answers);
      if 1 <= result {
        forall i | 0 <= i < result {
          target[offset + i] := incoming[i];
        }
        incoming := incoming[result..];
      }
    }

    /** The short-read loop. */
    method Read(target: array<Byte>, size: int) returns (result: int)
      requires size <= target.Length
      modifies this, target
      ensures var o := Fill(old(answers), |old(incoming)|, 0, size);
        && result == o.result && answers == o.answers
        && incoming == old(incoming)[o.taken..]
        && target[..] == Overlay(old(incoming), old(target[..]), o.taken)
    {
      ghost var stream, buffer := incoming, target[..];
      var bytesRead := 0;
      while bytesRead < size
        invariant 0 <= bytesRead <= |stream| && bytesRead <= target.Length
        invariant incoming == stream[bytesRead..]
        invariant forall i | 0 <= i < bytesRead :: target[i] == stream[i]
        invariant forall i | bytesRead <= i < target.Length :: target[i] == buffer[i]
        invariant Fill(answers, |incoming|, bytesRead, size) == Fill(old(answers), |stream|, 0, size)
        decreases size - bytesRead
      {
        result := OsRead(target, bytesRead, size - bytesRead);
        if result < 1 {
          IsOverlay(target[..], stream, buffer, bytesRead);
          return result;
        }
        bytesRead := bytesRead + result;
      }
      IsOverlay(target[..], stream, buffer, bytesRead);
      return bytesRead;
    }

    /** A read into a field of a message. */
    method ReadField(field: seq<Byte>) returns (result: int, field': seq<Byte>)
      modifies this
      ensures FieldRead(result, field', State()) == ReadOf(old(State()), field)
    {
      var target := new Byte[|field|](i requires 0 <= i < |field| => field[i]);
      assert target[..] == field;
      result := Read(target, |field|);
      field' := target[..];
    }

    /** The loop that reads the recorded pose, for at most `rounds` rounds. The first three results of a round
        are not looked at, and a zero among the others starts the next one. */
    method ReadRecordingMessage(blank: RecordingMessage, rounds: nat)
      returns (done: bool, message: RecordingMessage)
      modifies this
      ensures RoundEnd(State(), message, done) == Rounds(old(State()), blank, rounds)
    {
      message := blank;
      done := false;
      var i := 0;
      while i < rounds && !done
        invariant 0 <= i <= rounds
        invariant Rounds(old(State()), blank, rounds)
               == if done then RoundEnd(State(), message, true) else Rounds(State(), message, rounds - i)
      {
        ghost var c, m := State(), message;
        done, message := ReadRound(message);
        i := i + 1;
      }
    }

    /** One round. */
    method ReadRound(blank: RecordingMessage) returns (done: bool, message: RecordingMessage)
      modifies this
      ensures RoundEnd(State(), message, done) == Round(old(State()), blank)
    {
      message := blank;
      var rv, field := ReadField(message.timestamp);
      message := message.(timestamp := field);
      rv, field := ReadField(message.visualizationId);
      message := message.(visualizationId := field);
      rv, field := ReadField(message.status);
      message := message.(status := field);
      rv, field := ReadField(message.poseX);
      message := message.(poseX := field);
      if rv == 0 { return false, message; }
      rv, field := ReadField(message.poseY);
      message := message.(poseY := field);
      if rv == 0 { return false, message; }
      rv, field := ReadField(message.poseYaw);
      message := message.(poseYaw := field);
      return rv != 0, message;
    }

    /** The loop that reads the localization pose, for at most `rounds` reads. */
    method ReadPoseMessage(blank: seq<Byte>, rounds: nat) returns (outcome: PoseRead)
      modifies this
      ensures outcome == PoseReads(old(State()), blank, rounds)
    {
      var message := blank;
      var rv := 0;
      var i := 0;
      while i < rounds
        invariant 0 <= i <= rounds
        invariant PoseReads(old(State()), blank, rounds) == PoseReads(State(), message, rounds - i)
      {
        rv, message := ReadField(message);
        if 0 < rv {
          return Received(message);
        }
        if rv < 0 {
          return Broken;
        }
        i := i + 1;
      }
      return Pending;
    }
  }

  /** The six chained reads and one contiguous read of 44 bytes see the same message and leave the same
      stream, whatever two ways the system cuts it. */
  lemma ChainedReadsAreOneRead(a: Channel, b: Channel, blank: RecordingMessage, buffer: seq<Byte>)
    requires a.incoming == b.incoming
    requires EveryAnswerHelps(a.answers, |a.incoming|, MESSAGE_SIZE)
    requires EveryAnswerHelps(b.answers, |b.incoming|, MESSAGE_SIZE)
    requires WellSized(blank) && |buffer| == MESSAGE_SIZE
    ensures Round(a, blank).message == Decode(ReadOf(b, buffer).field)
    ensures Round(a, blank).channel.incoming == ReadOf(b, buffer).channel.incoming
  {
    RoundDecodes(a, blank);
    FieldArrives(b, buffer);
  }
}
