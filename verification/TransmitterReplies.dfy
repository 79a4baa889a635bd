/** What the transmitter makes of the server's reply, however it is cut. */
module TransmitterReplies {
  import opened BigEndian
  import opened Codec
  import opened Messages
  import opened Transmission
  import opened TransmitterSteps
  import opened TransmitterRuns
  import opened TransmitterTheorems
  import opened TransmitterSessions
  import opened Ledger

  // ------------------------------------------------------------ reception

  /** What the bytes of a reply say: not there yet, not an acceptable confirmation, or a status. */
  datatype Reply = Incomplete | Faulty | Status(value: int16)

  function ReplyOf(stream: seq<byte>): Reply {
    if |stream| < FRAME_HEADER then Incomplete
    else if stream[0] != PROTOCOL then Faulty
    else
      var needed := FRAME_HEADER + Get16(stream, 1);
      if |stream| < needed then Incomplete
      else
        var body := stream[FRAME_HEADER..needed];
        if Accepts(body) then Status(StatusOf(ParseConfirmation(body).es)) else Faulty
  }

  /** The reply depends on the header and the bytes it declares only. */
  lemma ReplyLooksAt(stream: seq<byte>, more: seq<byte>)
    ensures ReplyOf(stream) != Incomplete ==> ReplyOf(stream + more) == ReplyOf(stream)
    ensures |stream| >= FRAME_HEADER && |stream| >= FRAME_HEADER + Get16(stream, 1)
            ==> ReplyOf(stream) == ReplyOf(stream[..FRAME_HEADER + Get16(stream, 1)])
  {
    hide Accepts, StatusOf, ParseConfirmation;
    if |stream| >= FRAME_HEADER {
      var longer, needed := stream + more, FRAME_HEADER + Get16(stream, 1);
      assert Get16(longer, 1) == Get16(stream, 1);
      if |stream| >= needed {
        var short := stream[..needed];
        assert longer[FRAME_HEADER..needed] == stream[FRAME_HEADER..needed] == short[FRAME_HEADER..needed];
        assert Get16(short, 1) == Get16(stream, 1);
      }
    }
  }

  /** A status is reported exactly for a well-framed row of confirmation elements, and it is the first one's. */
  lemma ReplyIsConfirmation(stream: seq<byte>, v: int16)
    ensures ReplyOf(stream) == Status(v)
       <==> && |stream| >= FRAME_HEADER && stream[0] == PROTOCOL
            && |stream| >= FRAME_HEADER + Get16(stream, 1)
            && var body := stream[FRAME_HEADER..FRAME_HEADER + Get16(stream, 1)];
               ConfirmationBlocks(body) && |body| >= 28 && v == ToSigned(Get16(body, 26))
  {
    hide ParseConfirmation, CategoryOf, StatusOf, ConfirmationBlocks;
    if |stream| >= FRAME_HEADER && |stream| >= FRAME_HEADER + Get16(stream, 1) {
      ConfirmationAccepted(stream[FRAME_HEADER..FRAME_HEADER + Get16(stream, 1)]);
    }
  }

  /** What a reply does to the session. */
  ghost predicate Settles(s: State, t: State, reply: Reply) {
    match reply
    case Incomplete => t.phase == ReceivingConfirmation && t.h.log == s.h.log && t.h.confirmed == s.h.confirmed
    case Faulty => t.phase == Error && t.h.log == s.h.log && t.h.confirmed == s.h.confirmed
    case Status(v) =>
      && t.h.log == s.h.log + [Answered(s.sending, v)]
      && (v < 0 ==> t.phase == Error && t.h.confirmed == s.h.confirmed)
      && (v >= 0 ==> t.phase == NotConnected && t.h.confirmed == s.h.confirmed + [s.sending])
  }

  predicate IsReading(s: State) {
    s.phase == ReceivingHeader || s.phase == ReceivingConfirmation
  }

  /** The bytes of the reply read so far. */
  function SoFar(s: State): seq<byte> {
    if s.phase == ReceivingConfirmation then s.h.received else []
  }

  function ReadEvent(s: State, bytes: seq<byte>): Event {
    if s.phase == ReceivingHeader then HeaderRead(Received(bytes)) else ConfirmationRead(Received(bytes))
  }

  lemma ReceivingSettles(s: State, r: State)
    requires |s.h.received| >= FRAME_HEADER && s.h.received[0] == PROTOCOL
    requires s.confirmationLength == Get16(s.h.received, 1) && s.buf == Some(s.h.received[FRAME_HEADER..])
    requires s.h.log == r.h.log && s.h.confirmed == r.h.confirmed && s.sending == r.sending
    ensures Settles(r, EnterReceivingConfirmation(s), ReplyOf(s.h.received))
    ensures EnterReceivingConfirmation(s).h.received == s.h.received
    ensures EnterReceivingConfirmation(s).sending == s.sending
  {
    hide Accepts, StatusOf, ParseConfirmation;
    if |Bytes(s.buf)| >= s.confirmationLength {
      var needed := FRAME_HEADER + s.confirmationLength;
      assert Bytes(s.buf)[..s.confirmationLength] == s.h.received[FRAME_HEADER..needed];
    }
  }

  lemma BadProtocolReply(stream: seq<byte>)
    requires |stream| >= FRAME_HEADER && stream[0] != PROTOCOL
    ensures ReplyOf(stream) == Faulty
  {
  }

  lemma HeaderDecides(s: State, bytes: seq<byte>)
    requires s.phase == ReceivingHeader && !s.shutdown && Enabled(s, ReadEvent(s, bytes))
    ensures var t := Next(s, ReadEvent(s, bytes));
            Settles(s, t, ReplyOf(bytes)) && t.h.received == bytes && t.sending == s.sending
  {
    hide EnterReceivingConfirmation, ReplyOf;
    if bytes[0] == PROTOCOL {
      var c := Complete(s, OnHeader);
      ReceivingSettles(c.(buf := Some(bytes[FRAME_HEADER..]), h := c.h.(received := bytes),
                          confirmationLength := Get16(bytes, 1), prev := ReceivingHeader), s);
    } else {
      BadProtocolReply(bytes);
    }
  }

  lemma ConfirmationDecides(s: State, bytes: seq<byte>)
    requires s.phase == ReceivingConfirmation && Reading(s) && !s.shutdown && Enabled(s, ReadEvent(s, bytes))
    ensures var t := Next(s, ReadEvent(s, bytes));
            var stream := s.h.received + bytes;
            Settles(s, t, ReplyOf(stream)) && t.h.received == stream && t.sending == s.sending
  {
    hide EnterReceivingConfirmation, ReplyOf;
    var stream := s.h.received + bytes;
    assert stream[FRAME_HEADER..] == s.h.received[FRAME_HEADER..] + bytes;
    var c := Complete(s, OnConfirmation);
    ReceivingSettles(c.(buf := Some(stream[FRAME_HEADER..]), prev := ReceivingConfirmation,
                        h := c.h.(received := stream)), s);
  }

  /** In every reachable state, a read decides the session as soon as, and only when, the reply is complete. */
  lemma DecidesFrom(s: State, bytes: seq<byte>)
    requires Good(s) && !s.shutdown && IsReading(s) && Enabled(s, ReadEvent(s, bytes))
    ensures var t := Next(s, ReadEvent(s, bytes));
            Settles(s, t, ReplyOf(SoFar(s) + bytes)) && t.h.received == SoFar(s) + bytes
            && t.shutdown == s.shutdown && t.sending == s.sending
  {
    hide Backing, FewLost, Faithful, Accounted, Orderly, Settles, ReplyOf, Next, Enabled;
    CompletionKeepsShutdown(s, ReadEvent(s, bytes));
    if s.phase == ReceivingConfirmation {
      ConfirmationDecides(s, bytes);
    } else {
      assert SoFar(s) + bytes == bytes;
      HeaderDecides(s, bytes);
    }
  }

  /** A read decides the session as soon as, and only when, the reply is complete, and as the reply says. */
  lemma ReadDecides(events: seq<Event>, bytes: seq<byte>)
    requires Legal(INITIAL, events)
    ensures var s := After(INITIAL, events);
            !s.shutdown && IsReading(s) && Enabled(s, ReadEvent(s, bytes))
            ==> Settles(s, Next(s, ReadEvent(s, bytes)), ReplyOf(SoFar(s) + bytes))
  {
    hide Good, Next, Enabled, Settles, ReplyOf, IsReading, ReadEvent, SoFar;
    Reachable(events);
    var s := After(INITIAL, events);
    if !s.shutdown && IsReading(s) && Enabled(s, ReadEvent(s, bytes)) {
      DecidesFrom(s, bytes);
    }
  }

  // A reply that arrives in pieces. The pieces after the one that decides stay unread.

  ghost predicate Readable(s: State, chunks: seq<seq<byte>>) {
    && (forall i :: 0 <= i < |chunks| ==> |chunks[i]| > 0)
    && (s.phase == ReceivingHeader ==> chunks != [] && |chunks[0]| >= FRAME_HEADER)
  }

  lemma ReadEnabled(s: State, chunks: seq<seq<byte>>)
    requires Good(s) && !s.shutdown && IsReading(s) && Readable(s, chunks) && chunks != []
    requires OnHeader in s.pending || OnConfirmation in s.pending
    ensures Enabled(s, ReadEvent(s, chunks[0]))
  {
    hide Backing, FewLost, Faithful, Accounted, Orderly;
  }

  function ReceiveAll(s: State, chunks: seq<seq<byte>>): State
    decreases |chunks|
  {
    if chunks == [] || !IsReading(s) || !Enabled(s, ReadEvent(s, chunks[0])) then s
    else ReceiveAll(Next(s, ReadEvent(s, chunks[0])), chunks[1..])
  }

  lemma AfterRead(s: State, bytes: seq<byte>)
    requires Good(s) && !s.shutdown && IsReading(s) && Enabled(s, ReadEvent(s, bytes))
    ensures var t := Next(s, ReadEvent(s, bytes));
            Good(t) && !t.shutdown && (t.phase == ReceivingConfirmation ==> OnConfirmation in t.pending)
  {
    hide Backing, FewLost, Faithful, Accounted, Orderly, Frame, Stored, Answers, Reading;
    CompletionEffect(s, ReadEvent(s, bytes));
    GoodKept(s, ReadEvent(s, bytes));
  }

  lemma UndecidedSoFar(s: State)
    requires Good(s) && s.phase == ReceivingConfirmation
    ensures ReplyOf(SoFar(s)) == Incomplete
  {
    hide Backing, FewLost, Faithful, Accounted, Orderly;
  }

  lemma {:induction false} ReceivesFrom(s: State, chunks: seq<seq<byte>>)
    requires Good(s) && !s.shutdown && IsReading(s) && Readable(s, chunks)
    requires OnHeader in s.pending || OnConfirmation in s.pending
    ensures Settles(s, ReceiveAll(s, chunks), ReplyOf(SoFar(s) + Concat(chunks)))
    decreases |chunks|
  {
    hide Good, Next, Enabled, ReplyOf;
    if chunks == [] {
      assert SoFar(s) + Concat(chunks) == SoFar(s);
      UndecidedSoFar(s);
    } else {
      ReadEnabled(s, chunks);
      DecidesFrom(s, chunks[0]);
      AfterRead(s, chunks[0]);
      var t := Next(s, ReadEvent(s, chunks[0]));
      var stream := SoFar(s) + chunks[0];
      assert stream + Concat(chunks[1..]) == SoFar(s) + Concat(chunks);
      ReplyLooksAt(stream, Concat(chunks[1..]));
      if ReplyOf(stream) == Incomplete {
        assert forall i :: 0 <= i < |chunks| - 1 ==> chunks[1..][i] == chunks[i + 1];
        ReceivesFrom(t, chunks[1..]);
      } else {
        assert !IsReading(t);
      }
    }
  }

  /** The reply to a message may be cut anywhere after its header: the outcome of the session is the one its
      bytes spell out, and a decision is taken with the first piece that completes them. */
  lemma ReceptionIsChunkIndependent(events: seq<Event>, chunks: seq<seq<byte>>)
    requires Legal(INITIAL, events)
    ensures var s := After(INITIAL, events);
            IsReading(s) && StopsIn(events) == 0 && Readable(s, chunks)
            ==> Settles(s, ReceiveAll(s, chunks), ReplyOf(SoFar(s) + Concat(chunks)))
  {
    hide Legal, After, Reading, Backing, FewLost, Faithful, Accounted, Orderly, Settles, ReplyOf, SoFar, Readable;
    var s := After(INITIAL, events);
    if IsReading(s) && StopsIn(events) == 0 && Readable(s, chunks) {
      Ended(events);
      PhasesWithoutStop(events);
      ReceivesFrom(s, chunks);
    }
  }
}
