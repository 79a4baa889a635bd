/** The session object: `onRead` as it changes its buffer and tells the subscribers. */
module SessionObject {
  import opened BigEndian
  import opened Elements
  import opened Codec
  import opened Messages
  import opened MessageObjects
  import opened IncomingSession

  /** The result of an asynchronous read. */
  datatype Completion = ReadError | ReadBytes(bytes: seq<byte>)

  function Complete(r: Reader, c: Completion): Reader {
    match c
    case ReadError => if r.verdict.Some? then r else r.(verdict := Some(ReadFailed))
    case ReadBytes(bytes) => Feed(r, bytes)
  }

  /** What the receiver's signals carry. */
  datatype Notice = OnMessage(es: seq<Element>) | OnError(cause: Verdict) | OnTrailing(count: nat)

  /** What a session tells its receiver when it ends in `r`. */
  function Told(r: Reader): seq<Notice> {
    if r.verdict.None? then []
    else if r.verdict.value.Delivered? then
      [OnMessage(r.verdict.value.es)] + (if r.inBuf == [] then [] else [OnTrailing(|r.inBuf|)])
    else [OnError(r.verdict.value)]
  }

  /** Everything a session tells its receiver while it reads `chunks` from `r` on. */
  function ToldAll(r: Reader, chunks: seq<seq<byte>>): seq<Notice>
    decreases |chunks|
  {
    if chunks == [] || r.verdict.Some? then []
    else Told(Feed(r, chunks[0])) + ToldAll(Feed(r, chunks[0]), chunks[1..])
  }

  lemma NothingMore(r: Reader, chunks: seq<seq<byte>>)
    requires r.verdict.Some?
    ensures FeedAll(r, chunks) == r
    decreases |chunks|
  {
    if chunks != [] {
      NothingMore(r, chunks[1..]);
    }
  }

  lemma {:induction false} ToldOnce(r: Reader, chunks: seq<seq<byte>>)
    requires r.verdict.None?
    ensures ToldAll(r, chunks) == Told(FeedAll(r, chunks))
    decreases |chunks|
  {
    hide Feed, Judge;
    if chunks != [] {
      var t := Feed(r, chunks[0]);
      if t.verdict.None? {
        ToldOnce(t, chunks[1..]);
      } else {
        assert FeedAll(t, chunks[1..]) == t by { NothingMore(t, chunks[1..]); }
      }
    }
  }

  lemma SameLength(before: seq<byte>, last: seq<byte>)
    requires |before| >= 3
    ensures Get16(before + last, 1) == Get16(before, 1)
  {
  }

  lemma TrailingAfterRead(r: Reader, before: seq<byte>, last: seq<byte>)
    requires r.verdict.None? && Waiting(r, before) && !StartsEmpty(before + last)
    ensures var t, stream := Feed(r, last), before + last;
            t.verdict.Some? ==>
              && |stream| >= 3
              && (t.verdict.value.Delivered? ==>
                    |stream| >= 3 + Get16(stream, 1) && t.inBuf == stream[3 + Get16(stream, 1)..])
              && (!t.verdict.value.Delivered? ==> t.inBuf == stream[3..])
  {
    hide Judge, Get16;
    var stream := before + last;
    if r.messageLength != 0 {
      assert Get16(stream, 1) == Get16(before, 1) by { SameLength(before, last); }
      assert r.inBuf + last == stream[3..];
    }
  }

  lemma NotEmptyBefore(before: seq<byte>, last: seq<byte>)
    requires !StartsEmpty(before + last)
    ensures !StartsEmpty(before)
  {
    if |before| >= 3 {
      SameLength(before, last);
    }
  }

  /** The number in the notice about trailing bytes: everything read up to and with the piece that completes the
      message, less the header and the bytes it declares; a bad message stays in the buffer. */
  lemma TrailingBytes(front: seq<seq<byte>>, last: seq<byte>)
    requires FeedAll(FRESH, front).verdict.None? && !StartsEmpty(Concat(front) + last)
    ensures var t, stream := Feed(FeedAll(FRESH, front), last), Concat(front) + last;
            t.verdict.Some? ==>
              && |stream| >= 3
              && (t.verdict.value.Delivered? ==>
                    |stream| >= 3 + Get16(stream, 1) && t.inBuf == stream[3 + Get16(stream, 1)..])
              && (!t.verdict.value.Delivered? ==> t.inBuf == stream[3..])
  {
    hide Feed, FeedAll, Judge, StartsEmpty, Get16;
    var before := Concat(front);
    assert [] + before == before;
    NotEmptyBefore(before, last);
    FeedAllKeeps(FRESH, front, []);
    TrailingAfterRead(FeedAll(FRESH, front), before, last);
  }

  /** What the receiver hears of a stream, however it is cut, once the whole of it was read: nothing as long as there
      is no verdict, one error for a bad message, and a message once, followed by a notice if bytes came with its
      end that do not belong to it. */
  lemma ReceiverHears(chunks: seq<seq<byte>>)
    requires !StartsEmpty(Concat(chunks))
    ensures var stream, told := Concat(chunks), ToldAll(FRESH, chunks);
            match Decode(stream)
            case None => told == []
            case Some(Delivered(es)) =>
              var rest := FeedAll(FRESH, chunks).inBuf;
              told == [OnMessage(es)] + if rest == [] then [] else [OnTrailing(|rest|)]
            case Some(v) => told == [OnError(v)]
  {
    hide FeedAll, Decode, Judge, Leftover;
    ToldOnce(FRESH, chunks);
    ReassemblyRefinesDecode(chunks);
  }

  /** A message sent in a frame, cut anywhere, reaches the receiver as itself, once, and nothing else does. */
  lemma MessageHeard(es: seq<Element>, chunks: seq<seq<byte>>)
    requires Sendable(es) && Concat(chunks) == Frame(es)
    ensures ToldAll(FRESH, chunks) == [OnMessage(es)]
  {
    hide FeedAll, Frame, Sendable;
    ToldOnce(FRESH, chunks);
    EndToEnd(es, chunks);
  }

  /** The category test and the parse of a complete body. */
  method Examine(body: seq<byte>) returns (v: Verdict)
    ensures v == Judge(body)
  {
    hide CategoryOf, ParseMo;
    var category := MessageCategory(body);
    if category != MoMessage {
      return WrongCategory(category);
    }
    var message := new Message();
    var outcome := message.ParseMoMessage(body);
    match outcome
    case Accepted => return Delivered(message.Contents());
    case Thrown(error) => return ParseError(error);
    case NotDetermined => return LeftOpen;
  }

  class IncomingSbdSession {
    var inBuf: seq<byte>
    var messageLength: word16
    var reading: bool
    var notices: seq<Notice>
    ghost var verdict: Option<Verdict>

    ghost predicate Valid()
      reads this
    {
      reading <==> verdict.None?
    }

    ghost function State(): Reader
      reads this
    {
      Reader(inBuf, messageLength, verdict)
    }

    /** A session starts by asking for its first bytes. */
    constructor ()
      ensures Valid() && State() == FRESH && notices == []
    {
      inBuf := [];
      messageLength := 0;
      reading := true;
      notices := [];
      verdict := None;
    }

    /** The end of the session: no further read is started. */
    method Finish(v: Verdict, alive: bool)
      requires Valid() && reading && !v.Delivered?
      modifies this
      ensures Valid() && State() == old(State()).(verdict := Some(v))
      ensures notices == old(notices) + if alive then [OnError(v)] else []
    {
      reading := false;
      verdict := Some(v);
      if alive {
        notices := notices + [OnError(v)];
      }
    }

    /** The read callback. `alive` tells whether the receiver still exists. */
    method OnRead(c: Completion, alive: bool)
      requires Valid() && reading
      modifies this
      ensures Valid() && State() == Complete(old(State()), c)
      ensures notices == old(notices) + if alive then Told(State()) else []
      ensures c.ReadError? ==> State() == old(State()).(verdict := Some(ReadFailed)) && !reading
      ensures !alive ==> notices == old(notices)
      ensures alive ==>
                match verdict
                case None => notices == old(notices) && reading
                case Some(Delivered(es)) =>
                  && notices[..|old(notices)|] == old(notices)
                  && notices[|old(notices)|..] == [OnMessage(es)] + if inBuf == [] then [] else [OnTrailing(|inBuf|)]
                case Some(v) => notices == old(notices) + [OnError(v)] && !reading
    {
      hide Judge;
      if c.ReadError? {
        Finish(ReadFailed, alive);
        return;
      }
      inBuf := inBuf + c.bytes;
      if |inBuf| >= FRAME_HEADER && messageLength == 0 {
        var proto, length := inBuf[0], Get16(inBuf, 1);
        inBuf := inBuf[FRAME_HEADER..];
        if proto != PROTOCOL {
          Finish(BadProtocol(proto), alive);
          return;
        }
        messageLength := length;
      }
      if messageLength == 0 || |inBuf| < messageLength {
        return;
      }
      var v := Examine(inBuf[..messageLength]);
      if !v.Delivered? {
        Finish(v, alive);
        return;
      }
      inBuf := inBuf[messageLength..];
      reading := false;
      verdict := Some(v);
      if alive {
        notices := notices + [OnMessage(v.es)];
        if |inBuf| > 0 {
          notices := notices + [OnTrailing(|inBuf|)];
        }
      }
    }
  }
}
