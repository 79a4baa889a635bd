/** Reception of one mobile-originated message over a TCP session: the incremental reader, the one-shot decoder
    it is measured against, and the proof that the cuts TCP makes do not matter. */
module IncomingSession {
  import opened BigEndian
  import opened Elements
  import opened Codec
  import opened Messages

  /** How a session ends. `LeftOpen` stands for a body on which `parse` is `Undetermined`. */
  datatype Verdict =
    | ReadFailed
    | BadProtocol(proto: byte)
    | WrongCategory(category: Category)
    | ParseError(error: ParseError)
    | LeftOpen
    | Delivered(es: seq<Element>)

  /** The state between two completions: a session without a verdict has a read outstanding. */
  datatype Reader = Reader(inBuf: seq<byte>, messageLength: word16, verdict: Option<Verdict>)

  const FRESH := Reader([], 0, None)

  function Judge(body: seq<byte>): Verdict {
    if CategoryOf(body) != MoMessage then WrongCategory(CategoryOf(body))
    else
      match ParseMo(body)
      case Failed(error) => ParseError(error)
      case Undetermined => LeftOpen
      case Parsed(es) => Delivered(es)
  }

  // ------------------------------------------------------- incremental reader

  /** The reader has `buf` unread bytes and has taken a header that declares `length`, unless that is 0. */
  function Settle(buf: seq<byte>, length: word16): Reader {
    if length == 0 || |buf| < length then Reader(buf, length, None)
    else
      var v := Judge(buf[..length]);
      Reader(if v.Delivered? then buf[length..] else buf, length, Some(v))
  }

  /** One successful read. */
  function Feed(r: Reader, bytes: seq<byte>): Reader {
    if r.verdict.Some? then r
    else
      var buf := r.inBuf + bytes;
      if |buf| < FRAME_HEADER || r.messageLength != 0 then Settle(buf, r.messageLength)
      else if buf[0] != PROTOCOL then Reader(buf[FRAME_HEADER..], 0, Some(BadProtocol(buf[0])))
      else Settle(buf[FRAME_HEADER..], Get16(buf, 1))
  }

  function FeedAll(r: Reader, chunks: seq<seq<byte>>): Reader
    decreases |chunks|
  {
    if chunks == [] then r else FeedAll(Feed(r, chunks[0]), chunks[1..])
  }

  // --------------------------------------------------------- one-shot decoder

  function DecodeBody(rest: seq<byte>, length: word16): Option<Verdict> {
    if |rest| < length then None else Some(Judge(rest[..length]))
  }

  /** What the bytes of a whole stream say. A header that declares no bytes is passed over. */
  function Decode(stream: seq<byte>): Option<Verdict> {
    if |stream| < FRAME_HEADER then None
    else if stream[0] != PROTOCOL then Some(BadProtocol(stream[0]))
    else if Get16(stream, 1) == 0 then Decode(stream[FRAME_HEADER..])
    else DecodeBody(stream[FRAME_HEADER..], Get16(stream, 1))
  }

  /** A stream that starts with a header declaring no bytes. */
  predicate StartsEmpty(stream: seq<byte>) {
    |stream| >= FRAME_HEADER && stream[0] == PROTOCOL && Get16(stream, 1) == 0
  }

  // ------------------------------------------------------------- refinement

  /** What the reader will have to say once it has also read `more`. */
  function Ahead(r: Reader, more: seq<byte>): Option<Verdict> {
    if r.verdict.Some? then r.verdict
    else if r.messageLength == 0 then Decode(r.inBuf + more)
    else DecodeBody(r.inBuf + more, r.messageLength)
  }

  lemma SettleAhead(buf: seq<byte>, length: word16, more: seq<byte>)
    ensures Ahead(Settle(buf, length), more)
         == if length == 0 then Decode(buf + more) else DecodeBody(buf + more, length)
  {
    hide Decode, Judge;
    if length != 0 && |buf| >= length {
      assert (buf + more)[..length] == buf[..length];
    }
  }

  lemma FeedAhead(r: Reader, bytes: seq<byte>, more: seq<byte>)
    ensures Ahead(Feed(r, bytes), more) == Ahead(r, bytes + more)
  {
    hide Judge;
    if r.verdict.None? {
      var buf := r.inBuf + bytes;
      assert r.inBuf + (bytes + more) == buf + more;
      if |buf| < FRAME_HEADER || r.messageLength != 0 {
        SettleAhead(buf, r.messageLength, more);
      } else if buf[0] == PROTOCOL {
        assert (buf + more)[FRAME_HEADER..] == buf[FRAME_HEADER..] + more;
        SettleAhead(buf[FRAME_HEADER..], Get16(buf, 1), more);
      }
    }
  }

  lemma {:induction false} FeedAllAhead(r: Reader, chunks: seq<seq<byte>>)
    ensures Ahead(FeedAll(r, chunks), []) == Ahead(r, Concat(chunks))
    decreases |chunks|
  {
    hide Ahead, Feed;
    if chunks != [] {
      FeedAllAhead(Feed(r, chunks[0]), chunks[1..]);
      FeedAhead(r, chunks[0], Concat(chunks[1..]));
    }
  }

  /** For every stream and every cut: a verdict the reader gives is the one-shot decoder's. */
  lemma VerdictIsDecoded(chunks: seq<seq<byte>>)
    ensures FeedAll(FRESH, chunks).verdict.Some? ==> FeedAll(FRESH, chunks).verdict == Decode(Concat(chunks))
  {
    hide Feed, Judge;
    FeedAllAhead(FRESH, chunks);
    assert [] + Concat(chunks) == Concat(chunks);
  }

  /** A waiting reader holds the whole stream so far, or what follows its header and is still too short. */
  ghost predicate Waiting(r: Reader, stream: seq<byte>) {
    r.verdict.None? ==>
      if r.messageLength == 0 then r.inBuf == stream && |stream| < FRAME_HEADER
      else && |stream| >= FRAME_HEADER && stream[0] == PROTOCOL && r.inBuf == stream[FRAME_HEADER..]
           && r.messageLength == Get16(stream, 1) && |r.inBuf| < r.messageLength
  }

  /** A reader that has delivered a message keeps only bytes after the message. */
  ghost predicate Leftover(r: Reader, stream: seq<byte>) {
    r.verdict.Some? && r.verdict.value.Delivered? ==>
      |stream| >= FRAME_HEADER + |r.inBuf| + r.messageLength && r.messageLength == Get16(stream, 1)
  }

  lemma FeedKeeps(r: Reader, bytes: seq<byte>, stream: seq<byte>)
    requires Waiting(r, stream) && Leftover(r, stream) && !StartsEmpty(stream + bytes)
    ensures Waiting(Feed(r, bytes), stream + bytes) && Leftover(Feed(r, bytes), stream + bytes)
  {
    hide Judge;
    var next := stream + bytes;
    if r.verdict.None? {
      if r.messageLength != 0 {
        assert next[FRAME_HEADER..] == r.inBuf + bytes;
      }
    } else if |stream| >= FRAME_HEADER {
      assert Get16(next, 1) == Get16(stream, 1);
    }
  }

  lemma {:induction false} FeedAllKeeps(r: Reader, chunks: seq<seq<byte>>, stream: seq<byte>)
    requires Waiting(r, stream) && Leftover(r, stream) && !StartsEmpty(stream + Concat(chunks))
    ensures Waiting(FeedAll(r, chunks), stream + Concat(chunks))
    ensures Leftover(FeedAll(r, chunks), stream + Concat(chunks))
    decreases |chunks|
  {
    hide Feed, Waiting, Leftover;
    if chunks == [] {
      assert stream + Concat(chunks) == stream;
    } else {
      var next := stream + chunks[0];
      assert next + Concat(chunks[1..]) == stream + Concat(chunks);
      assert !StartsEmpty(next) by {
        if |next| >= FRAME_HEADER {
          assert (stream + Concat(chunks))[..FRAME_HEADER] == next[..FRAME_HEADER];
          assert next[0] == next[..FRAME_HEADER][0] && next[1] == next[..FRAME_HEADER][1];
        }
      }
      FeedKeeps(r, chunks[0], stream);
      FeedAllKeeps(Feed(r, chunks[0]), chunks[1..], next);
    }
  }

  /** However the stream is cut, the reader says at each moment exactly what the one-shot decoder says of the
      bytes read so far: nothing before the declared length is there, then its verdict, which stays. */
  lemma ReassemblyRefinesDecode(chunks: seq<seq<byte>>)
    requires !StartsEmpty(Concat(chunks))
    ensures FeedAll(FRESH, chunks).verdict == Decode(Concat(chunks))
    ensures Leftover(FeedAll(FRESH, chunks), Concat(chunks))
  {
    hide Judge, FeedAll;
    VerdictIsDecoded(chunks);
    FeedAllKeeps(FRESH, chunks, []);
    assert [] + Concat(chunks) == Concat(chunks);
  }

  /** The decoder looks at no more than the header and the bytes it declares. */
  lemma DecodeLooksAt(stream: seq<byte>)
    requires |stream| >= FRAME_HEADER && !StartsEmpty(stream)
    ensures var needed := FRAME_HEADER + Get16(stream, 1);
            if stream[0] != PROTOCOL then Decode(stream) == Some(BadProtocol(stream[0]))
            else if |stream| < needed then Decode(stream) == None
            else Decode(stream) == Some(Judge(stream[FRAME_HEADER..needed]))
                 && Decode(stream) == Decode(stream[..needed])
  {
    hide Judge;
    var needed := FRAME_HEADER + Get16(stream, 1);
    if stream[0] == PROTOCOL && |stream| >= needed {
      var short, rest := stream[..needed], stream[FRAME_HEADER..];
      assert rest[..Get16(stream, 1)] == stream[FRAME_HEADER..needed];
      assert short[FRAME_HEADER..] == stream[FRAME_HEADER..needed] == short[FRAME_HEADER..][..Get16(stream, 1)];
      assert Get16(short, 1) == Get16(stream, 1);
    }
  }

  /** So many headers that declare no bytes. */
  function EmptyHeaders(k: nat): (r: seq<byte>)
    ensures |r| == FRAME_HEADER * k
  {
    if k == 0 then [] else [PROTOCOL, 0, 0] + EmptyHeaders(k - 1)
  }

  /** A complete header that has a wrong protocol, or declares bytes all of which are there. */
  predicate StartsDecided(stream: seq<byte>) {
    |stream| >= FRAME_HEADER && (stream[0] != PROTOCOL || 0 < Get16(stream, 1) <= |stream| - FRAME_HEADER)
  }

  predicate DecidedBehind(stream: seq<byte>, k: nat) {
    EmptyHeaders(k) <= stream && StartsDecided(stream[FRAME_HEADER * k..])
  }

  lemma OneMoreInFront(stream: seq<byte>, k: nat)
    requires |stream| >= FRAME_HEADER
    ensures EmptyHeaders(k + 1) <= stream <==> StartsEmpty(stream) && EmptyHeaders(k) <= stream[FRAME_HEADER..]
  {
    var first, tail := stream[..FRAME_HEADER], stream[FRAME_HEADER..];
    assert stream == first + tail;
    assert StartsEmpty(stream) <==> first == [PROTOCOL, 0, 0];
    if EmptyHeaders(k + 1) <= stream {
      assert first == EmptyHeaders(k + 1)[..FRAME_HEADER];
      assert tail[..FRAME_HEADER * k] == EmptyHeaders(k + 1)[FRAME_HEADER..];
    }
  }

  lemma BehindOneMore(stream: seq<byte>, k: nat)
    ensures DecidedBehind(stream, k + 1) <==> StartsEmpty(stream) && DecidedBehind(stream[FRAME_HEADER..], k)
  {
    hide StartsDecided, EmptyHeaders;
    if |stream| >= FRAME_HEADER {
      OneMoreInFront(stream, k);
      if |stream| >= FRAME_HEADER * (k + 1) {
        assert stream[FRAME_HEADER..][FRAME_HEADER * k..] == stream[FRAME_HEADER * (k + 1)..];
      }
    }
  }

  lemma AtFront(stream: seq<byte>)
    ensures DecidedBehind(stream, 0) <==> StartsDecided(stream)
    ensures StartsDecided(stream) ==> !StartsEmpty(stream)
  {
    assert stream[FRAME_HEADER * 0..] == stream;
  }

  /** The decoder gives a verdict exactly on the streams that bring such a header after headers that declare no
      bytes, if any. */
  lemma {:induction false} DecodedExactly(stream: seq<byte>)
    ensures Decode(stream).Some? <==> exists k: nat :: DecidedBehind(stream, k)
  {
    hide Judge, DecidedBehind;
    AtFront(stream);
    if StartsEmpty(stream) {
      var rest := stream[FRAME_HEADER..];
      DecodedExactly(rest);
      if k: nat :| DecidedBehind(rest, k) {
        BehindOneMore(stream, k);
      }
      if k: nat :| DecidedBehind(stream, k) {
        BehindOneMore(stream, k - 1);
      }
    } else if k: nat :| k > 0 && DecidedBehind(stream, k) {
      BehindOneMore(stream, k - 1);
    }
  }

  lemma DecodedLate(stream: seq<byte>)
    ensures StartsEmpty(stream) && Decode(stream).Some? <==> exists k: nat :: k >= 1 && DecidedBehind(stream, k)
  {
    hide Decode, DecidedBehind;
    DecodedExactly(stream);
    AtFront(stream);
    if k: nat :| k >= 1 && DecidedBehind(stream, k) {
      BehindOneMore(stream, k - 1);
    }
  }

  // Which cuts can arrive: a read brings at least one byte and no more than was asked for.

  const FIRST_READ := MAX_MO_MESSAGE + FRAME_HEADER

  predicate Receivable(chunks: seq<seq<byte>>, first: nat) {
    forall i :: 0 <= i < |chunks| ==> 0 < |chunks[i]| <= if i == 0 then first else MAX_MO_MESSAGE
  }

  lemma ReceivableRest(chunks: seq<seq<byte>>, first: nat)
    requires Receivable(chunks, first) && chunks != []
    ensures 0 < |chunks[0]| <= first && Receivable(chunks[1..], MAX_MO_MESSAGE)
  {
    assert forall i :: 0 <= i < |chunks| - 1 ==> chunks[1..][i] == chunks[i + 1];
  }

  /** A stream in pieces as large as they can be. */
  function Pieces(stream: seq<byte>, first: nat): (chunks: seq<seq<byte>>)
    requires first > 0
    decreases |stream|
  {
    if stream == [] then []
    else if |stream| <= first then [stream]
    else [stream[..first]] + Pieces(stream[first..], MAX_MO_MESSAGE)
  }

  lemma {:induction false} PiecesAreReceivable(stream: seq<byte>, first: nat, n: nat)
    requires first > 0 && |stream| <= if n == 0 then 0 else first + MAX_MO_MESSAGE * (n - 1)
    ensures var chunks := Pieces(stream, first);
            Receivable(chunks, first) && Concat(chunks) == stream && |chunks| <= n
    decreases |stream|
  {
    if |stream| > first {
      PiecesAreReceivable(stream[first..], MAX_MO_MESSAGE, n - 1);
      assert stream[..first] + stream[first..] == stream;
    } else if stream != [] {
      assert Concat([stream]) == stream + Concat([stream][1..]) == stream;
    }
  }

  predicate AwaitsHeader(r: Reader) {
    r.verdict.None? && r.messageLength == 0
  }

  lemma {:induction false} OneMoreBehind(k: nat)
    ensures EmptyHeaders(k) + [PROTOCOL, 0, 0] == EmptyHeaders(k + 1)
  {
    if k > 0 {
      OneMoreBehind(k - 1);
      assert EmptyHeaders(k) + [PROTOCOL, 0, 0] == [PROTOCOL, 0, 0] + (EmptyHeaders(k - 1) + [PROTOCOL, 0, 0]);
    }
  }

  lemma FeedOneHeader(r: Reader, bytes: seq<byte>)
    requires AwaitsHeader(r)
    ensures var buf := r.inBuf + bytes;
            if |buf| < FRAME_HEADER then Feed(r, bytes) == Reader(buf, 0, None)
            else if StartsEmpty(buf) then Feed(r, bytes) == Reader(buf[FRAME_HEADER..], 0, None)
            else !AwaitsHeader(Feed(r, bytes))
  {
    hide Judge;
  }

  /** As long as there is a header that declares no bytes for each read, the reader waits. */
  lemma {:induction false} OneHeaderPerRead(r: Reader, chunks: seq<seq<byte>>, k: nat)
    requires AwaitsHeader(r) && |chunks| <= k && EmptyHeaders(k) <= r.inBuf + Concat(chunks)
    ensures AwaitsHeader(FeedAll(r, chunks))
    decreases |chunks|
  {
    hide Feed;
    if chunks != [] {
      var buf, more := r.inBuf + chunks[0], Concat(chunks[1..]);
      assert r.inBuf + Concat(chunks) == buf + more;
      FeedOneHeader(r, chunks[0]);
      if |buf| < FRAME_HEADER {
        OneHeaderPerRead(Feed(r, chunks[0]), chunks[1..], k);
      } else {
        var all := buf + more;
        assert all[0] == PROTOCOL && all[1] == 0 && all[2] == 0;
        assert all[0] == buf[0] && all[1] == buf[1] && all[2] == buf[2];
        assert all[FRAME_HEADER..FRAME_HEADER * k] == EmptyHeaders(k - 1);
        assert buf[FRAME_HEADER..] + more == all[FRAME_HEADER..];
        assert EmptyHeaders(k - 1) <= buf[FRAME_HEADER..] + more;
        OneHeaderPerRead(Feed(r, chunks[0]), chunks[1..], k - 1);
      }
    }
  }

  /** A reader that waits for a header has passed over `k` others, and read no more than so many reads can bring. */
  ghost predicate Passed(r: Reader, stream: seq<byte>, k: nat) {
    && stream == EmptyHeaders(k) + r.inBuf
    && |stream| <= if k == 0 then FRAME_HEADER - 1 else MAX_MO_MESSAGE * k + FRAME_HEADER
  }

  lemma FeedPasses(r: Reader, stream: seq<byte>, k: nat, bytes: seq<byte>)
    requires AwaitsHeader(r) && Passed(r, stream, k)
    requires |bytes| <= if stream == [] then FIRST_READ else MAX_MO_MESSAGE
    ensures var t := Feed(r, bytes);
            AwaitsHeader(t) ==> exists j: nat :: Passed(t, stream + bytes, j)
  {
    hide Feed, EmptyHeaders;
    var t, buf := Feed(r, bytes), r.inBuf + bytes;
    FeedOneHeader(r, bytes);
    assert stream + bytes == EmptyHeaders(k) + buf;
    if |buf| < FRAME_HEADER {
      assert Passed(t, stream + bytes, k);
    } else if StartsEmpty(buf) {
      OneMoreBehind(k);
      assert buf == [PROTOCOL, 0, 0] + t.inBuf;
      assert EmptyHeaders(k) + buf == EmptyHeaders(k) + [PROTOCOL, 0, 0] + t.inBuf;
      assert Passed(t, stream + bytes, k + 1);
    }
  }

  lemma {:induction false} NeverBack(r: Reader, chunks: seq<seq<byte>>)
    requires !AwaitsHeader(r)
    ensures !AwaitsHeader(FeedAll(r, chunks))
    decreases |chunks|
  {
    hide Judge;
    if chunks != [] {
      NeverBack(Feed(r, chunks[0]), chunks[1..]);
    }
  }

  lemma {:induction false} FeedAllPasses(r: Reader, stream: seq<byte>, k: nat, chunks: seq<seq<byte>>)
    requires AwaitsHeader(r) && Passed(r, stream, k)
    requires Receivable(chunks, if stream == [] then FIRST_READ else MAX_MO_MESSAGE)
    ensures var t := FeedAll(r, chunks);
            AwaitsHeader(t) ==> exists j: nat :: Passed(t, stream + Concat(chunks), j)
    decreases |chunks|
  {
    hide Feed, Passed, Receivable, AwaitsHeader;
    if chunks == [] {
      assert stream + Concat(chunks) == stream;
    } else {
      var t := Feed(r, chunks[0]);
      ReceivableRest(chunks, if stream == [] then FIRST_READ else MAX_MO_MESSAGE);
      FeedPasses(r, stream, k, chunks[0]);
      assert stream + Concat(chunks) == (stream + chunks[0]) + Concat(chunks[1..]);
      if AwaitsHeader(t) {
        var j: nat :| Passed(t, stream + chunks[0], j);
        FeedAllPasses(t, stream + chunks[0], j, chunks[1..]);
      } else {
        NeverBack(t, chunks[1..]);
      }
    }
  }

  lemma {:induction false} DecidedBehindMore(j: nat, rest: seq<byte>, i: nat)
    requires DecidedBehind(rest, i)
    ensures DecidedBehind(EmptyHeaders(j) + rest, j + i)
  {
    hide DecidedBehind, StartsDecided;
    if j == 0 {
      assert EmptyHeaders(0) + rest == rest;
    } else {
      var all := EmptyHeaders(j) + rest;
      DecidedBehindMore(j - 1, rest, i);
      assert all[FRAME_HEADER..] == EmptyHeaders(j - 1) + rest;
      assert all[0] == PROTOCOL && all[1] == 0 && all[2] == 0;
      BehindOneMore(all, j + i - 1);
    }
  }

  lemma {:induction false} WaitsForMore(r: Reader, chunks: seq<seq<byte>>)
    requires r.verdict.None? && r.messageLength != 0 ==> |r.inBuf| < r.messageLength
    ensures var t := FeedAll(r, chunks);
            t.verdict.None? && t.messageLength != 0 ==> Ahead(t, []) == None
    decreases |chunks|
  {
    hide Judge;
    if chunks != [] {
      WaitsForMore(Feed(r, chunks[0]), chunks[1..]);
    }
  }

  lemma DecidedHasHeader(stream: seq<byte>, k: nat)
    requires DecidedBehind(stream, k)
    ensures |stream| >= FRAME_HEADER
  {
  }

  lemma PassedIsShort(r: Reader, stream: seq<byte>, j: nat, i: nat)
    requires Passed(r, stream, j) && DecidedBehind(r.inBuf, i)
    ensures j + i >= 1 && DecidedBehind(stream, j + i) && |stream| <= MAX_MO_MESSAGE * (j + i) + FRAME_HEADER
  {
    hide EmptyHeaders, StartsDecided;
    DecidedBehindMore(j, r.inBuf, i);
    DecidedHasHeader(stream, j + i);
  }

  lemma NothingPassed()
    ensures Passed(FRESH, [], 0)
  {
    assert EmptyHeaders(0) + [] == [];
  }

  /** A receivable cut without the decoder's verdict belongs to a stream that is short for its empty headers. */
  lemma LateIsShort(chunks: seq<seq<byte>>)
    requires Receivable(chunks, FIRST_READ)
    requires FeedAll(FRESH, chunks).verdict != Decode(Concat(chunks))
    ensures exists k: nat :: k >= 1 && DecidedBehind(Concat(chunks), k)
                             && |Concat(chunks)| <= MAX_MO_MESSAGE * k + FRAME_HEADER
  {
    hide Feed, FeedAll, Decode, Judge, DecidedBehind, Receivable, Passed, EmptyHeaders;
    var stream, t := Concat(chunks), FeedAll(FRESH, chunks);
    VerdictIsDecoded(chunks);
    FeedAllAhead(FRESH, chunks);
    assert [] + stream == stream;
    WaitsForMore(FRESH, chunks);
    assert AwaitsHeader(t);
    NothingPassed();
    FeedAllPasses(FRESH, [], 0, chunks);
    var j: nat :| Passed(t, stream, j);
    assert t.inBuf + [] == t.inBuf;
    DecodedExactly(t.inBuf);
    var i: nat :| DecidedBehind(t.inBuf, i);
    PassedIsShort(t, stream, j, i);
  }

  /** A stream that is short for its empty headers can be read with no more reads than those headers. */
  lemma ShortCanBeLate(stream: seq<byte>, k: nat)
    requires k >= 1 && DecidedBehind(stream, k) && |stream| <= MAX_MO_MESSAGE * k + FRAME_HEADER
    ensures var chunks := Pieces(stream, FIRST_READ);
            && Receivable(chunks, FIRST_READ) && Concat(chunks) == stream
            && FeedAll(FRESH, chunks).verdict == None && Decode(stream).Some?
  {
    hide Decode, Pieces, Receivable, EmptyHeaders;
    PiecesAreReceivable(stream, FIRST_READ, k);
    assert [] + stream == stream;
    OneHeaderPerRead(FRESH, Pieces(stream, FIRST_READ), k);
    DecodedExactly(stream);
  }

  /** Every cut, whatever the sizes of its pieces, gets the decoder's answer unless the stream starts with one or
      more headers that declare no bytes, followed by a complete header that has a wrong protocol or whose declared
      bytes are all there. Among the cuts that can arrive the exact condition is that such a stream is no longer than
      the reads it takes to pass over its empty headers: the reader takes one header per read, so read in pieces as
      large as possible, the stream leaves it waiting with the next header unread in its buffer. */
  lemma CutsAreInvisible(stream: seq<byte>)
    ensures (forall k: nat :: k >= 1 ==> !DecidedBehind(stream, k))
            ==> forall chunks :: Concat(chunks) == stream ==> FeedAll(FRESH, chunks).verdict == Decode(stream)
    ensures (forall chunks :: Receivable(chunks, FIRST_READ) && Concat(chunks) == stream
                              ==> FeedAll(FRESH, chunks).verdict == Decode(stream))
       <==> !exists k: nat :: k >= 1 && DecidedBehind(stream, k) && |stream| <= MAX_MO_MESSAGE * k + FRAME_HEADER
  {
    hide FeedAll, Decode, DecidedBehind, Receivable;
    DecodedLate(stream);
    forall chunks | Concat(chunks) == stream
      ensures !(StartsEmpty(stream) && Decode(stream).Some?) ==> FeedAll(FRESH, chunks).verdict == Decode(stream)
      ensures Receivable(chunks, FIRST_READ) && FeedAll(FRESH, chunks).verdict != Decode(stream)
              ==> exists k: nat :: k >= 1 && DecidedBehind(stream, k) && |stream| <= MAX_MO_MESSAGE * k + FRAME_HEADER
    {
      VerdictIsDecoded(chunks);
      if !StartsEmpty(stream) {
        ReassemblyRefinesDecode(chunks);
      }
      if Receivable(chunks, FIRST_READ) && FeedAll(FRESH, chunks).verdict != Decode(stream) {
        LateIsShort(chunks);
      }
    }
    if k: nat :| k >= 1 && DecidedBehind(stream, k) && |stream| <= MAX_MO_MESSAGE * k + FRAME_HEADER {
      ShortCanBeLate(stream, k);
    }
  }

  /** The same six bytes in one and in two pieces. */
  lemma EmptyFrameLags()
    ensures var stream := [1, 0, 0, 9, 0, 0];
            && FeedAll(FRESH, [stream]).verdict == None
            && FeedAll(FRESH, [stream[..3], stream[3..]]).verdict == Some(BadProtocol(9))
  {
    var stream: seq<byte> := [1, 0, 0, 9, 0, 0];
    var whole := Feed(FRESH, stream);
    assert FeedAll(FRESH, [stream]) == FeedAll(whole, [stream][1..]) == whole;
    var cut := [stream[..3], stream[3..]];
    var first := Feed(FRESH, cut[0]);
    assert FRESH.inBuf + cut[0] == [1, 0, 0];
    assert first == Reader([], 0, None);
    assert first.inBuf + cut[1] == [9, 0, 0];
    assert FeedAll(first, cut[1..]) == FeedAll(Feed(first, cut[1]), cut[1..][1..]) == Feed(first, cut[1]);
  }

  /** The verdict on a complete body: of another category than a mobile-originated message, with that category;
      else what `parse` says of it. */
  lemma JudgedExactly(body: seq<byte>)
    ensures forall c :: Judge(body) == WrongCategory(c) <==> CategoryOf(body) == c && c != MoMessage
    ensures forall e :: Judge(body) == ParseError(e) <==> CategoryOf(body) == MoMessage && ParseMo(body) == Failed(e)
    ensures forall es :: Judge(body) == Delivered(es) <==> CategoryOf(body) == MoMessage && ParseMo(body) == Parsed(es)
    ensures Judge(body) == LeftOpen <==> CategoryOf(body) == MoMessage && ParseMo(body) == Undetermined
  {
    hide CategoryOf, ParseMo;
  }

  // -------------------------------------------------------------- end to end

  /** A message a peer may send: elements 0x01, 0x02 and 0x05 with their values in range, among them a header
      and a payload, describable by a length field. */
  ghost predicate Sendable(es: seq<Element>) {
    && AllInRange(es) && |PackAll(es)| < 0x1_0000
    && (forall e :: e in es ==> e.MoHeader? || e.MoPayload? || e.MoConfirmation?)
    && (exists e :: e in es && e.MoHeader?) && (exists e :: e in es && e.MoPayload?)
  }

  lemma JudgeSendable(es: seq<Element>)
    requires Sendable(es)
    ensures Judge(PackAll(es)) == Delivered(es)
  {
    ShortFits(es);
    RoundTrip(es);
    forall i | 0 <= i < |es|
      ensures AsReceived(es[i]) == es[i]
    {
      assert es[i] in es;
    }
    assert AllAsReceived(es) == es;
    CategoryOfParsed(PackAll(es), MoMessage);
  }

  /** The messages delivered are exactly those a peer may send, each for exactly one body. */
  lemma DeliveredExactly(body: seq<byte>, es: seq<Element>)
    requires |body| < 0x1_0000
    ensures Judge(body) == Delivered(es) <==> Sendable(es) && PackAll(es) == body
  {
    hide Parse, CategoryOf, PackAll;
    if Sendable(es) && PackAll(es) == body {
      JudgeSendable(es);
    }
    if Judge(body) == Delivered(es) {
      CanonicalMo(body);
    }
  }

  /** Packed, framed and cut anywhere, a message arrives as exactly the elements sent, with no byte left over. */
  lemma EndToEnd(es: seq<Element>, chunks: seq<seq<byte>>)
    requires Sendable(es) && Concat(chunks) == Frame(es)
    ensures FeedAll(FRESH, chunks).verdict == Some(Delivered(es)) && FeedAll(FRESH, chunks).inBuf == []
  {
    hide FeedAll, Judge, Decode, Pack;
    var stream := Frame(es);
    FrameLength(es);
    JudgeSendable(es);
    var h :| h in es && h.MoHeader?;
    assert PackAll(es) != [];
    assert stream[FRAME_HEADER..|stream|] == PackAll(es);
    ReassemblyRefinesDecode(chunks);
    DecodeLooksAt(stream);
  }
}
