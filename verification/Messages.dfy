/** Messages as sequences of elements: the frame `serialize` writes and the messages `factory` builds. */
module Messages {
  import opened BigEndian
  import opened Elements
  import opened Codec

  const PROTOCOL: byte := 1
  const FRAME_HEADER := 3
  const MAX_MO_MESSAGE := PREFIX_SIZE * 3 + MO_HEADER_LENGTH + MAX_MO_PAYLOAD + MO_LOCATION_LENGTH
  const MAX_MT_MESSAGE := PREFIX_SIZE * 3 + MT_HEADER_LENGTH + MAX_MT_PAYLOAD + MT_PRIORITY_LENGTH

  datatype Option<+T> = None | Some(value: T)

  /** The elements of a message `serialize` is called on. */
  type Packables = es: seq<Element> | AllPackable(es) witness []

  /** The stream the chunks were cut from. */
  function Concat(chunks: seq<seq<byte>>): seq<byte> {
    if chunks == [] then [] else chunks[0] + Concat(chunks[1..])
  }

  // ---------------------------------------------------------------- framing

  function SumLengths(es: seq<Element>): nat
    requires AllPackable(es)
  {
    if es == [] then 0 else LengthField(es[0]) + PREFIX_SIZE + SumLengths(es[1..])
  }

  /** The frame `serialize` returns: protocol number, sum of the length fields in 16 bits, elements. */
  function Frame(es: seq<Element>): (r: seq<byte>)
    requires AllPackable(es)
    ensures |r| == FRAME_HEADER + |PackAll(es)| && r[0] == PROTOCOL && r[FRAME_HEADER..] == PackAll(es)
    ensures Get16(r, 1) == SumLengths(es) % 0x1_0000
  {
    Decode16([PROTOCOL], SumLengths(es) % 0x1_0000, PackAll(es));
    [PROTOCOL] + Put16(SumLengths(es) % 0x1_0000) + PackAll(es)
  }

  /** What `serialize` leaves in the elements of a message. */
  function AllNormalized(es: seq<Element>): (r: seq<Element>)
    ensures |r| == |es| && (AllPackable(es) ==> AllPackable(r))
  {
    seq(|es|, i requires 0 <= i < |es| => Normalized(es[i]))
  }

  lemma {:induction false} SumLengthsAppend(a: seq<Element>, e: Element)
    requires AllPackable(a) && Packable(e)
    ensures SumLengths(a + [e]) == SumLengths(a) + LengthField(e) + PREFIX_SIZE
  {
    hide LengthField, Packable;
    if a == [] {
      assert SumLengths([e][1..]) == 0;
    } else {
      assert (a + [e])[1..] == a[1..] + [e];
      SumLengthsAppend(a[1..], e);
    }
  }

  lemma {:induction false} SumIsSize(es: seq<Element>)
    requires AllInRange(es)
    ensures SumLengths(es) == |PackAll(es)|
  {
    if es != [] {
      PackShape(es[0]);
      SumIsSize(es[1..]);
    }
  }

  /** The length field of a frame counts the bytes after it, for every message a length field can describe. */
  lemma FrameLength(es: seq<Element>)
    requires AllInRange(es) && |PackAll(es)| < 0x1_0000
    ensures Get16(Frame(es), 1) == |Frame(es)| - FRAME_HEADER
  {
    SumIsSize(es);
  }

  lemma SameLengthField(e: Element)
    requires Packable(e)
    ensures Packable(Normalized(e)) && LengthField(Normalized(e)) == LengthField(e)
  {
  }

  lemma {:induction false} RepackAll(es: seq<Element>)
    requires AllPackable(es)
    ensures PackAll(AllNormalized(es)) == PackAll(es) && SumLengths(AllNormalized(es)) == SumLengths(es)
  {
    hide Pack, LengthField, Normalized, Packable;
    if es != [] {
      PackAgain(es[0]);
      SameLengthField(es[0]);
      RepackAll(es[1..]);
      assert AllNormalized(es) == [Normalized(es[0])] + AllNormalized(es[1..]);
    }
  }

  /** A message that was serialized once serializes to the same bytes again, and is not changed any more. */
  lemma SerializeAgain(es: seq<Element>)
    requires AllPackable(es)
    ensures Frame(AllNormalized(es)) == Frame(es)
    ensures AllNormalized(AllNormalized(es)) == AllNormalized(es)
  {
    RepackAll(es);
    forall i | 0 <= i < |es|
      ensures Normalized(Normalized(es[i])) == Normalized(es[i])
    {
      PackAgain(es[i]);
    }
  }

  // ---------------------------------------------------------------- factory

  datatype FactoryError = InvalidImeiSize | BadImei | NoPayloadGiven | PayloadTooLarge

  datatype Built = Built(es: seq<Element>) | Refused(error: FactoryError)

  predicate IsDigit(c: byte) {
    48 <= c <= 57
  }

  predicate AllDigits(s: seq<byte>) {
    forall i :: 0 <= i < |s| ==> IsDigit(s[i])
  }

  /** `Codec::factory`, with `None` for a null payload pointer and the flags as the word their `get` returns. */
  function Factory(msgId: word32, imei: seq<byte>, payload: Option<seq<byte>>, flags: word16, priority: word16): Built {
    if |imei| != IMEI_LENGTH then Refused(InvalidImeiSize)
    else if !AllDigits(imei) then Refused(BadImei)
    else if payload.None? || |payload.value| < 1 then Refused(NoPayloadGiven)
    else if |payload.value| > MAX_MT_PAYLOAD then Refused(PayloadTooLarge)
    else Built([MtHeader(msgId, imei, Host(flags)), MtPayload(payload.value), MtPriority(priority)])
  }

  /** Which arguments are accepted: an IMEI of fifteen digits and one to 1890 bytes of payload. In the order of the
      checks, the first that fails gives the error. */
  lemma FactoryAccepts(msgId: word32, imei: seq<byte>, payload: Option<seq<byte>>, flags: word16, priority: word16)
    ensures Factory(msgId, imei, payload, flags, priority).Built?
       <==> |imei| == 15 && (forall i :: 0 <= i < 15 ==> 48 <= imei[i] <= 57)
            && payload.Some? && 1 <= |payload.value| <= 1890
    ensures match Factory(msgId, imei, payload, flags, priority)
            case Built(es) =>
              && |es| == 3 && es[0] == MtHeader(msgId, imei, Host(flags)) && es[1] == MtPayload(payload.value)
              && es[2] == MtPriority(priority)
            case Refused(InvalidImeiSize) => |imei| != 15
            case Refused(BadImei) => |imei| == 15 && exists i :: 0 <= i < 15 && !(48 <= imei[i] <= 57)
            case Refused(NoPayloadGiven) =>
              && |imei| == 15 && (forall i :: 0 <= i < 15 ==> 48 <= imei[i] <= 57)
              && (payload.None? || payload.value == [])
            case Refused(PayloadTooLarge) =>
              && |imei| == 15 && (forall i :: 0 <= i < 15 ==> 48 <= imei[i] <= 57)
              && payload.Some? && |payload.value| > 1890
  {
  }

  lemma ThreePacked(a: Element, b: Element, c: Element)
    requires Packable(a) && Packable(b) && Packable(c)
    ensures PackAll([a, b, c]) == Pack(a) + Pack(b) + Pack(c)
  {
    hide Pack, Packable;
    assert [a, b, c][1..] == [b, c] && [b, c][1..] == [c] && [c][1..] == [];
    assert PackAll([c]) == Pack(c) + PackAll([]);
  }

  /** The message `factory` builds, as the first serialization leaves it. */
  lemma FactoryElements(a: Element, b: Element, priority: word16)
    requires a.MtHeader? && a.flags.Host? && b.MtPayload? && 1 <= |b.mtPayload| <= MAX_MT_PAYLOAD
    ensures var es, norm := [a, b, MtPriority(priority)], [a, b, MtPriority(Clamped(priority))];
            && AllPackable(es) && AllNormalized(es) == norm && AllInRange(norm) && norm != []
            && AllAsReceived(norm) == [AsReceived(a), b, MtPriority(Clamped(priority))]
            && |PackAll(norm)| <= MAX_MT_MESSAGE
            && (forall e :: e in AllAsReceived(norm) ==> ClassOf(IdOf(e)) == MtMessage)
  {
    ThreePacked(a, b, MtPriority(Clamped(priority)));
  }

  /** Every message `factory` builds is framed with the number of bytes that follow the frame header, within the
      maximum size, as an MT message; reading the elements back gives the caller's values with the priority
      clamped; and serializing a second time repeats the frame. */
  lemma FactoryFrame(msgId: word32, imei: seq<byte>, payload: Option<seq<byte>>, flags: word16, priority: word16)
    requires Factory(msgId, imei, payload, flags, priority).Built?
    ensures var es := Factory(msgId, imei, payload, flags, priority).es;
            && AllPackable(es)
            && |Frame(es)| <= FRAME_HEADER + MAX_MT_MESSAGE
            && Get16(Frame(es), 1) == |Frame(es)| - FRAME_HEADER
            && CategoryOf(Frame(es)[FRAME_HEADER..]) == MtMessage
            && Parse(Frame(es)[FRAME_HEADER..]) == Parsed([MtHeader(msgId, imei, Wire(flags / 0x100, flags % 0x100)),
                                                           MtPayload(payload.value), MtPriority(Clamped(priority))])
            && AllPackable(AllNormalized(es)) && Frame(AllNormalized(es)) == Frame(es)
  {
    hide Pack, Packable, PackAll, Parse, CategoryOf, Normalized, ClassOf, IdOf, Fits, Get16;
    var es := Factory(msgId, imei, payload, flags, priority).es;
    var norm := AllNormalized(es);
    FactoryElements(es[0], es[1], priority);
    SerializeAgain(es);
    FrameLength(norm);
    ShortFits(norm);
    RoundTrip(norm);
    CategoryOfParsed(PackAll(norm), MtMessage);
  }
}
