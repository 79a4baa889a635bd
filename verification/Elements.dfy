/** The information elements of the DirectIP format: what each `packInto` writes and what each `unpack`
    makes of the bytes after an element's id. */
module Elements {
  import opened BigEndian

  const MO_HEADER: byte := 0x01
  const MO_PAYLOAD: byte := 0x02
  const MO_LOCATION: byte := 0x03
  const MO_CONFIRMATION: byte := 0x05
  const MT_HEADER: byte := 0x41
  const MT_PAYLOAD: byte := 0x42
  const MT_CONFIRMATION: byte := 0x44
  const MT_PRIORITY: byte := 0x46

  /** Size of the id and the length field. */
  const PREFIX_SIZE := 3
  const MO_HEADER_LENGTH := 28
  const MO_LOCATION_LENGTH := 11
  const MO_CONFIRMATION_LENGTH := 1
  const MT_HEADER_LENGTH := 21
  const MT_CONFIRMATION_LENGTH := 25
  const MT_PRIORITY_LENGTH := 2
  const MAX_MO_PAYLOAD := 1960
  const MAX_MT_PAYLOAD := 1890
  const MAX_PRIORITY := 1
  const MIN_PRIORITY := 5
  const IMEI_LENGTH := 15

  type Imei = s: seq<byte> | |s| == IMEI_LENGTH witness seq(15, _ => 0)

  /** The disposition flags of an MT header. A header built in memory holds the word its `get` returns; one
      filled by `unpack` holds the two bytes of the wire, copied without a byte swap, whose reading depends
      on the host. */
  datatype Flags = Host(word: word16) | Wire(first: byte, second: byte)

  datatype Element =
    | MoHeader(cdrRef: word32, imei: Imei, sessionStatus: byte, momsn: word16, mtmsn: word16, sessionTime: word32)
    | MoPayload(moPayload: seq<byte>)
    | MoLocation
    | MoConfirmation(moStatus: byte)
    | MtHeader(clientId: word32, mtImei: Imei, flags: Flags)
    | MtPayload(mtPayload: seq<byte>)
    | MtConfirmation(confirmedId: word32, confirmedImei: Imei, autoRef: word32, status: int16)
    | MtPriority(priority: word16)

  function IdOf(e: Element): byte {
    match e
    case MoHeader(_, _, _, _, _, _) => MO_HEADER
    case MoPayload(_) => MO_PAYLOAD
    case MoLocation => MO_LOCATION
    case MoConfirmation(_) => MO_CONFIRMATION
    case MtHeader(_, _, _) => MT_HEADER
    case MtPayload(_) => MT_PAYLOAD
    case MtConfirmation(_, _, _, _) => MT_CONFIRMATION
    case MtPriority(_) => MT_PRIORITY
  }

  // ---------------------------------------------------------------- packing

  /** What `packInto` leaves in a payload vector: its size is first stored in 16 bits. */
  function Truncated(p: seq<byte>, max: word16): seq<byte> {
    if |p| % 0x1_0000 > max then p[..max] else p
  }

  function Clamped(p: word16): word16 {
    if p > MIN_PRIORITY || p < MAX_PRIORITY then MIN_PRIORITY else p
  }

  /** What `packInto` leaves in an element's content. */
  function Normalized(e: Element): Element {
    match e
    case MoPayload(p) => MoPayload(Truncated(p, MAX_MO_PAYLOAD))
    case MtPayload(p) => MtPayload(Truncated(p, MAX_MT_PAYLOAD))
    case MtPriority(p) => MtPriority(Clamped(p))
    case _ => e
  }

  /** Elements whose packing this model determines. */
  predicate Packable(e: Element) {
    !e.MoLocation? && (e.MtHeader? ==> e.flags.Host?)
  }

  /** The length `packInto` stores in the element and on the wire. */
  function LengthField(e: Element): word16
    requires Packable(e)
  {
    match e
    case MoHeader(_, _, _, _, _, _) => MO_HEADER_LENGTH
    case MoPayload(p) => |Truncated(p, MAX_MO_PAYLOAD)| % 0x1_0000
    case MoConfirmation(_) => MO_CONFIRMATION_LENGTH
    case MtHeader(_, _, _) => MT_HEADER_LENGTH
    case MtPayload(p) => |Truncated(p, MAX_MT_PAYLOAD)| % 0x1_0000
    case MtConfirmation(_, _, _, _) => MT_CONFIRMATION_LENGTH
    case MtPriority(_) => MT_PRIORITY_LENGTH
  }

  function Body(e: Element): seq<byte>
    requires Packable(e)
  {
    match e
    case MoHeader(cdr, imei, st, mo, mt, time) => Put32(cdr) + imei + [st] + Put16(mo) + Put16(mt) + Put32(time)
    case MoPayload(p) => Truncated(p, MAX_MO_PAYLOAD)
    case MoConfirmation(st) => [st]
    case MtHeader(id, imei, flags) => Put32(id) + imei + Put16(flags.word)
    case MtPayload(p) => Truncated(p, MAX_MT_PAYLOAD)
    case MtConfirmation(id, imei, ref, st) => Put32(id) + imei + Put32(ref) + Put16(FromSigned(st))
    case MtPriority(p) => Put16(Clamped(p))
  }

  /** The bytes `packInto` appends. */
  function Pack(e: Element): (r: seq<byte>)
    requires Packable(e)
    ensures |r| >= PREFIX_SIZE && r[0] == IdOf(e)
  {
    [IdOf(e)] + Put16(LengthField(e)) + Body(e)
  }

  predicate AllPackable(es: seq<Element>) {
    forall i :: 0 <= i < |es| ==> Packable(es[i])
  }

  function PackAll(es: seq<Element>): seq<byte>
    requires AllPackable(es)
  {
    if es == [] then [] else Pack(es[0]) + PackAll(es[1..])
  }

  // -------------------------------------------------------------- unpacking

  /** The elements a peer may put on the wire: payloads within their bounds. */
  predicate InRange(e: Element) {
    && Packable(e)
    && (e.MoPayload? ==> 1 <= |e.moPayload| <= MAX_MO_PAYLOAD)
    && (e.MtPayload? ==> 1 <= |e.mtPayload| <= MAX_MT_PAYLOAD)
    && (e.MtPriority? ==> MAX_PRIORITY <= e.priority <= MIN_PRIORITY)
  }

  predicate AllInRange(es: seq<Element>) {
    forall i :: 0 <= i < |es| ==> InRange(es[i])
  }

  /** An element as it looks after a trip over the wire: only the representation of the flags changes. */
  function AsReceived(e: Element): Element {
    match e
    case MtHeader(id, imei, Host(w)) => MtHeader(id, imei, Wire(w / 0x100, w % 0x100))
    case _ => e
  }

  function AllAsReceived(es: seq<Element>): (r: seq<Element>)
    ensures |r| == |es|
  {
    seq(|es|, i requires 0 <= i < |es| => AsReceived(es[i]))
  }

  /** Outcome of `unpack`. `Consumed(e, n)` is a result of n, `Rejected` a result of 0. `Unspecified` is a
      result this model leaves open: that of a payload copied from beyond the buffer's end, or of a location
      element that passes its checks. */
  datatype Unpacked = Consumed(e: Element, n: nat) | Rejected | Unspecified

  predicate KnownId(id: byte) {
    id in {MO_HEADER, MO_PAYLOAD, MO_LOCATION, MO_CONFIRMATION, MT_HEADER, MT_PAYLOAD, MT_CONFIRMATION, MT_PRIORITY}
  }

  /** The content length of the elements that have a fixed one. */
  function FixedLength(id: byte): word16
    requires KnownId(id) && id != MO_PAYLOAD && id != MT_PAYLOAD && id != MO_LOCATION
  {
    if id == MO_HEADER then MO_HEADER_LENGTH
    else if id == MO_CONFIRMATION then MO_CONFIRMATION_LENGTH
    else if id == MT_HEADER then MT_HEADER_LENGTH
    else if id == MT_CONFIRMATION then MT_CONFIRMATION_LENGTH
    else MT_PRIORITY_LENGTH
  }

  /** The fields of a fixed-length element, read after its length field. */
  function Fields(id: byte, data: seq<byte>): Element
    requires KnownId(id) && id != MO_PAYLOAD && id != MT_PAYLOAD && id != MO_LOCATION
    requires |data| >= 2 + FixedLength(id)
  {
    if id == MO_HEADER then
      MoHeader(Get32(data, 2), data[6..21], data[21], Get16(data, 22), Get16(data, 24), Get32(data, 26))
    else if id == MO_CONFIRMATION then MoConfirmation(data[2])
    else if id == MT_HEADER then MtHeader(Get32(data, 2), data[6..21], Wire(data[21], data[22]))
    else if id == MT_CONFIRMATION then
      MtConfirmation(Get32(data, 2), data[6..21], Get32(data, 21), ToSigned(Get16(data, 25)))
    else MtPriority(Get16(data, 2))
  }

  function PayloadElement(id: byte, p: seq<byte>): Element {
    if id == MO_PAYLOAD then MoPayload(p) else MtPayload(p)
  }

  function MaxPayload(id: byte): word16 {
    if id == MO_PAYLOAD then MAX_MO_PAYLOAD else MAX_MT_PAYLOAD
  }

  /** `unpack` on the bytes `data` from the position after the id to the end of the buffer, where the caller
      announces `size` of them. */
  function Unpack(id: byte, data: seq<byte>, size: nat): Unpacked
    requires KnownId(id) && size <= |data|
  {
    if id == MO_LOCATION then
      if size < MO_LOCATION_LENGTH + 2 || Get16(data, 0) != MO_LOCATION_LENGTH then Rejected else Unspecified
    else if id == MO_PAYLOAD || id == MT_PAYLOAD then
      if size < 2 then Rejected
      else
        var m := Get16(data, 0);
        if m < 1 || m > MaxPayload(id) || size < m then Rejected
        else if |data| < 2 + m then Unspecified
        else Consumed(PayloadElement(id, data[2..2 + m]), 2 + m)
    else if size < FixedLength(id) + 2 || Get16(data, 0) != FixedLength(id) then Rejected
    else Consumed(Fields(id, data), 2 + FixedLength(id))
  }

  /** The size `unpack` must be told before it accepts the packing of `e`. */
  function Demand(e: Element): nat
    requires Packable(e)
  {
    if e.MoPayload? || e.MtPayload? then
      if LengthField(e) < 2 then 2 else LengthField(e)
    else LengthField(e) + 2
  }

  // ------------------------------------------------------------- properties

  lemma PackShape(e: Element)
    requires InRange(e)
    ensures |Pack(e)| == PREFIX_SIZE + LengthField(e)
    ensures Normalized(e) == e
  {
  }

  lemma MoHeaderFields(e: Element, p: seq<byte>, rest: seq<byte>)
    requires e.MoHeader? && |p| == 2
    ensures |Body(e)| == MO_HEADER_LENGTH
    ensures Fields(MO_HEADER, p + Body(e) + rest) == e
  {
    var data := p + Body(e) + rest;
    var tail := Put32(e.sessionTime) + rest;
    var head := p + Put32(e.cdrRef) + e.imei + [e.sessionStatus];
    assert data == p + Put32(e.cdrRef) + data[6..];
    Decode32(p, e.cdrRef, data[6..]);
    assert data[6..21] == e.imei && data[21] == e.sessionStatus;
    assert data == head + Put16(e.momsn) + (Put16(e.mtmsn) + tail);
    Decode16(head, e.momsn, Put16(e.mtmsn) + tail);
    assert data == (head + Put16(e.momsn)) + Put16(e.mtmsn) + tail;
    Decode16(head + Put16(e.momsn), e.mtmsn, tail);
    assert data == (head + Put16(e.momsn) + Put16(e.mtmsn)) + Put32(e.sessionTime) + rest;
    Decode32(head + Put16(e.momsn) + Put16(e.mtmsn), e.sessionTime, rest);
  }

  lemma MtHeaderFields(e: Element, p: seq<byte>, rest: seq<byte>)
    requires e.MtHeader? && e.flags.Host? && |p| == 2
    ensures |Body(e)| == MT_HEADER_LENGTH
    ensures Fields(MT_HEADER, p + Body(e) + rest) == AsReceived(e)
  {
    var data := p + Body(e) + rest;
    assert data == p + Put32(e.clientId) + data[6..];
    Decode32(p, e.clientId, data[6..]);
    assert data[6..21] == e.mtImei;
    assert data[21] == Put16(e.flags.word)[0] && data[22] == Put16(e.flags.word)[1];
  }

  lemma MtConfirmationFields(e: Element, p: seq<byte>, rest: seq<byte>)
    requires e.MtConfirmation? && |p| == 2
    ensures |Body(e)| == MT_CONFIRMATION_LENGTH
    ensures Fields(MT_CONFIRMATION, p + Body(e) + rest) == e
  {
    var data := p + Body(e) + rest;
    var tail := Put16(FromSigned(e.status)) + rest;
    var head := p + Put32(e.confirmedId) + e.confirmedImei;
    assert data == p + Put32(e.confirmedId) + data[6..];
    Decode32(p, e.confirmedId, data[6..]);
    assert data[6..21] == e.confirmedImei;
    assert data == head + Put32(e.autoRef) + tail;
    Decode32(head, e.autoRef, tail);
    assert data == (head + Put32(e.autoRef)) + Put16(FromSigned(e.status)) + rest;
    Decode16(head + Put32(e.autoRef), FromSigned(e.status), rest);
    SignedBits(0, e.status);
  }

  lemma FieldsOfPacked(e: Element, p: seq<byte>, rest: seq<byte>)
    requires InRange(e) && !e.MoPayload? && !e.MtPayload? && |p| == 2
    ensures |Body(e)| == FixedLength(IdOf(e))
    ensures Fields(IdOf(e), p + Body(e) + rest) == AsReceived(e)
  {
    match e {
      case MoHeader(_, _, _, _, _, _) => MoHeaderFields(e, p, rest);
      case MoConfirmation(_) =>
      case MtHeader(_, _, _) => MtHeaderFields(e, p, rest);
      case MtConfirmation(_, _, _, _) => MtConfirmationFields(e, p, rest);
      case MtPriority(n) =>
        assert p + Body(e) + rest == p + Put16(n) + rest;
        Decode16(p, n, rest);
    }
  }

  lemma KnownIds(e: Element)
    ensures KnownId(IdOf(e))
  {
  }

  lemma UnpackLaidOutPayload(e: Element, p: seq<byte>, rest: seq<byte>, size: nat)
    requires InRange(e) && (e.MoPayload? || e.MtPayload?) && |p| == 2
    requires size <= |p + Body(e) + rest| && Get16(p + Body(e) + rest, 0) == LengthField(e)
    ensures Unpack(IdOf(e), p + Body(e) + rest, size) ==
              if size < Demand(e) then Rejected else Consumed(AsReceived(e), 2 + LengthField(e))
  {
    hide Get16;
    assert (p + Body(e) + rest)[2..2 + LengthField(e)] == Body(e);
  }

  lemma FixedLayout(e: Element)
    requires InRange(e) && !e.MoPayload? && !e.MtPayload?
    ensures var id := IdOf(e);
            && KnownId(id) && id != MO_PAYLOAD && id != MT_PAYLOAD && id != MO_LOCATION
            && LengthField(e) == FixedLength(id)
  {
  }

  lemma UnpackLaidOutFields(e: Element, p: seq<byte>, rest: seq<byte>, size: nat)
    requires InRange(e) && !e.MoPayload? && !e.MtPayload? && |p| == 2
    requires size <= |p + Body(e) + rest| && Get16(p + Body(e) + rest, 0) == LengthField(e)
    ensures Unpack(IdOf(e), p + Body(e) + rest, size) ==
              if size < Demand(e) then Rejected else Consumed(AsReceived(e), 2 + LengthField(e))
  {
    hide Get16, IdOf, Body, Fields, FixedLength, LengthField, AsReceived, InRange, KnownId;
    FixedLayout(e);
    FieldsOfPacked(e, p, rest);
  }

  /** Unpacking inverts packing, whatever follows the element, exactly when the announced size is enough. */
  lemma UnpackPacked(e: Element, rest: seq<byte>, size: nat)
    requires InRange(e) && size <= |Pack(e)| - 1 + |rest|
    ensures var data := (Pack(e) + rest)[1..];
            Unpack(IdOf(e), data, size) ==
              if size < Demand(e) then Rejected else Consumed(AsReceived(e), |Pack(e)| - 1)
  {
    hide Unpack, Body, LengthField, IdOf, AsReceived, Demand, Get16, Put16, KnownId;
    var p := Put16(LengthField(e));
    PackShape(e);
    KnownIds(e);
    assert (Pack(e) + rest)[1..] == p + Body(e) + rest == [] + p + (Body(e) + rest);
    Decode16([], LengthField(e), Body(e) + rest);
    if e.MoPayload? || e.MtPayload? {
      UnpackLaidOutPayload(e, p, rest, size);
    } else {
      UnpackLaidOutFields(e, p, rest, size);
    }
  }

  lemma PackedMoHeader(data: seq<byte>)
    requires |data| >= 30
    ensures Body(Fields(MO_HEADER, data)) == data[2..30]
  {
    Encode32(data, 2);
    Encode16(data, 22);
    Encode16(data, 24);
    Encode32(data, 26);
    assert data[2..30] == data[2..6] + data[6..21] + [data[21]] + data[22..24] + data[24..26] + data[26..30];
  }

  lemma PackedMtConfirmation(data: seq<byte>)
    requires |data| >= 27
    ensures Body(Fields(MT_CONFIRMATION, data)) == data[2..27]
  {
    Encode32(data, 2);
    Encode32(data, 21);
    Encode16(data, 25);
    SignedBits(Get16(data, 25), 0);
    assert data[2..27] == data[2..6] + data[6..21] + data[21..25] + data[25..27];
  }

  lemma PackedFields(id: byte, data: seq<byte>)
    requires KnownId(id) && id != MO_PAYLOAD && id != MT_PAYLOAD && id != MO_LOCATION && id != MT_HEADER
    requires |data| >= 2 + FixedLength(id)
    requires InRange(Fields(id, data))
    ensures IdOf(Fields(id, data)) == id && LengthField(Fields(id, data)) == FixedLength(id)
    ensures Body(Fields(id, data)) == data[2..2 + FixedLength(id)]
  {
    if id == MO_HEADER {
      PackedMoHeader(data);
    } else if id == MT_CONFIRMATION {
      PackedMtConfirmation(data);
    } else if id == MT_PRIORITY {
      Encode16(data, 2);
    }
  }

  lemma UnpackedPayload(id: byte, data: seq<byte>, m: word16)
    requires id == MO_PAYLOAD || id == MT_PAYLOAD
    requires 2 + m <= |data| && m == Get16(data, 0) && 1 <= m <= MaxPayload(id)
    ensures var e := PayloadElement(id, data[2..2 + m]);
            InRange(e) && Pack(e) == [id] + data[..2 + m]
  {
    hide Get16, Put16;
    Encode16(data, 0);
    assert data[..2 + m] == data[0..2] + data[2..2 + m];
  }

  lemma UnpackedFixed(id: byte, data: seq<byte>)
    requires KnownId(id) && id != MO_PAYLOAD && id != MT_PAYLOAD && id != MO_LOCATION && id != MT_HEADER
    requires |data| >= 2 + FixedLength(id) && Get16(data, 0) == FixedLength(id)
    requires InRange(Fields(id, data))
    ensures Pack(Fields(id, data)) == [id] + data[..2 + FixedLength(id)]
  {
    hide Fields, Body, LengthField, IdOf, Get16, Put16;
    PackedFields(id, data);
    Encode16(data, 0);
    var e, m := Fields(id, data), FixedLength(id);
    assert Pack(e) == [id] + Put16(m) + data[2..2 + m];
    assert data[..2 + m] == data[0..2] + data[2..2 + m];
  }

  /** What `unpack` accepts: the id, the extent, and which elements can be out of range. */
  lemma UnpackedShape(id: byte, data: seq<byte>, size: nat)
    requires KnownId(id) && size <= |data|
    requires Unpack(id, data, size).Consumed?
    ensures var u := Unpack(id, data, size);
            && IdOf(u.e) == id
            && 3 <= u.n <= |data| && u.n == 2 + Get16(data, 0)
            && (InRange(u.e) <==> !u.e.MtHeader? && (u.e.MtPriority? ==> MAX_PRIORITY <= u.e.priority <= MIN_PRIORITY))
  {
  }

  /** Packing inverts unpacking: the bytes consumed are the only ones an in-range element can come from. */
  lemma PackUnpacked(id: byte, data: seq<byte>, size: nat)
    requires KnownId(id) && size <= |data|
    requires Unpack(id, data, size).Consumed? && InRange(Unpack(id, data, size).e)
    ensures var u := Unpack(id, data, size);
            u.n <= |data| && Pack(u.e) == [id] + data[..u.n]
  {
    if id == MO_PAYLOAD || id == MT_PAYLOAD {
      UnpackedPayload(id, data, Get16(data, 0));
    } else {
      UnpackedFixed(id, data);
    }
  }

  /** The guard of the two payload elements as it is written, against the one that keeps the copy inside the
      buffer: they differ only where one or two bytes are missing. */
  lemma PayloadGuard(id: byte, data: seq<byte>)
    requires id == MO_PAYLOAD || id == MT_PAYLOAD
    ensures Unpack(id, data, |data|) == Unspecified
            <==> |data| >= 2 && 1 <= Get16(data, 0) <= MaxPayload(id) && |data| - Get16(data, 0) in {0, 1}
  {
  }

  /** A payload element of one byte whose byte is missing passes the guard. */
  lemma PayloadGuardGap()
    ensures Unpack(MO_PAYLOAD, [0, 1], 2) == Unspecified && Unpack(MT_PAYLOAD, [0, 1], 2) == Unspecified
  {
    assert Get16([0, 1], 0) == 1;
  }

  /** An element that was packed once packs to the same bytes again. */
  lemma PackAgain(e: Element)
    requires Packable(e)
    ensures Packable(Normalized(e)) && Pack(Normalized(e)) == Pack(e)
    ensures Normalized(Normalized(e)) == Normalized(e)
  {
  }

  /** The length field tells the number of bytes that follow unless a payload vector of 65536 bytes or more
      has a size that looks small in 16 bits. */
  lemma LengthFieldExact(e: Element)
    requires Packable(e)
    ensures |Pack(e)| == PREFIX_SIZE + LengthField(e)
            <==> (&& !(e.MoPayload? && |e.moPayload| >= 0x1_0000 && |e.moPayload| % 0x1_0000 <= MAX_MO_PAYLOAD)
                  && !(e.MtPayload? && |e.mtPayload| >= 0x1_0000 && |e.mtPayload| % 0x1_0000 <= MAX_MT_PAYLOAD))
  {
  }

  lemma {:induction false} PackAllAppend(a: seq<Element>, b: seq<Element>)
    requires AllPackable(a) && AllPackable(b)
    ensures AllPackable(a + b) && PackAll(a + b) == PackAll(a) + PackAll(b)
  {
    hide Pack, Packable;
    if a == [] {
      assert a + b == b;
    } else {
      PackAllAppend(a[1..], b);
      assert (a + b)[1..] == a[1..] + b;
    }
  }
}
