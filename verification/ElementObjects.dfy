/** The element objects: their fields, and `unpack` and `packInto` as they change them. One class stands for
    the hierarchy; the id selects the override. */
module ElementObjects {
  import opened BigEndian
  import opened Elements

  /** The outgoing buffer, a vector that grows at its end. */
  class ByteVector {
    var bytes: seq<byte>

    constructor ()
      ensures bytes == []
    {
      bytes := [];
    }

    method PushBack(b: byte)
      modifies this
      ensures bytes == old(bytes) + [b]
    {
      bytes := bytes + [b];
    }

    /** The loops that push the bytes of an object one by one. */
    method PushAll(source: seq<byte>)
      modifies this
      ensures bytes == old(bytes) + source
    {
      for i := 0 to |source|
        invariant bytes == old(bytes) + source[..i]
      {
        PushBack(source[i]);
        assert source[..i + 1] == source[..i] + [source[i]];
      }
      assert source[..|source|] == source;
    }

    method Set(i: nat, b: byte)
      requires i < |bytes|
      modifies this
      ensures bytes == old(bytes)[i := b]
    {
      bytes := bytes[i := b];
    }
  }

  /** What `unpack` returns: the number of bytes consumed, 0 for an error. `LeftOpen` stands for a result this
      model does not determine. */
  datatype Offset = Offset(n: nat) | LeftOpen

  /** The content of a new element. */
  function InitialContent(id: byte): Element
    requires KnownId(id)
  {
    var noImei := seq(IMEI_LENGTH, _ => 0);
    if id == MO_HEADER then MoHeader(0, noImei, 0, 0, 0, 0)
    else if id == MO_PAYLOAD then MoPayload([])
    else if id == MO_LOCATION then MoLocation
    else if id == MO_CONFIRMATION then MoConfirmation(0)
    else if id == MT_HEADER then MtHeader(0, noImei, Host(0))
    else if id == MT_PAYLOAD then MtPayload([])
    else if id == MT_CONFIRMATION then MtConfirmation(0, noImei, 0, 0)
    else MtPriority(MIN_PRIORITY)
  }

  /** The announced size from which `unpack` reads the length field. */
  function Threshold(id: byte): nat
    requires KnownId(id)
  {
    if id == MO_PAYLOAD || id == MT_PAYLOAD then 2
    else if id == MO_LOCATION then MO_LOCATION_LENGTH + 2
    else FixedLength(id) + 2
  }

  /** What a new element of each id holds, and from which size on `unpack` stores the length it reads. */
  lemma NewElement(id: byte)
    requires id in {0x01, 0x02, 0x03, 0x05, 0x41, 0x42, 0x44, 0x46}
    ensures var zeros := seq(15, _ => 0);
            InitialContent(id) == match id
                                  case 0x01 => MoHeader(0, zeros, 0, 0, 0, 0)
                                  case 0x02 => MoPayload([])
                                  case 0x03 => MoLocation
                                  case 0x05 => MoConfirmation(0)
                                  case 0x41 => MtHeader(0, zeros, Host(0))
                                  case 0x42 => MtPayload([])
                                  case 0x44 => MtConfirmation(0, zeros, 0, 0)
                                  case _ => MtPriority(5)
    ensures Threshold(id) == match id
                             case 0x01 => 30
                             case 0x02 => 2
                             case 0x03 => 13
                             case 0x05 => 3
                             case 0x41 => 23
                             case 0x42 => 2
                             case 0x44 => 27
                             case _ => 4
  {
    assert seq<byte>(15, _ => 0) == seq<byte>(IMEI_LENGTH, _ => 0);
  }

  class InformationElement {
    const id: byte
    var length: word16
    var content: Element

    predicate Valid()
      reads this
    {
      KnownId(id) && IdOf(content) == id
    }

    constructor (kind: byte)
      requires KnownId(kind)
      ensures Valid() && id == kind && length == 0 && content == InitialContent(kind)
    {
      id := kind;
      length := 0;
      content := InitialContent(kind);
    }

    // ------------------------------------------------------------- unpacking

    /** What `unpack` leaves behind, for the result `r`. */
    twostate predicate Unpacks(data: seq<byte>, size: nat, r: Offset)
      requires old(Valid()) && size <= |data|
      reads this
    {
      && Valid()
      && (match Elements.Unpack(id, data, size)
          case Consumed(e, n) => r == Offset(n) && content == e && length == n - 2
          case Rejected =>
            && r == Offset(0) && content == old(content)
            && length == (if size < Threshold(id) then old(length) else Get16(data, 0))
          case Unspecified => r == LeftOpen)
    }

    method UnpackMoHeader(data: seq<byte>, size: nat) returns (r: Offset)
      requires Valid() && id == MO_HEADER && size <= |data|
      modifies this
      ensures Unpacks(data, size, r)
    {
      if size < MO_HEADER_LENGTH + 2 {
        return Offset(0);
      }
      length := Get16(data, 0);
      if length != MO_HEADER_LENGTH {
        return Offset(0);
      }
      var offset := 2;
      content := content.(cdrRef := Get32(data, offset));
      offset := offset + 4;
      content := content.(imei := data[offset..offset + IMEI_LENGTH]);
      offset := offset + IMEI_LENGTH;
      content := content.(sessionStatus := data[offset]);
      offset := offset + 1;
      content := content.(momsn := Get16(data, offset));
      offset := offset + 2;
      content := content.(mtmsn := Get16(data, offset));
      offset := offset + 2;
      content := content.(sessionTime := Get32(data, offset));
      offset := offset + 4;
      return Offset(offset);
    }

    /** The two payload elements differ in their maximum only. */
    method UnpackPayload(data: seq<byte>, size: nat) returns (r: Offset)
      requires Valid() && id in {MO_PAYLOAD, MT_PAYLOAD} && size <= |data|
      modifies this
      ensures Unpacks(data, size, r)
    {
      if size < 2 {
        return Offset(0);
      }
      length := Get16(data, 0);
      if length < 1 || length > MaxPayload(id) {
        return Offset(0);
      }
      if size < length {
        return Offset(0);
      }
      if |data| < 2 + length {
        // One or two of the bytes copied lie behind the end of the buffer.
        return LeftOpen;
      }
      content := PayloadElement(id, data[2..2 + length]);
      return Offset(2 + length);
    }

    method UnpackMoConfirmation(data: seq<byte>, size: nat) returns (r: Offset)
      requires Valid() && id == MO_CONFIRMATION && size <= |data|
      modifies this
      ensures Unpacks(data, size, r)
    {
      if size < MO_CONFIRMATION_LENGTH + 2 {
        return Offset(0);
      }
      length := Get16(data, 0);
      if length != MO_CONFIRMATION_LENGTH {
        return Offset(0);
      }
      var offset := 2;
      content := content.(moStatus := data[offset]);
      offset := offset + 1;
      return Offset(offset);
    }

    method UnpackMtHeader(data: seq<byte>, size: nat) returns (r: Offset)
      requires Valid() && id == MT_HEADER && size <= |data|
      modifies this
      ensures Unpacks(data, size, r)
    {
      if size < MT_HEADER_LENGTH + 2 {
        return Offset(0);
      }
      length := Get16(data, 0);
      if length != MT_HEADER_LENGTH {
        return Offset(0);
      }
      var offset := 2;
      content := content.(clientId := Get32(data, offset));
      offset := offset + 4;
      content := content.(mtImei := data[offset..offset + IMEI_LENGTH]);
      offset := offset + IMEI_LENGTH;
      content := content.(flags := Wire(data[offset], data[offset + 1]));
      offset := offset + 2;
      return Offset(offset);
    }

    method UnpackMtConfirmation(data: seq<byte>, size: nat) returns (r: Offset)
      requires Valid() && id == MT_CONFIRMATION && size <= |data|
      modifies this
      ensures Unpacks(data, size, r)
    {
      if size < MT_CONFIRMATION_LENGTH + 2 {
        return Offset(0);
      }
      length := Get16(data, 0);
      if length != MT_CONFIRMATION_LENGTH {
        return Offset(0);
      }
      var offset := 2;
      content := content.(confirmedId := Get32(data, offset));
      offset := offset + 4;
      content := content.(confirmedImei := data[offset..offset + IMEI_LENGTH]);
      offset := offset + IMEI_LENGTH;
      content := content.(autoRef := Get32(data, offset));
      offset := offset + 4;
      content := content.(status := ToSigned(Get16(data, offset)));
      offset := offset + 2;
      return Offset(offset);
    }

    method UnpackMtPriority(data: seq<byte>, size: nat) returns (r: Offset)
      requires Valid() && id == MT_PRIORITY && size <= |data|
      modifies this
      ensures Unpacks(data, size, r)
    {
      if size < MT_PRIORITY_LENGTH + 2 {
        return Offset(0);
      }
      length := Get16(data, 0);
      if length != MT_PRIORITY_LENGTH {
        return Offset(0);
      }
      content := content.(priority := Get16(data, 2));
      return Offset(2 + length);
    }

    /** The copies behind the two checks are left open. */
    method UnpackMoLocation(data: seq<byte>, size: nat) returns (r: Offset)
      requires Valid() && id == MO_LOCATION && size <= |data|
      modifies this
      ensures Unpacks(data, size, r)
    {
      if size < MO_LOCATION_LENGTH + 2 {
        return Offset(0);
      }
      length := Get16(data, 0);
      if length != MO_LOCATION_LENGTH {
        return Offset(0);
      }
      return LeftOpen;
    }

    /** The virtual call. */
    method Unpack(data: seq<byte>, size: nat) returns (r: Offset)
      requires Valid() && size <= |data|
      modifies this
      ensures Unpacks(data, size, r)
    {
      if id == MO_HEADER {
        r := UnpackMoHeader(data, size);
      } else if id == MO_PAYLOAD || id == MT_PAYLOAD {
        r := UnpackPayload(data, size);
      } else if id == MO_CONFIRMATION {
        r := UnpackMoConfirmation(data, size);
      } else if id == MT_HEADER {
        r := UnpackMtHeader(data, size);
      } else if id == MT_CONFIRMATION {
        r := UnpackMtConfirmation(data, size);
      } else if id == MT_PRIORITY {
        r := UnpackMtPriority(data, size);
      } else {
        r := UnpackMoLocation(data, size);
      }
    }

    // --------------------------------------------------------------- packing

    /** The three bytes in front of every element's content. */
    method PackPrefix(raw: ByteVector)
      modifies raw
      ensures raw.bytes == old(raw.bytes) + [id] + Put16(length)
    {
      raw.PushAll([id] + Put16(length));
    }

    method PackMoHeader(raw: ByteVector)
      requires Valid() && id == MO_HEADER
      modifies this, raw
      ensures raw.bytes == old(raw.bytes) + Pack(old(content))
      ensures content == old(content) && length == MO_HEADER_LENGTH
    {
      hide Put16, Put32, FromSigned;
      ghost var e := content;
      length := MO_HEADER_LENGTH;
      PackPrefix(raw);
      ghost var start := raw.bytes;
      ghost var body := [];
      raw.PushAll(Put32(content.cdrRef));
      body := body + Put32(content.cdrRef);
      assert raw.bytes == start + body;
      raw.PushAll(content.imei);
      body := body + content.imei;
      assert raw.bytes == start + body;
      raw.PushBack(content.sessionStatus);
      body := body + [content.sessionStatus];
      assert raw.bytes == start + body;
      raw.PushAll(Put16(content.momsn));
      body := body + Put16(content.momsn);
      assert raw.bytes == start + body;
      raw.PushAll(Put16(content.mtmsn));
      body := body + Put16(content.mtmsn);
      assert raw.bytes == start + body;
      raw.PushAll(Put32(content.sessionTime));
      body := body + Put32(content.sessionTime);
      assert raw.bytes == start + body;
      assert body == Body(e);
    }

    method PackMoPayload(raw: ByteVector)
      requires Valid() && id == MO_PAYLOAD
      modifies this, raw
      ensures raw.bytes == old(raw.bytes) + Pack(old(content))
      ensures content == Normalized(old(content)) && length == LengthField(old(content))
    {
      length := |content.moPayload| % 0x1_0000;
      if length > MAX_MO_PAYLOAD {
        length := MAX_MO_PAYLOAD;
        content := MoPayload(content.moPayload[..length]);
      }
      PackPrefix(raw);
      raw.PushAll(content.moPayload);
    }

    method PackMoConfirmation(raw: ByteVector)
      requires Valid() && id == MO_CONFIRMATION
      modifies this, raw
      ensures raw.bytes == old(raw.bytes) + Pack(old(content))
      ensures content == old(content) && length == MO_CONFIRMATION_LENGTH
    {
      length := MO_CONFIRMATION_LENGTH;
      PackPrefix(raw);
      raw.PushBack(content.moStatus);
    }

    method PackMtHeader(raw: ByteVector)
      requires Valid() && id == MT_HEADER && content.flags.Host?
      modifies this, raw
      ensures raw.bytes == old(raw.bytes) + Pack(old(content))
      ensures content == old(content) && length == MT_HEADER_LENGTH
    {
      hide Put16, Put32, FromSigned;
      ghost var e := content;
      length := MT_HEADER_LENGTH;
      PackPrefix(raw);
      ghost var start := raw.bytes;
      ghost var body := [];
      raw.PushAll(Put32(content.clientId));
      body := body + Put32(content.clientId);
      assert raw.bytes == start + body;
      raw.PushAll(content.mtImei);
      body := body + content.mtImei;
      assert raw.bytes == start + body;
      raw.PushAll(Put16(content.flags.word));
      body := body + Put16(content.flags.word);
      assert raw.bytes == start + body;
      assert body == Body(e);
    }

    method PackMtPayload(raw: ByteVector)
      requires Valid() && id == MT_PAYLOAD
      modifies this, raw
      ensures raw.bytes == old(raw.bytes) + Pack(old(content))
      ensures content == Normalized(old(content)) && length == LengthField(old(content))
    {
      length := |content.mtPayload| % 0x1_0000;
      if length > MAX_MT_PAYLOAD {
        length := MAX_MT_PAYLOAD;
        content := MtPayload(content.mtPayload[..length]);
      }
      PackPrefix(raw);
      raw.PushAll(content.mtPayload);
    }

    method PackMtConfirmation(raw: ByteVector)
      requires Valid() && id == MT_CONFIRMATION
      modifies this, raw
      ensures raw.bytes == old(raw.bytes) + Pack(old(content))
      ensures content == old(content) && length == MT_CONFIRMATION_LENGTH
    {
      hide Put16, Put32, FromSigned;
      ghost var e := content;
      length := MT_CONFIRMATION_LENGTH;
      PackPrefix(raw);
      ghost var start := raw.bytes;
      ghost var body := [];
      raw.PushAll(Put32(content.confirmedId));
      body := body + Put32(content.confirmedId);
      assert raw.bytes == start + body;
      raw.PushAll(content.confirmedImei);
      body := body + content.confirmedImei;
      assert raw.bytes == start + body;
      raw.PushAll(Put32(content.autoRef));
      body := body + Put32(content.autoRef);
      assert raw.bytes == start + body;
      raw.PushAll(Put16(FromSigned(content.status)));
      body := body + Put16(FromSigned(content.status));
      assert raw.bytes == start + body;
      assert body == Body(e);
    }

    method PackMtPriority(raw: ByteVector)
      requires Valid() && id == MT_PRIORITY
      modifies this, raw
      ensures raw.bytes == old(raw.bytes) + Pack(old(content))
      ensures content == Normalized(old(content)) && length == MT_PRIORITY_LENGTH
    {
      if content.priority > MIN_PRIORITY || content.priority < MAX_PRIORITY {
        content := MtPriority(MIN_PRIORITY);
      }
      length := MT_PRIORITY_LENGTH;
      PackPrefix(raw);
      raw.PushAll(Put16(content.priority));
    }

    /** The virtual call. */
    method PackInto(raw: ByteVector)
      requires Valid() && Packable(content)
      modifies this, raw
      ensures Valid()
      ensures raw.bytes == old(raw.bytes) + Pack(old(content))
      ensures content == Normalized(old(content)) && length == LengthField(old(content))
    {
      if id == MO_HEADER {
        PackMoHeader(raw);
      } else if id == MO_PAYLOAD {
        PackMoPayload(raw);
      } else if id == MO_CONFIRMATION {
        PackMoConfirmation(raw);
      } else if id == MT_HEADER {
        PackMtHeader(raw);
      } else if id == MT_PAYLOAD {
        PackMtPayload(raw);
      } else if id == MT_CONFIRMATION {
        PackMtConfirmation(raw);
      } else {
        PackMtPriority(raw);
      }
    }
  }
}
