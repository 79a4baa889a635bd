/** Message objects: lists of element objects that `parse` and `factory` fill and `serialize` packs in place. */
module MessageObjects {
  import opened BigEndian
  import opened Elements
  import opened Codec
  import opened Messages
  import opened ElementObjects

  /** The contents of a list of element objects. */
  function ContentsOf(elements: seq<InformationElement>): (r: seq<Element>)
    reads elements
    ensures |r| == |elements|
  {
    if elements == [] then [] else [elements[0].content] + ContentsOf(elements[1..])
  }

  lemma {:induction false} ContentsAt(elements: seq<InformationElement>, i: nat)
    requires i < |elements|
    ensures ContentsOf(elements)[i] == elements[i].content
  {
    if i > 0 {
      ContentsAt(elements[1..], i - 1);
      assert elements[1..][i - 1] == elements[i];
    }
  }

  lemma ContentsEverywhere(elements: seq<InformationElement>)
    ensures forall i :: 0 <= i < |elements| ==> ContentsOf(elements)[i] == elements[i].content
  {
    forall i | 0 <= i < |elements|
      ensures ContentsOf(elements)[i] == elements[i].content
    {
      ContentsAt(elements, i);
    }
  }

  ghost predicate Holds(elements: seq<InformationElement>, es: seq<Element>)
    reads elements
  {
    |elements| == |es| && forall i :: 0 <= i < |elements| ==> elements[i].content == es[i]
  }

  lemma HoldsContents(elements: seq<InformationElement>, es: seq<Element>)
    requires Holds(elements, es)
    ensures ContentsOf(elements) == es
  {
    ContentsEverywhere(elements);
  }

  lemma ParseStart(data: seq<byte>)
    ensures Parse(data) == Prepend([], ParseFrom(data, 0))
  {
    if Parse(data).Parsed? {
      assert [] + Parse(data).es == Parse(data).es;
    }
  }

  /** One turn of the parse loop, in terms of the result of the whole loop. */
  lemma ParseStep(data: seq<byte>, at: nat, es: seq<Element>)
    requires at < |data|
    ensures !KnownId(data[at]) ==> Prepend(es, ParseFrom(data, at)) == Failed(UnknownElement)
    ensures KnownId(data[at]) ==>
              match UnpackAt(data, at)
              case Rejected => Prepend(es, ParseFrom(data, at)) == Failed(BadElement)
              case Unspecified => Prepend(es, ParseFrom(data, at)) == Undetermined
              case Consumed(e, n) =>
                && n > 0 && at + 1 + n <= |data|
                && Prepend(es, ParseFrom(data, at)) == Prepend(es + [e], ParseFrom(data, at + 1 + n))
  {
    hide KnownId, Elements.Unpack;
    if KnownId(data[at]) && UnpackAt(data, at).Consumed? {
      UnpackAtShape(data, at);
      var u := UnpackAt(data, at);
      var rest := ParseFrom(data, at + 1 + u.n);
      if rest.Parsed? {
        assert es + ([u.e] + rest.es) == (es + [u.e]) + rest.es;
      }
    }
  }

  lemma ParseEnd(data: seq<byte>, at: nat, es: seq<Element>)
    requires at >= |data|
    ensures Prepend(es, ParseFrom(data, at)) == Parsed(es)
  {
    assert es + [] == es;
  }

  lemma PackNext(es: seq<Element>, i: nat)
    requires AllPackable(es) && i < |es|
    ensures PackAll(es[..i + 1]) == PackAll(es[..i]) + Pack(es[i])
    ensures SumLengths(es[..i + 1]) % 0x1_0000
         == (SumLengths(es[..i]) % 0x1_0000 + LengthField(es[i]) + PREFIX_SIZE) % 0x1_0000
  {
    hide Pack, Packable, LengthField;
    assert es[..i + 1] == es[..i] + [es[i]];
    PackAllAppend(es[..i], [es[i]]);
    SumLengthsAppend(es[..i], es[i]);
    assert [es[i]][1..] == [];
    assert PackAll([es[i]]) == Pack(es[i]) + PackAll([]);
  }

  lemma NothingPacked(es: seq<Element>)
    requires es == []
    ensures PackAll(es) == [] && SumLengths(es) == 0
  {
  }

  /** The id of an element tells its kind. */
  lemma KindsById(es: seq<Element>)
    ensures (exists e :: e in es && IdOf(e) == MO_HEADER) <==> exists e :: e in es && e.MoHeader?
    ensures (exists e :: e in es && IdOf(e) == MO_PAYLOAD) <==> exists e :: e in es && e.MoPayload?
    ensures (exists e :: e in es && IdOf(e) == MT_CONFIRMATION) <==> exists e :: e in es && e.MtConfirmation?
  {
    assert forall e: Element :: (IdOf(e) == MO_HEADER <==> e.MoHeader?) && (IdOf(e) == MO_PAYLOAD <==> e.MoPayload?)
                                && (IdOf(e) == MT_CONFIRMATION <==> e.MtConfirmation?);
  }

  /** Whether `parse` returned normally. */
  datatype ParseOutcome = Accepted | Thrown(error: ParseError) | NotDetermined

  /** Which arguments `factory` refuses depends on the IMEI and the payload only. */
  lemma FactoryChecks(msgId: word32, imei: seq<byte>, payload: Option<seq<byte>>, flags: word16, priority: word16)
    ensures match Factory(0, imei, payload, 0, 0)
            case Refused(e) => Factory(msgId, imei, payload, flags, priority) == Refused(e)
            case Built(_) =>
              && |imei| == IMEI_LENGTH && payload.Some?
              && Factory(msgId, imei, payload, flags, priority)
                 == Built([MtHeader(msgId, imei, Host(flags)), MtPayload(payload.value), MtPriority(priority)])
  {
  }

  class Message {
    var elements: seq<InformationElement>

    ghost predicate Valid()
      reads this, elements
    {
      && (forall i :: 0 <= i < |elements| ==> elements[i].Valid())
      && forall i, j :: 0 <= i < j < |elements| ==> elements[i] != elements[j]
    }

    function Contents(): seq<Element>
      reads this, elements
    {
      ContentsOf(elements)
    }

    constructor ()
      ensures Valid() && Contents() == []
    {
      elements := [];
    }

    /** The loop of both `parse` overloads. */
    method ParseElements(payload: seq<byte>) returns (r: ParseOutcome)
      modifies this
      ensures Valid() && forall e :: e in elements ==> fresh(e)
      ensures match Parse(payload)
              case Parsed(es) => r == Accepted && Contents() == es
              case Failed(error) => r == Thrown(error) && elements == []
              case Undetermined => r == NotDetermined
    {
      hide KnownId, Elements.Unpack, ParseFrom, ContentsOf;
      elements := [];
      var currPos := 0;
      ghost var es := [];
      ParseStart(payload);
      while currPos < |payload|
        invariant Valid() && forall e :: e in elements ==> fresh(e)
        invariant Holds(elements, es)
        invariant Parse(payload) == Prepend(es, ParseFrom(payload, currPos))
        decreases |payload| - currPos
      {
        var id := payload[currPos];
        ParseStep(payload, currPos, es);
        currPos := currPos + 1;
        if !KnownId(id) {
          elements := [];
          return Thrown(UnknownElement);
        }
        var element := new InformationElement(id);
        var offset := element.Unpack(payload[currPos..], (|payload| - currPos) % 0x1_0000);
        if offset == LeftOpen {
          return NotDetermined;
        }
        if offset.n == 0 {
          elements := [];
          return Thrown(BadElement);
        }
        elements := elements + [element];
        es := es + [element.content];
        currPos := currPos + offset.n;
      }
      ParseEnd(payload, currPos, es);
      HoldsContents(elements, es);
      return Accepted;
    }

    /** Whether some element has the id, as `find_if` finds out. */
    method Has(id: byte) returns (found: bool)
      requires Valid()
      ensures found <==> exists e :: e in Contents() && IdOf(e) == id
    {
      ContentsEverywhere(elements);
      for i := 0 to |elements|
        invariant forall j :: 0 <= j < i ==> IdOf(Contents()[j]) != id
      {
        if elements[i].id == id {
          assert Contents()[i] in Contents();
          return true;
        }
      }
      return false;
    }

    /** `parse` into a mobile-originated message. */
    method ParseMoMessage(payload: seq<byte>) returns (r: ParseOutcome)
      modifies this
      ensures Valid() && forall e :: e in elements ==> fresh(e)
      ensures match ParseMo(payload)
              case Parsed(es) => r == Accepted && Contents() == es
              case Failed(error) => r == Thrown(error) && elements == []
              case Undetermined => r == NotDetermined
    {
      hide Parse, ContentsOf, IdOf;
      r := ParseElements(payload);
      if r == Accepted {
        var header := Has(MO_HEADER);
        var body := Has(MO_PAYLOAD);
        KindsById(Contents());
        if !header {
          elements := [];
          return Thrown(NoHeader);
        }
        if !body {
          elements := [];
          return Thrown(NoPayload);
        }
      }
    }

    /** `parse` into a confirmation. */
    method ParseConfirmMessage(payload: seq<byte>) returns (r: ParseOutcome)
      modifies this
      ensures Valid() && forall e :: e in elements ==> fresh(e)
      ensures match ParseConfirmation(payload)
              case Parsed(es) => r == Accepted && Contents() == es
              case Failed(error) => r == Thrown(error) && elements == []
              case Undetermined => r == NotDetermined
    {
      hide Parse, ContentsOf, IdOf;
      r := ParseElements(payload);
      if r == Accepted {
        var confirmation := Has(MT_CONFIRMATION);
        KindsById(Contents());
        if !confirmation {
          elements := [];
          return Thrown(NoConfirmation);
        }
      }
    }

    /** The status of the first confirmation element. */
    method Status() returns (status: int16)
      requires Valid()
      ensures status == StatusOf(Contents())
    {
      ContentsEverywhere(elements);
      for i := 0 to |elements|
        invariant StatusOf(Contents()) == StatusOf(Contents()[i..])
      {
        if elements[i].id == MT_CONFIRMATION {
          return elements[i].content.status;
        }
        assert Contents()[i..][1..] == Contents()[i + 1..];
      }
      return -32767;
    }

    /** The loop of `serialize`: packs every element in place and sums up what the length field will hold. */
    method PackElements(raw: ByteVector) returns (length: word16)
      requires Valid() && AllPackable(Contents())
      modifies elements, raw
      ensures Valid() && elements == old(elements)
      ensures raw.bytes == old(raw.bytes) + PackAll(old(Contents()))
      ensures length == SumLengths(old(Contents())) % 0x1_0000
      ensures Contents() == AllNormalized(old(Contents()))
    {
      hide Pack, Packable, LengthField, Normalized, PackAll, SumLengths, ContentsOf;
      ghost var before, prefix := Contents(), raw.bytes;
      ContentsEverywhere(elements);
      length := 0;
      NothingPacked(before[..0]);
      for i := 0 to |elements|
        invariant Valid()
        invariant raw.bytes == prefix + PackAll(before[..i])
        invariant length == SumLengths(before[..i]) % 0x1_0000
        invariant forall j :: 0 <= j < i ==> elements[j].content == Normalized(before[j])
        invariant forall j :: i <= j < |elements| ==> elements[j].content == before[j]
      {
        elements[i].PackInto(raw);
        length := (length + elements[i].length + PREFIX_SIZE) % 0x1_0000;
        PackNext(before, i);
        assert raw.bytes == prefix + (PackAll(before[..i]) + Pack(before[i]));
      }
      assert before[..|elements|] == before;
      HoldsContents(elements, AllNormalized(before));
    }

    /** Assigns the frame header at the front of the buffer. */
    static method FillHeader(raw: ByteVector, length: word16)
      requires |raw.bytes| >= FRAME_HEADER
      modifies raw
      ensures raw.bytes == [PROTOCOL] + Put16(length) + old(raw.bytes[FRAME_HEADER..])
    {
      hide Put16;
      raw.Set(0, PROTOCOL);
      raw.Set(1, Put16(length)[0]);
      raw.Set(2, Put16(length)[1]);
    }

    /** Packs the elements behind a frame header that is filled in last. */
    method Serialize() returns (out: seq<byte>)
      requires Valid() && AllPackable(Contents())
      modifies elements
      ensures Valid() && elements == old(elements)
      ensures out == Frame(old(Contents()))
      ensures Contents() == AllNormalized(old(Contents()))
    {
      hide Put16, PackAll, SumLengths, ContentsOf, AllNormalized;
      ghost var before := Contents();
      var raw := new ByteVector();
      for i := 0 to FRAME_HEADER
        modifies raw
        invariant raw.bytes == seq(i, _ => 0)
      {
        raw.PushBack(0);
      }
      var length := PackElements(raw);
      assert raw.bytes[FRAME_HEADER..] == PackAll(before);
      FillHeader(raw, length);
      out := raw.bytes;
    }

    /** The checks of `factory`, in their order. */
    static method CheckArguments(imei: seq<byte>, payload: Option<seq<byte>>) returns (error: Option<FactoryError>)
      ensures error == match Factory(0, imei, payload, 0, 0) case Refused(e) => Some(e) case Built(_) => None
    {
      if |imei| != IMEI_LENGTH {
        return Some(InvalidImeiSize);
      }
      for i := 0 to |imei|
        invariant forall j :: 0 <= j < i ==> IsDigit(imei[j])
      {
        if !IsDigit(imei[i]) {
          return Some(BadImei);
        }
      }
      if payload.None? || |payload.value| < 1 {
        return Some(NoPayloadGiven);
      }
      if |payload.value| > MAX_MT_PAYLOAD {
        return Some(PayloadTooLarge);
      }
      return None;
    }

    /** A payload element filled byte by byte. */
    static method NewPayload(p: seq<byte>) returns (body: InformationElement)
      ensures fresh(body) && body.Valid() && body.content == MtPayload(p)
    {
      body := new InformationElement(MT_PAYLOAD);
      for i := 0 to |p|
        invariant body.Valid() && body.content == MtPayload(p[..i])
      {
        body.content := MtPayload(body.content.mtPayload + [p[i]]);
      }
      assert p[..|p|] == p;
    }

    /** The elements `factory` puts into a message. */
    method Assemble(msgId: word32, imei: Imei, payload: seq<byte>, flags: word16, priority: word16)
      modifies this
      ensures Valid() && forall e :: e in elements ==> fresh(e)
      ensures Contents() == [MtHeader(msgId, imei, Host(flags)), MtPayload(payload), MtPriority(priority)]
    {
      hide ContentsOf;
      var header := new InformationElement(MT_HEADER);
      header.content := MtHeader(msgId, imei, Host(flags));
      var body := NewPayload(payload);
      var prio := new InformationElement(MT_PRIORITY);
      prio.content := MtPriority(priority);
      elements := [header, body, prio];
      HoldsContents(elements, [header.content, body.content, prio.content]);
    }

    /** `factory`: checks the arguments, then replaces the elements of the message. */
    method FillFromFactory(msgId: word32, imei: seq<byte>, payload: Option<seq<byte>>, flags: word16, priority: word16)
      returns (error: Option<FactoryError>)
      requires Valid()
      modifies this
      ensures Valid()
      ensures match Factory(msgId, imei, payload, flags, priority)
              case Refused(e) => error == Some(e) && elements == old(elements) && Contents() == old(Contents())
              case Built(es) => error == None && Contents() == es && forall e :: e in elements ==> fresh(e)
    {
      hide ContentsOf, Factory;
      FactoryChecks(msgId, imei, payload, flags, priority);
      error := CheckArguments(imei, payload);
      if error == None {
        Assemble(msgId, imei, payload.value, flags, priority);
      }
    }
  }
}
