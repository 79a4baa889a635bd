/** The format byte by byte. What the other modules say through constants and reading functions is said here in the
    numbers of the format alone: ids, lengths, limits and the position of every field. */
module Layout {
  import opened BigEndian
  import opened Elements
  import opened Codec
  import opened Messages

  /** The four bytes of a big-endian integer. */
  function Four(n: word32): (r: seq<byte>)
    ensures |r| == 4
  {
    [n / 0x100_0000, n / 0x1_0000 % 0x100, n / 0x100 % 0x100, n % 0x100]
  }

  function Two(n: word16): (r: seq<byte>)
    ensures |r| == 2
  {
    [n / 0x100, n % 0x100]
  }

  // ------------------------------------------------------------------- ids

  /** The ids of the format, the kind of element each stands for, and the class of message it makes. */
  lemma IdsOfFormat(id: byte)
    ensures KnownId(id) <==> id in {0x01, 0x02, 0x03, 0x05, 0x41, 0x42, 0x44, 0x46}
    ensures ClassOf(id) == if 0x01 <= id <= 0x05 then MoMessage
                           else if id == 0x44 then MtConfirmMessage
                           else if id in {0x41, 0x42, 0x43, 0x46} then MtMessage
                           else UnknownMessage
  {
  }

  lemma KindOfId(e: Element)
    ensures IdOf(e) == match e
                       case MoHeader(_, _, _, _, _, _) => 0x01
                       case MoPayload(_) => 0x02
                       case MoLocation => 0x03
                       case MoConfirmation(_) => 0x05
                       case MtHeader(_, _, _) => 0x41
                       case MtPayload(_) => 0x42
                       case MtConfirmation(_, _, _, _) => 0x44
                       case MtPriority(_) => 0x46
  {
  }

  // --------------------------------------------------------------- packing

  lemma WordBytes(n: word32)
    ensures Put32(n) == Four(n)
  {
    var hi, lo := n / 0x1_0000, n % 0x1_0000;
    assert hi / 0x100 == n / 0x100_0000;
    assert n == hi * 0x1_0000 + lo;
    assert n / 0x100 == hi * 0x100 + lo / 0x100;
  }

  lemma MoHeaderLayout(e: Element)
    requires e.MoHeader?
    ensures Pack(e) == [0x01, 0x00, 0x1C] + Four(e.cdrRef) + e.imei + [e.sessionStatus] + Two(e.momsn) + Two(e.mtmsn)
                       + Four(e.sessionTime)
  {
    hide Put32, Four;
    WordBytes(e.cdrRef);
    WordBytes(e.sessionTime);
    assert Put16(28) == [0x00, 0x1C];
  }

  lemma MtHeaderLayout(e: Element)
    requires e.MtHeader? && e.flags.Host?
    ensures Pack(e) == [0x41, 0x00, 0x15] + Four(e.clientId) + e.mtImei + Two(e.flags.word)
  {
    hide Put32, Four;
    WordBytes(e.clientId);
    assert Put16(21) == [0x00, 0x15];
  }

  lemma MtConfirmationLayout(e: Element)
    requires e.MtConfirmation?
    ensures Pack(e) == [0x44, 0x00, 0x19] + Four(e.confirmedId) + e.confirmedImei + Four(e.autoRef)
                       + Two(if e.status < 0 then 0x1_0000 + e.status else e.status)
  {
    hide Put32, Four;
    WordBytes(e.confirmedId);
    WordBytes(e.autoRef);
    assert Put16(25) == [0x00, 0x19];
  }

  lemma PayloadLayout(e: Element)
    requires e.MoPayload? || e.MtPayload?
    ensures var p := if e.MoPayload? then e.moPayload else e.mtPayload;
            var id: byte, max: word16 := if e.MoPayload? then 0x02 else 0x42, if e.MoPayload? then 1960 else 1890;
            Pack(e) == if |p| % 0x1_0000 > max then [id] + Two(max) + p[..max] else [id] + Two(|p| % 0x1_0000) + p
  {
  }

  lemma SmallLayout(e: Element)
    requires e.MoConfirmation? || e.MtPriority?
    ensures e.MoConfirmation? ==> Pack(e) == [0x05, 0x00, 0x01, e.moStatus]
    ensures e.MtPriority? ==> Pack(e) == [0x46, 0x00, 0x02, 0x00, if 1 <= e.priority <= 5 then e.priority else 5]
  {
  }

  /** What each element looks like on the wire. */
  lemma PackedLayout(e: Element)
    requires Packable(e)
    ensures Pack(e) ==
            match e
            case MoHeader(cdr, imei, st, momsn, mtmsn, time) =>
              [0x01, 0x00, 0x1C] + Four(cdr) + imei + [st] + Two(momsn) + Two(mtmsn) + Four(time)
            case MoPayload(p) =>
              if |p| % 0x1_0000 > 1960 then [0x02] + Two(1960) + p[..1960] else [0x02] + Two(|p| % 0x1_0000) + p
            case MoLocation => []
            case MoConfirmation(st) => [0x05, 0x00, 0x01, st]
            case MtHeader(id, imei, flags) => [0x41, 0x00, 0x15] + Four(id) + imei + Two(flags.word)
            case MtPayload(p) =>
              if |p| % 0x1_0000 > 1890 then [0x42] + Two(1890) + p[..1890] else [0x42] + Two(|p| % 0x1_0000) + p
            case MtConfirmation(id, imei, ref, st) =>
              [0x44, 0x00, 0x19] + Four(id) + imei + Four(ref) + Two(if st < 0 then 0x1_0000 + st else st)
            case MtPriority(p) => [0x46, 0x00, 0x02, 0x00, if 1 <= p <= 5 then p else 5]
  {
    hide Body, LengthField, Four, Two;
    match e {
      case MoHeader(_, _, _, _, _, _) => MoHeaderLayout(e);
      case MoPayload(_) => PayloadLayout(e);
      case MoConfirmation(_) => SmallLayout(e);
      case MtHeader(_, _, _) => MtHeaderLayout(e);
      case MtPayload(_) => PayloadLayout(e);
      case MtConfirmation(_, _, _, _) => MtConfirmationLayout(e);
      case MtPriority(_) => SmallLayout(e);
    }
  }

  /** What packing leaves in the element. */
  lemma PackedContent(e: Element)
    ensures Normalized(e) ==
            match e
            case MoPayload(p) => MoPayload(if |p| % 0x1_0000 > 1960 then p[..1960] else p)
            case MtPayload(p) => MtPayload(if |p| % 0x1_0000 > 1890 then p[..1890] else p)
            case MtPriority(p) => MtPriority(if 1 <= p <= 5 then p else 5)
            case _ => e
  {
  }

  // ------------------------------------------------------------- unpacking

  function HalfAt(data: seq<byte>, i: nat): int
    requires i + 2 <= |data|
  {
    var first: int := data[i];
    first * 0x100 + data[i + 1]
  }

  function WordAt(data: seq<byte>, i: nat): int
    requires i + 4 <= |data|
  {
    HalfAt(data, i) * 0x1_0000 + HalfAt(data, i + 2)
  }

  lemma ReadingWords(data: seq<byte>, i: nat)
    ensures i + 2 <= |data| ==> Get16(data, i) == HalfAt(data, i)
    ensures i + 4 <= |data| ==> Get32(data, i) == WordAt(data, i)
  {
  }

  /** Which elements of fixed length are accepted, `data` being what follows the id. */
  lemma AcceptedFixed(id: byte, data: seq<byte>, size: nat)
    requires id in {0x01, 0x05, 0x41, 0x44, 0x46} && size <= |data|
    ensures var n := match id case 0x01 => 28 case 0x05 => 1 case 0x41 => 21 case 0x44 => 25 case _ => 2;
            && (Unpack(id, data, size).Consumed? <==> size >= n + 2 && data[0] == 0 && data[1] == n)
            && (Unpack(id, data, size).Consumed? ==> Unpack(id, data, size).n == n + 2)
            && (!Unpack(id, data, size).Consumed? ==> Unpack(id, data, size) == Rejected)
  {
    hide Fields;
  }

  /** Where the fields of an accepted element are read. */
  lemma FieldsRead(id: byte, data: seq<byte>, size: nat)
    requires id in {0x01, 0x05, 0x41, 0x44, 0x46} && size <= |data|
    requires Unpack(id, data, size).Consumed?
    ensures var e := Unpack(id, data, size).e;
            match id
            case 0x01 =>
              |data| >= 30 && e == MoHeader(WordAt(data, 2), data[6..21], data[21], HalfAt(data, 22),
                                            HalfAt(data, 24), WordAt(data, 26))
            case 0x05 => |data| >= 3 && e == MoConfirmation(data[2])
            case 0x41 => |data| >= 23 && e == MtHeader(WordAt(data, 2), data[6..21], Wire(data[21], data[22]))
            case 0x44 =>
              |data| >= 27
              && var st := HalfAt(data, 25);
                 e == MtConfirmation(WordAt(data, 2), data[6..21], WordAt(data, 21),
                                     if st >= 0x8000 then st - 0x1_0000 else st)
            case _ => |data| >= 4 && e == MtPriority(HalfAt(data, 2))
  {
  }

  /** Which payloads are accepted, and which are left open. */
  lemma AcceptedPayload(id: byte, data: seq<byte>, size: nat)
    requires id in {0x02, 0x42} && size <= |data|
    ensures var max := if id == 0x02 then 1960 else 1890;
            if size < 2 || !(1 <= HalfAt(data, 0) <= max) || size < HalfAt(data, 0) then
              Unpack(id, data, size) == Rejected
            else
              var n := HalfAt(data, 0);
              if |data| < n + 2 then Unpack(id, data, size) == Unspecified
              else Unpack(id, data, size)
                   == Consumed(if id == 0x02 then MoPayload(data[2..n + 2]) else MtPayload(data[2..n + 2]), n + 2)
  {
  }

  /** Which location elements pass the two checks. */
  lemma AcceptedLocation(data: seq<byte>, size: nat)
    requires size <= |data|
    ensures Unpack(0x03, data, size) == if size >= 13 && data[0] == 0 && data[1] == 11 then Unspecified else Rejected
  {
  }

  // -------------------------------------------------------------- messages

  lemma {:induction false} SumIsBytes(es: seq<Element>)
    requires AllPackable(es) && forall e :: e in es ==> |Pack(e)| == 3 + LengthField(e)
    ensures SumLengths(es) == |PackAll(es)|
  {
    hide Pack, Packable, LengthField;
    if es != [] {
      assert forall e :: e in es[1..] ==> e in es;
      SumIsBytes(es[1..]);
      assert es[0] in es;
    }
  }

  /** A frame: protocol number 1, the number of bytes that follow in 16 bits, the elements; for all payloads of
      less than 65536 bytes. */
  lemma FrameLayout(es: seq<Element>)
    requires AllPackable(es)
    requires forall e :: e in es ==> && (e.MoPayload? ==> |e.moPayload| < 0x1_0000)
                                     && (e.MtPayload? ==> |e.mtPayload| < 0x1_0000)
    ensures Frame(es) == [0x01] + Two(|PackAll(es)| % 0x1_0000) + PackAll(es)
  {
    hide Pack, LengthField;
    forall e | e in es
      ensures |Pack(e)| == 3 + LengthField(e)
    {
      LengthFieldExact(e);
    }
    SumIsBytes(es);
  }

  /** An id, a length and so many bytes. */
  datatype Block = Block(id: byte, content: seq<byte>)

  predicate AllShort(blocks: seq<Block>) {
    forall i :: 0 <= i < |blocks| ==> |blocks[i].content| < 0x1_0000
  }

  function Laid(blocks: seq<Block>): seq<byte>
    requires AllShort(blocks)
  {
    if blocks == [] then []
    else [blocks[0].id] + Two(|blocks[0].content|) + blocks[0].content + Laid(blocks[1..])
  }

  /** Nothing, or a block that the end of the message cuts off. */
  predicate CutOff(cut: seq<byte>) {
    |cut| < 3 || |cut| < 3 + HalfAt(cut, 1)
  }

  lemma OneMoreBlock(b: Block, blocks: seq<Block>)
    requires |b.content| < 0x1_0000 && AllShort(blocks)
    ensures AllShort([b] + blocks) && Laid([b] + blocks) == [b.id] + Two(|b.content|) + b.content + Laid(blocks)
  {
    assert ([b] + blocks)[1..] == blocks;
  }

  lemma NoBlocks()
    ensures Laid([]) == []
  {
  }

  /** Every message is a row of blocks and at its end perhaps one that is cut off. */
  lemma {:induction false} AllAreLaid(data: seq<byte>)
    ensures exists blocks, cut :: AllShort(blocks) && CutOff(cut) && data == Laid(blocks) + cut
    decreases |data|
  {
    hide Laid;
    if CutOff(data) {
      NoBlocks();
      assert AllShort([]) && data == Laid([]) + data;
    } else {
      var n := HalfAt(data, 1);
      var first, rest := Block(data[0], data[3..3 + n]), data[3 + n..];
      AllAreLaid(rest);
      var blocks, cut :| AllShort(blocks) && CutOff(cut) && rest == Laid(blocks) + cut;
      var all := [first] + blocks;
      assert data[..3 + n] == [data[0]] + Two(n) + data[3..3 + n];
      OneMoreBlock(first, blocks);
      assert data == data[..3 + n] + rest;
      assert data == (data[..3 + n] + Laid(blocks)) + cut;
      assert AllShort(all) && data == Laid(all) + cut;
    }
  }

  function IdsOf(blocks: seq<Block>, cut: seq<byte>): (r: seq<byte>)
  {
    seq(|blocks|, i requires 0 <= i < |blocks| => blocks[i].id) + if cut == [] then [] else [cut[0]]
  }

  lemma NextOfCut(data: seq<byte>, at: nat, cut: seq<byte>)
    requires at < |data| && data[at..] == cut && CutOff(cut)
    ensures NextElement(data, at) >= |data| && data[at] == cut[0]
  {
    if |cut| >= 3 {
      assert cut[1] == data[at + 1] && cut[2] == data[at + 2];
    }
  }

  lemma NextOfBlock(before: seq<byte>, b: Block, rest: seq<byte>)
    requires |b.content| < 0x1_0000
    ensures var data := before + ([b.id] + Two(|b.content|) + b.content) + rest;
            NextElement(data, |before|) == |before| + 3 + |b.content| && data[|before|] == b.id
  {
    var data := before + ([b.id] + Two(|b.content|) + b.content) + rest;
    assert data[|before| + 1] == |b.content| / 0x100 && data[|before| + 2] == |b.content| % 0x100;
  }

  lemma {:induction false} WalkOfLaid(before: seq<byte>, blocks: seq<Block>, cut: seq<byte>)
    requires AllShort(blocks) && CutOff(cut)
    ensures var walk := LengthWalk(before + Laid(blocks) + cut, |before|);
            |walk| == |IdsOf(blocks, cut)| && forall i :: 0 <= i < |walk| ==> walk[i].id == IdsOf(blocks, cut)[i]
    decreases |blocks|
  {
    hide LengthWalk, NextElement, Get16;
    var data, at := before + Laid(blocks) + cut, |before|;
    if blocks == [] {
      assert data == before + cut;
      if cut != [] {
        WalkUnfolds(data, at);
        NextOfCut(data, at, cut);
      }
      WalkIsOver(data, if cut == [] then at else NextElement(data, at));
    } else {
      var b, rest := blocks[0], Laid(blocks[1..]) + cut;
      var head := [b.id] + Two(|b.content|) + b.content;
      assert data == before + head + rest;
      WalkUnfolds(data, at);
      NextOfBlock(before, b, rest);
      WalkOfLaid(before + head, blocks[1..], cut);
      assert before + head + Laid(blocks[1..]) + cut == data;
      assert IdsOf(blocks, cut) == [b.id] + IdsOf(blocks[1..], cut);
    }
  }

  /** The category of every message, by its bytes: the class that the ids of all its blocks share, the one cut off
      by the end included. With `AllAreLaid` this covers every message. */
  lemma CategoryLayout(blocks: seq<Block>, cut: seq<byte>, c: Category)
    requires AllShort(blocks) && CutOff(cut) && c != UnknownMessage
    ensures CategoryOf(Laid(blocks) + cut) == c
       <==> && IdsOf(blocks, cut) != []
            && forall id :: id in IdsOf(blocks, cut) ==>
                 match c
                 case MoMessage => 0x01 <= id <= 0x05
                 case MtMessage => id in {0x41, 0x42, 0x43, 0x46}
                 case MtConfirmMessage => id == 0x44
  {
    hide LengthWalk, IdsOf, Laid;
    var data, ids := Laid(blocks) + cut, IdsOf(blocks, cut);
    assert [] + Laid(blocks) + cut == data;
    WalkOfLaid([], blocks, cut);
    var walk := LengthWalk(data, 0);
    forall id: byte {
      IdsOfFormat(id);
    }
    assert forall v :: v in walk ==> v.id in ids;
    forall id | id in ids
      ensures exists v :: v in walk && v.id == id
    {
      var i :| 0 <= i < |ids| && ids[i] == id;
      assert walk[i] in walk;
    }
  }
}
