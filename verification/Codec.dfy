/** The two walks over a message body: `messageCategory`, which follows the length fields, and the loop the two
    `parse` overloads share, which follows what `unpack` consumed. */
module Codec {
  import opened BigEndian
  import opened Elements

  datatype Category = MoMessage | MtMessage | MtConfirmMessage | UnknownMessage

  datatype ParseError = UnknownElement | BadElement | NoHeader | NoPayload | NoConfirmation

  /** Outcome of `parse`: the elements, the exception, or `Undetermined` where an element's outcome is. */
  datatype Parsed = Parsed(es: seq<Element>) | Failed(error: ParseError) | Undetermined

  /** An element's position and id, as a walk meets it. */
  datatype Visit = Visit(at: nat, id: byte)

  predicate IsMoElem(id: byte) {
    MO_HEADER <= id <= MO_CONFIRMATION
  }

  predicate IsMtElem(id: byte) {
    MT_HEADER <= id <= MT_PRIORITY && id != 0x45
  }

  predicate IsMtConfirm(id: byte) {
    id == MT_CONFIRMATION
  }

  // --------------------------------------------------------------- category

  function ClassOf(id: byte): Category {
    if IsMoElem(id) then MoMessage
    else if IsMtConfirm(id) then MtConfirmMessage
    else if IsMtElem(id) then MtMessage
    else UnknownMessage
  }

  /** The elements met by following the length fields from `at`. */
  function LengthWalk(data: seq<byte>, at: nat): seq<Visit>
    decreases |data| - at
  {
    if at >= |data| then []
    else [Visit(at, data[at])] + (if at + PREFIX_SIZE > |data| then []
                                  else LengthWalk(data, at + PREFIX_SIZE + Get16(data, at + 1)))
  }

  predicate Uniform(vs: seq<Visit>, c: Category) {
    forall v :: v in vs ==> ClassOf(v.id) == c
  }

  /** The category of a message: the one class all its elements have. */
  function CategoryOf(data: seq<byte>): Category {
    var vs := LengthWalk(data, 0);
    if vs != [] && Uniform(vs, ClassOf(vs[0].id)) then ClassOf(vs[0].id) else UnknownMessage
  }

  ghost predicate ReachedBy(data: seq<byte>, seen: seq<Visit>, at: nat, category: Category) {
    && LengthWalk(data, 0) == seen + LengthWalk(data, at)
    && (seen == [] <==> category == UnknownMessage)
    && Uniform(seen, category)
  }

  /** The walk has reached `at`, and the elements met so far have one class, `category`. */
  ghost predicate Reached(data: seq<byte>, at: nat, category: Category) {
    exists seen :: ReachedBy(data, seen, at, category)
  }

  /** The position of the element after the one at `at`. */
  function NextElement(data: seq<byte>, at: nat): (next: nat)
    requires at < |data|
    ensures next > at
  {
    // A length field cut off by the end of the message ends the walk whatever its value.
    if at + PREFIX_SIZE > |data| then |data| else at + PREFIX_SIZE + Get16(data, at + 1)
  }

  lemma WalkUnfolds(data: seq<byte>, at: nat)
    requires at < |data|
    ensures LengthWalk(data, at) == [Visit(at, data[at])] + LengthWalk(data, NextElement(data, at))
  {
    hide Get16;
  }

  lemma WalkStart(data: seq<byte>)
    ensures Reached(data, 0, UnknownMessage)
  {
    assert ReachedBy(data, [], 0, UnknownMessage);
  }

  lemma WalkStep(data: seq<byte>, at: nat, category: Category)
    requires at < |data| && Reached(data, at, category)
    requires category == UnknownMessage || ClassOf(data[at]) == category
    requires ClassOf(data[at]) != UnknownMessage
    ensures Reached(data, NextElement(data, at), ClassOf(data[at]))
  {
    hide LengthWalk, NextElement, Get16;
    var seen :| ReachedBy(data, seen, at, category);
    var more, rest := [Visit(at, data[at])], LengthWalk(data, NextElement(data, at));
    WalkUnfolds(data, at);
    assert seen + (more + rest) == (seen + more) + rest;
    assert ReachedBy(data, seen + more, NextElement(data, at), ClassOf(data[at]));
  }

  lemma WalkMixed(data: seq<byte>, at: nat, category: Category)
    requires at < |data| && Reached(data, at, category)
    requires ClassOf(data[at]) == UnknownMessage || (category != UnknownMessage && ClassOf(data[at]) != category)
    ensures CategoryOf(data) == UnknownMessage
  {
    var seen :| ReachedBy(data, seen, at, category);
    var vs, v := LengthWalk(data, 0), Visit(at, data[at]);
    assert LengthWalk(data, at)[0] == v;
    assert vs[|seen|] == v && v in vs;
    assert seen != [] ==> vs[0] == seen[0] && seen[0] in seen;
  }

  lemma WalkEnd(data: seq<byte>, at: nat, category: Category)
    requires at >= |data| && Reached(data, at, category)
    ensures CategoryOf(data) == category
  {
    var seen :| ReachedBy(data, seen, at, category);
    assert LengthWalk(data, 0) == seen;
    assert seen != [] ==> seen[0] in seen;
  }

  /** The loop over the elements. The category found so far stays until an element of another class. */
  method MessageCategory(payload: seq<byte>) returns (category: Category)
    ensures category == CategoryOf(payload)
  {
    hide Reached, CategoryOf, NextElement;
    category := UnknownMessage;
    var currPos := 0;
    WalkStart(payload);
    while currPos < |payload|
      invariant Reached(payload, currPos, category)
      decreases |payload| - currPos
    {
      var id := payload[currPos];
      ghost var found := category;
      if IsMoElem(id) {
        if category == UnknownMessage {
          category := MoMessage;
        } else if category != MoMessage {
          WalkMixed(payload, currPos, found);
          return UnknownMessage;
        }
      } else if IsMtElem(id) {
        if category == UnknownMessage {
          category := MtMessage;
          if IsMtConfirm(id) {
            category := MtConfirmMessage;
          }
        } else if IsMtConfirm(id) {
          if category != MtConfirmMessage {
            WalkMixed(payload, currPos, found);
            return UnknownMessage;
          }
        } else if category != MtMessage {
          WalkMixed(payload, currPos, found);
          return UnknownMessage;
        }
      } else {
        WalkMixed(payload, currPos, found);
        return UnknownMessage;
      }
      WalkStep(payload, currPos, found);
      currPos := NextElement(payload, currPos);
    }
    WalkEnd(payload, currPos, category);
  }

  // ---------------------------------------------------------------- parsing

  /** The bytes announced to `unpack` by a caller that has passed an id at `at`: a 16-bit parameter. */
  function Announced(data: seq<byte>, at: nat): nat
    requires at < |data|
  {
    (|data| - at - 1) % 0x1_0000
  }

  function UnpackAt(data: seq<byte>, at: nat): Unpacked
    requires at < |data| && KnownId(data[at])
  {
    Unpack(data[at], data[at + 1..], Announced(data, at))
  }

  function Prepend(acc: seq<Element>, r: Parsed): Parsed {
    if r.Parsed? then Parsed(acc + r.es) else r
  }

  /** The shared loop from position `at`. */
  function ParseFrom(data: seq<byte>, at: nat): Parsed
    decreases |data| - at
  {
    if at >= |data| then Parsed([])
    else if !KnownId(data[at]) then Failed(UnknownElement)
    else
      match UnpackAt(data, at)
      case Rejected => Failed(BadElement)
      case Unspecified => Undetermined
      case Consumed(e, n) => Prepend([e], ParseFrom(data, at + 1 + n))
  }

  function Parse(data: seq<byte>): Parsed {
    ParseFrom(data, 0)
  }

  function ParseMo(data: seq<byte>): Parsed {
    var r := Parse(data);
    if !r.Parsed? then r
    else if forall e :: e in r.es ==> !e.MoHeader? then Failed(NoHeader)
    else if forall e :: e in r.es ==> !e.MoPayload? then Failed(NoPayload)
    else r
  }

  function ParseConfirmation(data: seq<byte>): Parsed {
    var r := Parse(data);
    if !r.Parsed? then r
    else if forall e :: e in r.es ==> !e.MtConfirmation? then Failed(NoConfirmation)
    else r
  }

  /** The status a parsed confirmation reports: that of its first confirmation element. */
  function StatusOf(es: seq<Element>): int16 {
    if es == [] then -32767
    else if es[0].MtConfirmation? then es[0].status
    else StatusOf(es[1..])
  }

  // ----------------------------------------------------- packing and parsing

  /** Whether the announced sizes suffice at every element of the packing of `es`. */
  predicate Fits(es: seq<Element>)
    requires AllInRange(es)
  {
    es == [] || ((|PackAll(es)| - 1) % 0x1_0000 >= Demand(es[0]) && Fits(es[1..]))
  }

  lemma {:induction false} RoundTripFrom(before: seq<byte>, es: seq<Element>)
    requires AllInRange(es)
    ensures ParseFrom(before + PackAll(es), |before|)
         == if Fits(es) then Parsed(AllAsReceived(es)) else Failed(BadElement)
    decreases |es|
  {
    hide Pack, Packable, Unpack, Demand, AsReceived;
    var data := before + PackAll(es);
    var at := |before|;
    if es != [] {
      var e, rest := es[0], PackAll(es[1..]);
      assert data[at..] == Pack(e) + rest;
      assert data[at + 1..] == (Pack(e) + rest)[1..];
      UnpackPacked(e, rest, Announced(data, at));
      if Announced(data, at) >= Demand(e) {
        assert data == (before + Pack(e)) + rest;
        RoundTripFrom(before + Pack(e), es[1..]);
        assert AllAsReceived(es) == [AsReceived(e)] + AllAsReceived(es[1..]);
      }
    }
  }

  /** Parsing inverts packing for every list of in-range elements, exactly when the sizes announced fit. */
  lemma RoundTrip(es: seq<Element>)
    requires AllInRange(es)
    ensures Parse(PackAll(es)) == if Fits(es) then Parsed(AllAsReceived(es)) else Failed(BadElement)
  {
    assert [] + PackAll(es) == PackAll(es);
    RoundTripFrom([], es);
  }

  /** Whatever a 16-bit length can frame fits. */
  lemma {:induction false} ShortFits(es: seq<Element>)
    requires AllInRange(es) && |PackAll(es)| <= 0x1_0000
    ensures Fits(es)
    decreases |es|
  {
    hide Body;
    if es != [] {
      PackShape(es[0]);
      ShortFits(es[1..]);
    }
  }

  lemma {:induction false} RepeatedSize(e: Element, n: nat)
    requires InRange(e)
    ensures |PackAll(seq(n, _ => e))| == n * |Pack(e)|
  {
    hide Pack, Packable;
    var es := seq(n, _ => e);
    if n > 0 {
      assert es[1..] == seq(n - 1, _ => e);
      RepeatedSize(e, n - 1);
    }
  }

  /** A longer list can fail: 2115 headers make 65565 bytes, so `unpack` is told 28 bytes follow the first id
      and refuses to read the 30 that do. */
  lemma LongListRejected()
    ensures var h := MoHeader(0, seq(IMEI_LENGTH, _ => 0), 0, 0, 0, 0);
            var es := seq(2115, _ => h);
            AllInRange(es) && Parse(PackAll(es)) == Failed(BadElement)
  {
    var h := MoHeader(0, seq(IMEI_LENGTH, _ => 0), 0, 0, 0, 0);
    var es := seq(2115, _ => h);
    RepeatedSize(h, 2115);
    RoundTrip(es);
  }

  lemma SameReceived(a: Element, b: Element)
    requires Packable(a) && Packable(b) && AsReceived(a) == AsReceived(b)
    ensures a == b
  {
  }

  /** Packing is uniquely decodable: different lists of in-range elements never share their bytes. */
  lemma {:induction false} PackAllInjective(a: seq<Element>, b: seq<Element>)
    requires AllInRange(a) && AllInRange(b) && PackAll(a) == PackAll(b)
    ensures a == b
  {
    hide Unpack, Body, AsReceived, Normalized;
    if a != [] && b != [] {
      var ra, rb := PackAll(a[1..]), PackAll(b[1..]);
      assert Pack(a[0]) + ra == Pack(b[0]) + rb;
      assert IdOf(a[0]) == (Pack(a[0]) + ra)[0] == IdOf(b[0]);
      PackShape(a[0]);
      PackShape(b[0]);
      UnpackPacked(a[0], ra, |PackAll(a)| - 1);
      UnpackPacked(b[0], rb, |PackAll(b)| - 1);
      SameReceived(a[0], b[0]);
      assert ra == PackAll(a)[|Pack(a[0])|..] == rb;
      PackAllInjective(a[1..], b[1..]);
      assert a == [a[0]] + a[1..] && b == [b[0]] + b[1..];
    }
  }

  lemma UnpackAtShape(data: seq<byte>, at: nat)
    requires at < |data| && KnownId(data[at]) && UnpackAt(data, at).Consumed?
    ensures var u := UnpackAt(data, at);
            && IdOf(u.e) == data[at]
            && at + PREFIX_SIZE <= |data| && u.n == 2 + Get16(data, at + 1) && at + 1 + u.n <= |data|
            && at + 1 + u.n == NextElement(data, at)
  {
    UnpackedShape(data[at], data[at + 1..], Announced(data, at));
  }

  // ------------------------------------------------------ the two walks agree

  /** The elements the parse loop meets from `at`. */
  function ParseWalk(data: seq<byte>, at: nat): seq<Visit>
    decreases |data| - at
  {
    if at >= |data| then []
    else [Visit(at, data[at])] + (if !KnownId(data[at]) || !UnpackAt(data, at).Consumed? then []
                                  else ParseWalk(data, at + 1 + UnpackAt(data, at).n))
  }

  ghost predicate SameIds(vs: seq<Visit>, es: seq<Element>) {
    |vs| == |es| && forall i :: 0 <= i < |vs| ==> vs[i].id == IdOf(es[i])
  }

  /** A payload element whose last byte or last two bytes are missing: of the bytes after the id, two of which
      are the length field, none or one is left over by the length declared. */
  predicate PayloadCut(data: seq<byte>, at: nat)
    requires at + PREFIX_SIZE <= |data|
  {
    var m := Get16(data, at + 1);
    data[at] in {MO_PAYLOAD, MT_PAYLOAD} && 1 <= m <= MaxPayload(data[at]) && |data| - at - 1 - m in {0, 1}
  }

  /** A location element that declares its length and is told that it has room for it. */
  predicate LocationFits(data: seq<byte>, at: nat)
    requires at + PREFIX_SIZE <= |data|
  {
    && data[at] == MO_LOCATION && Get16(data, at + 1) == MO_LOCATION_LENGTH
    && Announced(data, at) >= 2 + MO_LOCATION_LENGTH
  }

  /** The bytes at `v` are an element of which the model leaves open what `unpack` makes. */
  predicate Open(data: seq<byte>, v: Visit) {
    v.at + PREFIX_SIZE <= |data| && (PayloadCut(data, v.at) || LocationFits(data, v.at))
  }

  lemma OpenIsUnspecified(data: seq<byte>, at: nat)
    requires at < |data|
    ensures Open(data, Visit(at, data[at])) <==> KnownId(data[at]) && UnpackAt(data, at) == Unspecified
  {
    if at + PREFIX_SIZE <= |data| {
      assert Get16(data[at + 1..], 0) == Get16(data, at + 1);
    }
  }

  lemma WalkIsOver(data: seq<byte>, at: nat)
    requires at >= |data|
    ensures LengthWalk(data, at) == [] && ParseWalk(data, at) == []
  {
  }

  predicate GoesOn(data: seq<byte>, at: nat) {
    at < |data| && KnownId(data[at]) && UnpackAt(data, at).Consumed?
  }

  lemma NextOfParse(data: seq<byte>, at: nat)
    requires GoesOn(data, at)
    ensures NextElement(data, at) <= |data| && UnpackAt(data, at).n == NextElement(data, at) - at - 1
  {
    hide Unpack, Announced, IdOf, KnownId;
    UnpackAtShape(data, at);
  }

  lemma ParseWalkUnfolds(data: seq<byte>, at: nat)
    requires at < |data|
    ensures ParseWalk(data, at)
         == [Visit(at, data[at])] + if GoesOn(data, at) then ParseWalk(data, NextElement(data, at)) else []
  {
    hide Unpack, Announced, IdOf, NextElement;
    if GoesOn(data, at) {
      NextOfParse(data, at);
    }
  }

  lemma ParseFromUnfolds(data: seq<byte>, at: nat)
    requires at < |data|
    ensures var r := ParseFrom(data, at);
            if GoesOn(data, at) then r == Prepend([UnpackAt(data, at).e], ParseFrom(data, NextElement(data, at)))
            else !r.Parsed? && (r == Undetermined <==> Open(data, Visit(at, data[at])))
  {
    hide Unpack, Announced, IdOf, NextElement, Prepend, Open;
    OpenIsUnspecified(data, at);
    if GoesOn(data, at) {
      NextOfParse(data, at);
    }
  }

  /** One turn of the parse loop: it stops here, or goes on where the length field points. */
  lemma ParseUnfolds(data: seq<byte>, at: nat)
    requires at < |data|
    ensures var head, next := Visit(at, data[at]), NextElement(data, at);
            if GoesOn(data, at) then
              && next <= |data| && UnpackAt(data, at).n == next - at - 1
              && ParseWalk(data, at) == [head] + ParseWalk(data, next)
              && ParseFrom(data, at) == Prepend([UnpackAt(data, at).e], ParseFrom(data, next))
            else
              && ParseWalk(data, at) == [head] && !ParseFrom(data, at).Parsed?
              && (ParseFrom(data, at) == Undetermined <==> Open(data, head))
  {
    hide ParseWalk, ParseFrom, NextElement, GoesOn, Open;
    ParseWalkUnfolds(data, at);
    ParseFromUnfolds(data, at);
    if GoesOn(data, at) {
      NextOfParse(data, at);
    }
  }

  lemma {:induction false} ParseWalkIsPrefix(data: seq<byte>, at: nat)
    ensures ParseWalk(data, at) <= LengthWalk(data, at)
    ensures ParseFrom(data, at).Parsed? ==> ParseWalk(data, at) == LengthWalk(data, at)
    decreases |data| - at
  {
    hide UnpackAt, LengthWalk, ParseWalk, ParseFrom, NextElement, KnownId;
    if at < |data| {
      WalkUnfolds(data, at);
      ParseUnfolds(data, at);
      if GoesOn(data, at) {
        ParseWalkIsPrefix(data, NextElement(data, at));
      }
    } else {
      WalkIsOver(data, at);
    }
  }

  lemma ParseIsOver(data: seq<byte>, at: nat)
    requires at >= |data|
    ensures ParseWalk(data, at) == [] && ParseFrom(data, at) == Parsed([])
  {
  }

  lemma {:induction false} ParseWalkIds(data: seq<byte>, at: nat)
    requires ParseFrom(data, at).Parsed?
    ensures SameIds(ParseWalk(data, at), ParseFrom(data, at).es)
    decreases |data| - at
  {
    hide UnpackAt, IdOf, ParseWalk, ParseFrom, NextElement, KnownId;
    if at < |data| {
      ParseUnfolds(data, at);
      UnpackAtShape(data, at);
      ParseWalkIds(data, NextElement(data, at));
    } else {
      ParseIsOver(data, at);
    }
  }

  /** The parse loop meets the elements `messageCategory` meets, at the same offsets, as far as it gets; a parse
      that succeeds gets through all of them, and its elements carry their ids. */
  lemma WalksAgree(data: seq<byte>)
    ensures ParseWalk(data, 0) <= LengthWalk(data, 0)
    ensures Parse(data).Parsed?
            ==> ParseWalk(data, 0) == LengthWalk(data, 0) && SameIds(LengthWalk(data, 0), Parse(data).es)
  {
    ParseWalkIsPrefix(data, 0);
    if Parse(data).Parsed? {
      ParseWalkIds(data, 0);
    }
  }

  lemma {:induction false} CanonicalFrom(data: seq<byte>, at: nat)
    requires at <= |data| && ParseFrom(data, at).Parsed? && AllInRange(ParseFrom(data, at).es)
    ensures PackAll(ParseFrom(data, at).es) == data[at..]
    decreases |data| - at
  {
    hide Pack, Packable, Unpack, ParseFrom, ParseWalk, NextElement, IdOf;
    if at < |data| {
      ParseUnfolds(data, at);
      var u, next := UnpackAt(data, at), NextElement(data, at);
      var es, rest := ParseFrom(data, at).es, ParseFrom(data, next).es;
      assert es == [u.e] + rest;
      assert es[0] == u.e && es[1..] == rest;
      PackUnpacked(data[at], data[at + 1..], Announced(data, at));
      CanonicalFrom(data, next);
      assert data[at..] == [data[at]] + data[at + 1..][..u.n] + data[next..];
    } else {
      ParseIsOver(data, at);
    }
  }

  /** Packing inverts parsing. */
  lemma Canonical(data: seq<byte>)
    requires Parse(data).Parsed? && AllInRange(Parse(data).es)
    ensures PackAll(Parse(data).es) == data
  {
    CanonicalFrom(data, 0);
  }

  lemma {:induction false} ParsedKindsFrom(data: seq<byte>, at: nat)
    requires ParseFrom(data, at).Parsed?
    ensures forall e :: e in ParseFrom(data, at).es ==>
              !e.MoLocation? && (!e.MtHeader? && !e.MtPriority? ==> InRange(e))
    decreases |data| - at
  {
    if at < |data| {
      UnpackedShape(data[at], data[at + 1..], Announced(data, at));
      ParsedKindsFrom(data, at + 1 + UnpackAt(data, at).n);
    }
  }

  /** The category of a message that parses is the common class of its elements. */
  lemma CategoryOfParsed(data: seq<byte>, c: Category)
    requires Parse(data).Parsed? && c != UnknownMessage
    ensures CategoryOf(data) == c
       <==> Parse(data).es != [] && forall e :: e in Parse(data).es ==> ClassOf(IdOf(e)) == c
  {
    WalksAgree(data);
    var vs, es := LengthWalk(data, 0), Parse(data).es;
    if es != [] && forall e :: e in es ==> ClassOf(IdOf(e)) == c {
      forall v | v in vs
        ensures ClassOf(v.id) == c
      {
        var i :| 0 <= i < |vs| && vs[i] == v;
        assert es[i] in es;
      }
    }
    if CategoryOf(data) == c {
      forall e | e in es
        ensures ClassOf(IdOf(e)) == c
      {
        var i :| 0 <= i < |es| && es[i] == e;
        assert vs[i] in vs;
      }
    }
  }

  /** A mobile-originated message that `parse` accepts can be packed back to its bytes, and has its header and
      its payload. */
  lemma CanonicalMo(data: seq<byte>)
    requires CategoryOf(data) == MoMessage && ParseMo(data).Parsed?
    ensures var es := ParseMo(data).es;
            && AllInRange(es) && PackAll(es) == data
            && (forall e :: e in es ==> IdOf(e) in {MO_HEADER, MO_PAYLOAD, MO_CONFIRMATION})
            && (exists e :: e in es && e.MoHeader?) && (exists e :: e in es && e.MoPayload?)
  {
    CategoryOfParsed(data, MoMessage);
    ParsedKindsFrom(data, 0);
    var es := ParseMo(data).es;
    forall e | e in es
      ensures IdOf(e) in {MO_HEADER, MO_PAYLOAD, MO_CONFIRMATION} && InRange(e)
    {
      assert ClassOf(IdOf(e)) == MoMessage;
    }
    Canonical(data);
  }

  lemma {:induction false} OpenFrom(data: seq<byte>, at: nat)
    ensures ParseFrom(data, at) == Undetermined <==> exists v :: v in ParseWalk(data, at) && Open(data, v)
    decreases |data| - at
  {
    hide UnpackAt, ParseWalk, ParseFrom, NextElement, KnownId, Open;
    if at < |data| {
      var walk, head, next := ParseWalk(data, at), Visit(at, data[at]), NextElement(data, at);
      ParseUnfolds(data, at);
      OpenIsUnspecified(data, at);
      assert walk[0] == head;
      if GoesOn(data, at) {
        OpenFrom(data, next);
        if v :| v in ParseWalk(data, next) && Open(data, v) {
          assert v in walk;
        }
      } else if Open(data, head) {
        assert head in walk;
      }
    } else {
      ParseIsOver(data, at);
    }
  }

  /** The result of `parse` is left open exactly when the loop meets a payload element that ends one or two bytes
      behind the message, or a location element that declares its length and fits. */
  lemma OpenExactly(data: seq<byte>)
    ensures Parse(data) == Undetermined <==> exists v :: v in ParseWalk(data, 0) && Open(data, v)
  {
    OpenFrom(data, 0);
  }

  /** The loop has stopped at an element of an unknown id, or at one that `unpack` refuses. */
  predicate StoppedAt(data: seq<byte>, v: Visit, error: ParseError) {
    && v.at < |data| && v.id == data[v.at]
    && if v.id !in {0x01, 0x02, 0x03, 0x05, 0x41, 0x42, 0x44, 0x46} then error == UnknownElement
       else error == BadElement && Unpack(v.id, data[v.at + 1..], (|data| - v.at - 1) % 0x1_0000) == Rejected
  }

  lemma ErrorHere(data: seq<byte>, at: nat, error: ParseError)
    requires at < |data|
    ensures GoesOn(data, at) ==> !StoppedAt(data, Visit(at, data[at]), error)
    ensures !GoesOn(data, at) ==>
              (ParseFrom(data, at) == Failed(error) <==> StoppedAt(data, Visit(at, data[at]), error))
  {
    hide Unpack;
  }

  lemma {:induction false} ErrorFrom(data: seq<byte>, at: nat, error: ParseError)
    ensures ParseFrom(data, at) == Failed(error) <==> exists v :: v in ParseWalk(data, at) && StoppedAt(data, v, error)
    decreases |data| - at
  {
    hide UnpackAt, ParseWalk, ParseFrom, NextElement, KnownId, Open, StoppedAt, GoesOn;
    if at < |data| {
      var walk, head, next := ParseWalk(data, at), Visit(at, data[at]), NextElement(data, at);
      ParseUnfolds(data, at);
      ErrorHere(data, at, error);
      assert walk[0] == head;
      if GoesOn(data, at) {
        ErrorFrom(data, next, error);
        if v :| v in ParseWalk(data, next) && StoppedAt(data, v, error) {
          assert v in walk;
        }
      } else if StoppedAt(data, head, error) {
        assert head in walk;
      }
    } else {
      ParseIsOver(data, at);
    }
  }

  lemma ErrorOfParse(data: seq<byte>, error: ParseError)
    ensures Parse(data) == Failed(error) <==> exists v :: v in ParseWalk(data, 0) && StoppedAt(data, v, error)
  {
    hide ParseWalk, ParseFrom, StoppedAt;
    ErrorFrom(data, 0, error);
  }

  lemma IdsOfKinds()
    ensures forall e: Element :: && (IdOf(e) == 0x01 <==> e.MoHeader?) && (IdOf(e) == 0x02 <==> e.MoPayload?)
                                 && (IdOf(e) == 0x44 <==> e.MtConfirmation?)
  {
  }

  /** Which exception `parse` throws: that of the element where the loop stops, and after the loop that of the
      element missing, the header before the payload. */
  lemma FailureExactly(data: seq<byte>, error: ParseError)
    ensures Parse(data) == Failed(error) <==> exists v :: v in ParseWalk(data, 0) && StoppedAt(data, v, error)
    ensures ParseMo(data) == Failed(error)
       <==> || Parse(data) == Failed(error)
            || (&& Parse(data).Parsed? && error == NoHeader && forall e :: e in Parse(data).es ==> IdOf(e) != 0x01)
            || (&& Parse(data).Parsed? && error == NoPayload && (exists e :: e in Parse(data).es && IdOf(e) == 0x01)
                && forall e :: e in Parse(data).es ==> IdOf(e) != 0x02)
    ensures ParseConfirmation(data) == Failed(error)
       <==> || Parse(data) == Failed(error)
            || (Parse(data).Parsed? && error == NoConfirmation && forall e :: e in Parse(data).es ==> IdOf(e) != 0x44)
    ensures ParseMo(data).Parsed? ==> ParseMo(data) == Parse(data)
    ensures ParseConfirmation(data).Parsed? ==> ParseConfirmation(data) == Parse(data)
  {
    hide ParseWalk, Parse, StoppedAt, IdOf;
    ErrorOfParse(data, error);
    IdsOfKinds();
  }

  /** The status of a list of elements: that of its first confirmation, and -32767 if there is none. */
  lemma {:induction false} StatusOfFirst(before: seq<Element>, e: Element, after: seq<Element>)
    requires forall i :: 0 <= i < |before| ==> !before[i].MtConfirmation?
    ensures StatusOf(before) == -32767
    ensures e.MtConfirmation? ==> StatusOf(before + [e] + after) == e.status
  {
    if before == [] {
      assert (before + [e] + after)[0] == e;
    } else {
      StatusOfFirst(before[1..], e, after);
      assert (before + [e] + after)[1..] == before[1..] + [e] + after;
    }
  }

  // ---------------------------------------------------------- confirmations

  const CONFIRMATION_BLOCK := PREFIX_SIZE + MT_CONFIRMATION_LENGTH

  /** A confirmation element stands at `at`, and the size announced for it covers it. */
  predicate BlockAt(data: seq<byte>, at: nat) {
    && at + CONFIRMATION_BLOCK <= |data|
    && data[at..at + PREFIX_SIZE] == [0x44, 0x00, 0x19]
    && Announced(data, at) >= CONFIRMATION_BLOCK - 1
  }

  ghost predicate ConfirmationBlocks(data: seq<byte>) {
    && data != [] && |data| % CONFIRMATION_BLOCK == 0
    && forall k {:trigger BlockAt(data, CONFIRMATION_BLOCK * k)} ::
        0 <= k < |data| / CONFIRMATION_BLOCK ==> BlockAt(data, CONFIRMATION_BLOCK * k)
  }

  ghost predicate BlocksFrom(data: seq<byte>, at: nat)
    decreases |data| - at
  {
    at == |data| || (BlockAt(data, at) && BlocksFrom(data, at + CONFIRMATION_BLOCK))
  }

  lemma {:induction false} BlocksByIndex(data: seq<byte>, j: nat)
    requires CONFIRMATION_BLOCK * j <= |data|
    ensures BlocksFrom(data, CONFIRMATION_BLOCK * j)
       <==> |data| % CONFIRMATION_BLOCK == 0
            && forall k {:trigger BlockAt(data, CONFIRMATION_BLOCK * k)} ::
                 j <= k < |data| / CONFIRMATION_BLOCK ==> BlockAt(data, CONFIRMATION_BLOCK * k)
    decreases |data| - CONFIRMATION_BLOCK * j
  {
    var at := CONFIRMATION_BLOCK * j;
    if at + CONFIRMATION_BLOCK <= |data| {
      assert CONFIRMATION_BLOCK * (j + 1) == at + CONFIRMATION_BLOCK;
      BlocksByIndex(data, j + 1);
      assert j < |data| / CONFIRMATION_BLOCK;
    }
  }

  lemma BlockUnpacks(data: seq<byte>, at: nat)
    requires at < |data| && data[at] == MT_CONFIRMATION
    ensures UnpackAt(data, at).Consumed? <==> BlockAt(data, at)
    ensures BlockAt(data, at) ==>
              && UnpackAt(data, at).n == CONFIRMATION_BLOCK - 1 && UnpackAt(data, at).e.MtConfirmation?
              && UnpackAt(data, at).e.status == ToSigned(Get16(data, at + 26))
  {
    if at + CONFIRMATION_BLOCK <= |data| {
      assert data[at..at + PREFIX_SIZE] == [data[at], data[at + 1], data[at + 2]];
      Encode16(data, at + 1);
    }
  }

  lemma ConfirmationStep(data: seq<byte>, at: nat)
    requires BlockAt(data, at) && data[at] == MT_CONFIRMATION
    ensures var next := at + CONFIRMATION_BLOCK;
            && LengthWalk(data, at) == [Visit(at, data[at])] + LengthWalk(data, next)
            && (ParseFrom(data, at).Parsed? <==> ParseFrom(data, next).Parsed?)
  {
    hide Unpack, Announced;
    BlockUnpacks(data, at);
    UnpackAtShape(data, at);
  }

  lemma {:induction false} ConfirmationFrom(data: seq<byte>, at: nat)
    requires at <= |data|
    ensures Uniform(LengthWalk(data, at), MtConfirmMessage) && ParseFrom(data, at).Parsed? <==> BlocksFrom(data, at)
    decreases |data| - at
  {
    hide Unpack, Announced, Get16;
    if at < |data| {
      assert LengthWalk(data, at)[0] == Visit(at, data[at]);
      assert LengthWalk(data, at)[0] in LengthWalk(data, at);
      assert BlockAt(data, at) ==> data[at] == data[at..at + PREFIX_SIZE][0];
      if data[at] == MT_CONFIRMATION {
        BlockUnpacks(data, at);
        if BlockAt(data, at) {
          ConfirmationStep(data, at);
          ConfirmationFrom(data, at + CONFIRMATION_BLOCK);
        }
      }
    }
  }

  lemma ConfirmationIsNotOpen(data: seq<byte>, at: nat)
    requires at < |data| && data[at] == MT_CONFIRMATION
    ensures KnownId(data[at]) && !Open(data, Visit(at, data[at]))
  {
  }

  /** A confirmation never makes `parse` depend on bytes outside the message. */
  lemma {:induction false} ConfirmationDeterminedFrom(data: seq<byte>, at: nat)
    requires Uniform(LengthWalk(data, at), MtConfirmMessage)
    ensures !ParseFrom(data, at).Undetermined?
    decreases |data| - at
  {
    hide UnpackAt, ParseFrom, ParseWalk, LengthWalk, NextElement, KnownId, Open;
    if at < |data| {
      var head, next := Visit(at, data[at]), NextElement(data, at);
      WalkUnfolds(data, at);
      assert LengthWalk(data, at)[0] == head && head in LengthWalk(data, at);
      ConfirmationIsNotOpen(data, at);
      ParseUnfolds(data, at);
      if UnpackAt(data, at).Consumed? {
        ConfirmationDeterminedFrom(data, next);
      }
    } else {
      ParseIsOver(data, at);
    }
  }

  /** A body is accepted as a confirmation exactly when it is a row of 28-byte confirmation elements, and the
      status reported is the signed value of the last two bytes of the first. */
  lemma ConfirmationAccepted(data: seq<byte>)
    ensures CategoryOf(data) == MtConfirmMessage && ParseConfirmation(data).Parsed? <==> ConfirmationBlocks(data)
    ensures CategoryOf(data) == MtConfirmMessage ==> !ParseConfirmation(data).Undetermined?
    ensures ConfirmationBlocks(data) ==>
              |data| >= CONFIRMATION_BLOCK && StatusOf(ParseConfirmation(data).es) == ToSigned(Get16(data, 26))
  {
    ConfirmationFrom(data, 0);
    BlocksByIndex(data, 0);
    var walk := LengthWalk(data, 0);
    if Uniform(walk, MtConfirmMessage) {
      ConfirmationDeterminedFrom(data, 0);
    }
    if data != [] {
      assert walk[0] in walk;
      if BlocksFrom(data, 0) {
        BlockUnpacks(data, 0);
        var es := Parse(data).es;
        assert es == [UnpackAt(data, 0).e] + ParseFrom(data, CONFIRMATION_BLOCK).es;
        assert es[0] in es;
      }
    }
  }

  /** Inside the announced sizes of a length field, the size test holds wherever the block itself fits. */
  lemma ShortBlock(data: seq<byte>, at: nat)
    requires |data| <= 0x1_0000
    ensures BlockAt(data, at)
       <==> at + CONFIRMATION_BLOCK <= |data| && data[at..at + PREFIX_SIZE] == [0x44, 0x00, 0x19]
  {
  }
}
