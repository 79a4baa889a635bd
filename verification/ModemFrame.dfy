/** The checksum that protects a message between the host and the modem. */
module ModemFrame {
  import opened BigEndian
  import opened Elements
  import opened Decimals

  /** The value of a byte as a `char`, whose signedness is the compiler's choice. */
  function CharValue(b: byte, signed: bool): int {
    if signed && b >= 0x80 then b - 0x100 else b
  }

  function SumOf(p: seq<byte>, signed: bool): int {
    if p == [] then 0 else SumOf(p[..|p| - 1], signed) + CharValue(p[|p| - 1], signed)
  }

  /** The low 16 bits of the sum of all bytes. */
  function ChecksumOf(p: seq<byte>, signed: bool): word16 {
    SumOf(p, signed) % 0x1_0000
  }

  lemma WrapStep(x: int, c: int)
    ensures (x % 0x1_0000_0000 + c) % 0x1_0000_0000 == (x + c) % 0x1_0000_0000
  {
    var q := x / 0x1_0000_0000;
    assert x + c == (x % 0x1_0000_0000 + c) + q * 0x1_0000_0000;
  }

  lemma AddMultiple(x: int, k: int)
    ensures (x + k * 0x1_0000) % 0x1_0000 == x % 0x1_0000
  {
  }

  lemma WrapEnd(x: int)
    ensures (x % 0x1_0000_0000) % 0x1_0000 == x % 0x1_0000
  {
    var r, k := x % 0x1_0000_0000, x / 0x1_0000_0000 * 0x1_0000;
    assert x == r + k * 0x1_0000;
    AddMultiple(r, k);
  }

  /** The loops over `sum` and `crc`: a 32-bit accumulator that wraps around. */
  method Checksum(payload: seq<byte>, signed: bool) returns (crc: word16)
    ensures crc == ChecksumOf(payload, signed)
  {
    var sum: word32 := 0;
    for i := 0 to |payload|
      invariant sum == SumOf(payload[..i], signed) % 0x1_0000_0000
    {
      assert payload[..i + 1][..i] == payload[..i];
      WrapStep(SumOf(payload[..i], signed), CharValue(payload[i], signed));
      sum := (sum + CharValue(payload[i], signed)) % 0x1_0000_0000;
    }
    assert payload[..|payload|] == payload;
    WrapEnd(SumOf(payload, signed));
    crc := sum % 0x1_0000;
  }

  /** The sum is additive, so its value for one byte fixes it. */
  lemma {:induction false} SumOfConcat(a: seq<byte>, b: seq<byte>, signed: bool)
    ensures SumOf(a + b, signed) == SumOf(a, signed) + SumOf(b, signed)
  {
    if b == [] {
      assert a + b == a;
    } else {
      var n := |b| - 1;
      assert (a + b)[..|a| + n] == a + b[..n];
      SumOfConcat(a, b[..n], signed);
    }
  }

  lemma SumOfOne(b: byte, signed: bool)
    ensures SumOf([b], signed) == if signed && b >= 128 then b - 256 else b
  {
  }

  /** The checksum of `hello` is 0x0214 whatever the signedness, and goes out as the bytes 02 14; that of a single
      byte 0xFF depends on it. */
  lemma ChecksumOfHello(signed: bool)
    ensures Put16(ChecksumOf([104, 101, 108, 108, 111], signed)) == [0x02, 0x14]
    ensures ChecksumOf([0xFF], signed) == if signed then 0xFFFF else 0x00FF
  {
    hide SumOf;
    SumOfConcat([104], [101], signed);
    SumOfConcat([104] + [101], [108], signed);
    SumOfConcat([104] + [101] + [108], [108], signed);
    SumOfConcat([104] + [101] + [108] + [108], [111], signed);
    assert [104, 101, 108, 108, 111] == [104] + [101] + [108] + [108] + [111];
    SumOfOne(104, signed);
    SumOfOne(101, signed);
    SumOfOne(108, signed);
    SumOfOne(111, signed);
    SumOfOne(0xFF, signed);
  }

  datatype ReadError = LengthError | MessageError | ChecksumError | Mismatch

  datatype ReadResult = Got(payload: seq<byte>, rest: seq<byte>) | Failed(error: ReadError)

  /** Length, message, checksum: what a reader makes of the bytes the modem sends after the echo. */
  function ReadFrame(input: seq<byte>, signed: bool): ReadResult {
    if |input| < 2 then Failed(LengthError)
    else
      var n := Get16(input, 0);
      if n > 0 && |input| < 2 + n then Failed(MessageError)
      else if |input| < 4 + n then Failed(ChecksumError)
      else if n > 0 && ChecksumOf(input[2..2 + n], signed) != Get16(input, 2 + n) then Failed(Mismatch)
      else Got(input[2..2 + n], input[4 + n..])
  }

  /** A frame with the payload `p` and the checksum `crc`. */
  function FrameWith(p: seq<byte>, crc: word16): seq<byte>
    requires |p| < 0x1_0000
  {
    Put16(|p|) + p + Put16(crc)
  }

  /** The frame byte by byte. */
  lemma FrameBytes(p: seq<byte>, crc: word16)
    requires |p| < 0x1_0000
    ensures FrameWith(p, crc) == [|p| / 256, |p| % 256] + p + [crc / 256, crc % 256]
  {
  }

  /** Which error a reader meets first on an incomplete frame, where `n` is the length announced. */
  lemma IncompleteFrame(input: seq<byte>, signed: bool)
    ensures |input| < 2 <==> ReadFrame(input, signed) == Failed(LengthError)
    ensures |input| >= 2 ==>
              var hi: int := input[0];
              var n := hi * 256 + input[1];
              && (2 + n > |input| <==> ReadFrame(input, signed) == Failed(MessageError))
              && (2 + n <= |input| < 4 + n <==> ReadFrame(input, signed) == Failed(ChecksumError))
  {
    hide ChecksumOf;
  }

  /** A frame is accepted exactly if it is empty or its checksum is that of the payload, and then it yields the
      payload and leaves what follows. */
  lemma FrameAccepted(p: seq<byte>, crc: word16, rest: seq<byte>, signed: bool)
    requires |p| < 0x1_0000
    ensures ReadFrame(FrameWith(p, crc) + rest, signed)
         == if p == [] || crc == ChecksumOf(p, signed) then Got(p, rest) else Failed(Mismatch)
  {
    hide ChecksumOf;
    var input := FrameWith(p, crc) + rest;
    assert input == [] + Put16(|p|) + (p + Put16(crc) + rest);
    Decode16([], |p|, p + Put16(crc) + rest);
    assert input == (Put16(|p|) + p) + Put16(crc) + rest;
    Decode16(Put16(|p|) + p, crc, rest);
    assert input[2..2 + |p|] == p && input[4 + |p|..] == rest;
  }

  /** Reading inverts writing, for every message a length field can describe. */
  lemma FrameRoundTrip(p: seq<byte>, rest: seq<byte>, signed: bool)
    requires |p| < 0x1_0000
    ensures ReadFrame(FrameWith(p, ChecksumOf(p, signed)) + rest, signed) == Got(p, rest)
  {
    FrameAccepted(p, ChecksumOf(p, signed), rest, signed);
  }

  lemma {:induction false} SumOfChanged(p: seq<byte>, i: nat, b: byte, signed: bool)
    requires i < |p|
    ensures SumOf(p[i := b], signed) == SumOf(p, signed) - CharValue(p[i], signed) + CharValue(b, signed)
    decreases |p|
  {
    var n := |p| - 1;
    if i < n {
      SumOfChanged(p[..n], i, b, signed);
      assert p[i := b][..n] == p[..n][i := b];
    } else {
      assert p[i := b][..n] == p[..n];
    }
  }

  lemma SmallShift(x: int, d: int)
    requires d != 0 && -0x1_0000 < d < 0x1_0000
    ensures (x + d) % 0x1_0000 != x % 0x1_0000
  {
  }

  /** One altered byte of the payload never goes unnoticed. */
  lemma AlteredByteRejected(p: seq<byte>, i: nat, b: byte, rest: seq<byte>, signed: bool)
    requires i < |p| < 0x1_0000 && b != p[i]
    ensures ReadFrame(FrameWith(p[i := b], ChecksumOf(p, signed)) + rest, signed) == Failed(Mismatch)
  {
    SumOfChanged(p, i, b, signed);
    FrameAccepted(p[i := b], ChecksumOf(p, signed), rest, signed);
    var d := CharValue(b, signed) - CharValue(p[i], signed);
    SmallShift(SumOf(p, signed), d);
  }

  /** The number of bytes with the top bit set. */
  function HighBytes(p: seq<byte>): nat {
    if p == [] then 0 else HighBytes(p[..|p| - 1]) + if p[|p| - 1] >= 0x80 then 1 else 0
  }

  lemma ShiftedSum(x: int, n: nat)
    ensures (x - 0x100 * n) % 0x1_0000 == x % 0x1_0000 <==> n % 0x100 == 0
  {
    var q, r := n / 0x100, n % 0x100;
    var y := x - 0x100 * r;
    assert x - 0x100 * n == y + (0 - q) * 0x1_0000;
    AddMultiple(y, 0 - q);
    if r != 0 {
      SmallShift(x, 0 - 0x100 * r);
    }
  }

  /** The sum of signed chars falls short of the sum of bytes by 256 for each byte with the top bit set, so the
      two checksums agree exactly if the number of those bytes is a multiple of 256. */
  lemma {:induction false} SignedSum(p: seq<byte>)
    ensures SumOf(p, true) == SumOf(p, false) - 0x100 * HighBytes(p)
    ensures ChecksumOf(p, true) == (SumOf(p, false) - 0x100 * HighBytes(p)) % 0x1_0000
    ensures ChecksumOf(p, true) == ChecksumOf(p, false) <==> HighBytes(p) % 0x100 == 0
  {
    if p != [] {
      SignedSum(p[..|p| - 1]);
    }
    ShiftedSum(SumOf(p, false), HighBytes(p));
  }

  // -------------------------------------------------------------- the object

  /** What is written to the port. */
  datatype Written = Command(text: string) | Raw(bytes: seq<byte>)

  datatype WriteResult = Sent | BadLength | NoReply

  class Modem {
    var input: seq<byte>
    var output: seq<Written>
    const signedChar: bool

    constructor (input: seq<byte>, signedChar: bool)
      ensures this.input == input && output == [] && this.signedChar == signedChar
    {
      this.input, output, this.signedChar := input, [], signedChar;
    }

    /** Announces the length, waits for the modem to be `ready`, then sends the message and its checksum. */
    method WriteMessage(payload: seq<byte>, ready: bool) returns (r: WriteResult)
      modifies this`output
      ensures r == BadLength <==> !(1 <= |payload| <= MAX_MO_PAYLOAD)
      ensures r == NoReply ==> !ready && output == old(output) + [Command("AT+SBDWB=" + Decimal(|payload|) + "\r")]
      ensures r == BadLength ==> output == old(output)
      ensures r == Sent ==>
                && ready && |payload| < 0x1_0000
                && output == old(output) + [Command("AT+SBDWB=" + Decimal(|payload|) + "\r"), Raw(payload),
                                            Raw(Put16(ChecksumOf(payload, signedChar)))]
    {
      if |payload| == 0 || |payload| > MAX_MO_PAYLOAD {
        return BadLength;
      }
      var crc := Checksum(payload, signedChar);
      output := output + [Command("AT+SBDWB=" + Decimal(|payload|) + "\r")];
      if !ready {
        return NoReply;
      }
      output := output + [Raw(payload)];
      output := output + [Raw(Put16(crc))];
      return Sent;
    }

    /** Reads a message; an error leaves the payload empty. */
    method ReadMessage() returns (payload: seq<byte>, error: seq<ReadError>)
      modifies this`input
      ensures match ReadFrame(old(input), signedChar)
              case Got(p, rest) => error == [] && payload == p && input == rest
              case Failed(e) => error == [e] && payload == []
    {
      payload := [];
      ghost var before := input;
      if |input| < 2 {
        return [], [LengthError];
      }
      var length := Get16(input, 0);
      input := input[2..];
      if length > 0 {
        if |input| < length {
          return [], [MessageError];
        }
        payload := input[..length];
        input := input[length..];
        assert payload == before[2..2 + length];
      }
      if |input| < 2 {
        return [], [ChecksumError];
      }
      var received := Get16(input, 0);
      input := input[2..];
      if |payload| > 0 {
        var crc := Checksum(payload, signedChar);
        if crc != received {
          return [], [Mismatch];
        }
      }
      return payload, [];
    }
  }
}
