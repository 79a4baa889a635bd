/** Bytes and the big-endian integers of the DirectIP format. `htons`/`htonl` followed by a copy of the
    object representation writes these bytes on every host, and `ntohs`/`ntohl` reads them. */
module BigEndian {
  type byte = x: int | 0 <= x < 0x100
  type word16 = x: int | 0 <= x < 0x1_0000
  type word32 = x: int | 0 <= x < 0x1_0000_0000
  type int16 = x: int | -0x8000 <= x < 0x8000

  function Put16(n: word16): (r: seq<byte>)
    ensures |r| == 2
  {
    [n / 0x100, n % 0x100]
  }

  function Get16(s: seq<byte>, i: nat): word16
    requires i + 2 <= |s|
  {
    var hi: int := s[i];
    hi * 0x100 + s[i + 1]
  }

  function Put32(n: word32): (r: seq<byte>)
    ensures |r| == 4
  {
    Put16(n / 0x1_0000) + Put16(n % 0x1_0000)
  }

  function Get32(s: seq<byte>, i: nat): word32
    requires i + 4 <= |s|
  {
    var hi: int := Get16(s, i);
    hi * 0x1_0000 + Get16(s, i + 2)
  }

  /** The value of an `int16_t` holding the bits of `n`. */
  function ToSigned(n: word16): int16 {
    if n < 0x8000 then n else n - 0x1_0000
  }

  /** The bits of an `int16_t`. */
  function FromSigned(v: int16): word16 {
    if v < 0 then v + 0x1_0000 else v
  }

  lemma Decode16(before: seq<byte>, n: word16, after: seq<byte>)
    ensures Get16(before + Put16(n) + after, |before|) == n
  {
    var s := before + Put16(n) + after;
    assert s[|before|] == n / 0x100 && s[|before| + 1] == n % 0x100;
  }

  lemma Encode16(s: seq<byte>, i: nat)
    requires i + 2 <= |s|
    ensures Put16(Get16(s, i)) == s[i..i + 2]
  {
  }

  lemma Decode32(before: seq<byte>, n: word32, after: seq<byte>)
    ensures Get32(before + Put32(n) + after, |before|) == n
  {
    var s := before + Put32(n) + after;
    var hi, lo := n / 0x1_0000, n % 0x1_0000;
    assert s == before + Put16(hi) + (Put16(lo) + after);
    Decode16(before, hi, Put16(lo) + after);
    assert s == (before + Put16(hi)) + Put16(lo) + after;
    Decode16(before + Put16(hi), lo, after);
  }

  lemma Encode32(s: seq<byte>, i: nat)
    requires i + 4 <= |s|
    ensures Put32(Get32(s, i)) == s[i..i + 4]
  {
    Encode16(s, i);
    Encode16(s, i + 2);
    assert s[i..i + 4] == s[i..i + 2] + s[i + 2..i + 4];
  }

  lemma SignedBits(n: word16, v: int16)
    ensures FromSigned(ToSigned(n)) == n
    ensures ToSigned(FromSigned(v)) == v
  {
  }
}
