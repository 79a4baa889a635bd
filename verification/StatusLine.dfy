/** The status line of an SBD session and the walk over its commas. */
module StatusLine {
  import opened Messages
  import opened Decimals

  const TAG := "+SBDIX: "
  const MAX_UINT8 := 0xFF
  const MAX_UINT16 := 0xFFFF
  const MAX_INT := 0x7FFF_FFFF

  datatype SessionStatus = SessionStatus(
    moStatus: nat, momsn: nat, mtStatus: nat, mtmsn: nat, mtLength: nat, mtQueue: nat)

  /** `BadStatus` is the exception thrown; `OutOfRange` is that of `numeric_cast`, which is not caught;
      `Runaway` stands for a field without its end, whose length is computed from `npos`. */
  datatype StatusResult = Ok(status: SessionStatus) | BadStatus | OutOfRange | Runaway

  /** The position of the first `c` at or after `from`. */
  function FindChar(line: string, c: char, from: nat): (r: Option<nat>)
    ensures r.Some? ==> from <= r.value < |line| && line[r.value] == c
    decreases |line| - from
  {
    if from >= |line| then None else if line[from] == c then Some(from) else FindChar(line, c, from + 1)
  }

  predicate Matches(line: string, pattern: string, at: nat) {
    at + |pattern| <= |line| && line[at..at + |pattern|] == pattern
  }

  /** The position of the first occurrence of `pattern` at or after `from`. */
  function FindText(line: string, pattern: string, from: nat): Option<nat>
    decreases |line| - from
  {
    if from >= |line| then None
    else if Matches(line, pattern, from) then Some(from)
    else FindText(line, pattern, from + 1)
  }

  /** One field: its value and the position of its end. */
  datatype Field = Value(n: nat, end: nat) | NotANumber | TooBig | Endless

  /** The field at `pos`, which ends with `stop`, cast to a 16-bit number, or to `int` and on to 8 bits. */
  function FieldAt(line: string, pos: nat, stop: char, wide: bool): Field {
    var end := FindChar(line, stop, pos);
    if end.None? then Endless
    else
      var n := LexicalCast(line[pos..end.value], if wide then MAX_UINT16 else MAX_INT);
      if n.None? then NotANumber
      else if !wide && n.value > MAX_UINT8 then TooBig
      else Value(n.value, end.value)
  }

  /** The exception a field leads to. */
  function Fault(f: Field): StatusResult
    requires !f.Value?
  {
    match f
    case NotANumber => BadStatus
    case TooBig => OutOfRange
    case Endless => Runaway
  }

  /** The walk over the line, each field starting two characters after the end of the one before. */
  function ReadStatus(line: string): StatusResult {
    var start := FindText(line, TAG, 0);
    if start.None? then BadStatus
    else
      var a := FieldAt(line, start.value + |TAG|, ',', false);
      if !a.Value? then Fault(a)
      else
        var b := FieldAt(line, a.end + 2, ',', true);
        if !b.Value? then Fault(b)
        else
          var c := FieldAt(line, b.end + 2, ',', false);
          if !c.Value? then Fault(c)
          else
            var d := FieldAt(line, c.end + 2, ',', true);
            if !d.Value? then Fault(d)
            else
              var e := FieldAt(line, d.end + 2, ',', true);
              if !e.Value? then Fault(e)
              else
                var f := FieldAt(line, e.end + 2, '\r', false);
                if !f.Value? then Fault(f) else Ok(SessionStatus(a.n, b.n, c.n, d.n, e.n, f.n))
  }

  /** The walk as it moves `pos` and `pos2` along the line and fills the status field by field. */
  method WalkStatus(line: string) returns (r: StatusResult)
    ensures r == ReadStatus(line)
  {
    hide FindText, FieldAt;
    var status := SessionStatus(0, 0, 0, 0, 0, 0);
    var start := FindText(line, TAG, 0);
    if start.None? {
      return BadStatus;
    }
    var pos := start.value + |TAG|;
    var field := FieldAt(line, pos, ',', false);
    if !field.Value? {
      return Fault(field);
    }
    status := status.(moStatus := field.n);
    var pos2 := field.end;
    pos := pos2 + 2;
    field := FieldAt(line, pos, ',', true);
    if !field.Value? {
      return Fault(field);
    }
    status := status.(momsn := field.n);
    pos2 := field.end;
    pos := pos2 + 2;
    field := FieldAt(line, pos, ',', false);
    if !field.Value? {
      return Fault(field);
    }
    status := status.(mtStatus := field.n);
    pos2 := field.end;
    pos := pos2 + 2;
    field := FieldAt(line, pos, ',', true);
    if !field.Value? {
      return Fault(field);
    }
    status := status.(mtmsn := field.n);
    pos2 := field.end;
    pos := pos2 + 2;
    field := FieldAt(line, pos, ',', true);
    if !field.Value? {
      return Fault(field);
    }
    status := status.(mtLength := field.n);
    pos2 := field.end;
    pos := pos2 + 2;
    field := FieldAt(line, pos, '\r', false);
    if !field.Value? {
      return Fault(field);
    }
    status := status.(mtQueue := field.n);
    return Ok(status);
  }

  // ------------------------------------------------- what the line says

  /** The text of a field: one or more digits. */
  predicate IsDigits(text: string) {
    text != "" && forall i :: 0 <= i < |text| ==> text[i] in "0123456789"
  }

  lemma DigitsAreNumerals(text: string)
    ensures IsDigits(text) <==> IsNumeral(text)
  {
    DecimalText(0);
  }

  /** The number a text of digits stands for. */
  function NumberOf(text: string): nat {
    if IsNumeral(text) then ValueOf(text) else 0
  }

  lemma CastSays(text: string, max: nat)
    ensures LexicalCast(text, max) == if IsDigits(text) && NumberOf(text) <= max then Some(NumberOf(text)) else None
  {
    hide ValueOf;
    DigitsAreNumerals(text);
  }

  lemma {:induction false} FindCharPast(before: string, text: string, c: char, after: string, i: nat)
    requires i <= |text| && c !in text
    ensures FindChar(before + text + [c] + after, c, |before| + i) == Some(|before| + |text|)
    decreases |text| - i
  {
    var line := before + text + [c] + after;
    if i < |text| {
      assert line[|before| + i] == text[i];
      FindCharPast(before, text, c, after, i + 1);
    } else {
      assert line[|before| + i] == c;
    }
  }

  /** What a field between `before` and its end says: a number in range, or one of the two faults. */
  lemma FieldRead(before: string, text: string, stop: char, after: string, wide: bool)
    requires stop !in text
    ensures FieldAt(before + text + [stop] + after, |before|, stop, wide) ==
            if !IsDigits(text) || NumberOf(text) > (if wide then 65535 else 2147483647) then NotANumber
            else if NumberOf(text) > (if wide then 65535 else 255) then TooBig
            else Value(NumberOf(text), |before| + |text|)
  {
    hide FindChar, LexicalCast, NumberOf, IsDigits;
    var line, end := before + text + [stop] + after, |before| + |text|;
    FindCharPast(before, text, stop, after, 0);
    assert FindChar(line, stop, |before|) == Some(end);
    assert line[|before|..end] == text;
    CastSays(text, if wide then 65535 else 2147483647);
  }

  /** The fields with commas between them. */
  function Joined(fields: seq<string>): string
    requires fields != []
  {
    if |fields| == 1 then fields[0] else fields[0] + ", " + Joined(fields[1..])
  }

  /** Whether a field is read as 16 bits: the two sequence numbers and the length are, the rest are 8 bits. */
  predicate IsWide(k: nat) {
    k == 1 || k == 3 || k == 4
  }

  predicate IsFine(text: string, wide: bool) {
    IsDigits(text) && NumberOf(text) <= if wide then 65535 else 255
  }

  /** The exception a field leads to. */
  function FaultOf(text: string, wide: bool): StatusResult {
    if IsDigits(text) && !wide && NumberOf(text) <= 2147483647 then OutOfRange else BadStatus
  }

  /** Six fields none of which contains its separator. */
  predicate AreFields(f: seq<string>) {
    |f| == 6 && (forall i :: 0 <= i < 5 ==> ',' !in f[i]) && '\r' !in f[5]
  }

  /** A field in front of further ones: what it says, and where the next one starts. */
  lemma JoinedRead(before: string, f: seq<string>, after: string, wide: bool)
    requires |f| >= 2 && ',' !in f[0]
    ensures var line := before + Joined(f) + after;
            var r := FieldAt(line, |before|, ',', wide);
            && (if IsFine(f[0], wide) then r == Value(NumberOf(f[0]), |before| + |f[0]|)
                else !r.Value? && Fault(r) == FaultOf(f[0], wide))
            && |before + f[0] + ", "| == |before| + |f[0]| + 2
            && line == (before + f[0] + ", ") + Joined(f[1..]) + after
  {
    hide FieldAt, NumberOf, IsDigits;
    var rest := " " + Joined(f[1..]) + after;
    FieldRead(before, f[0], ',', rest, wide);
    var line := before + Joined(f) + after;
    assert line == before + f[0] + [','] + rest;
  }

  lemma LastJoined(before: string, f: seq<string>, after: string)
    requires |f| == 1 && '\r' !in f[0]
    ensures var r := FieldAt(before + Joined(f) + "\r" + after, |before|, '\r', false);
            if IsFine(f[0], false) then r == Value(NumberOf(f[0]), |before| + |f[0]|)
            else !r.Value? && Fault(r) == FaultOf(f[0], false)
  {
    hide FieldAt, NumberOf, IsDigits;
    FieldRead(before, f[0], '\r', after, false);
  }

  lemma {:induction false} FindTextFirst(line: string, pattern: string, from: nat, at: nat)
    requires from <= at < |line| && Matches(line, pattern, at)
    requires forall i :: from <= i < at ==> !Matches(line, pattern, i)
    ensures FindText(line, pattern, from) == Some(at)
    decreases at - from
  {
    hide Matches;
    if from < at {
      FindTextFirst(line, pattern, from + 1, at);
    }
  }

  lemma {:induction false} FindTextNever(line: string, pattern: string, from: nat)
    requires forall i :: from <= i < |line| ==> !Matches(line, pattern, i)
    ensures FindText(line, pattern, from) == None
    decreases |line| - from
  {
    hide Matches;
    if from < |line| {
      FindTextNever(line, pattern, from + 1);
    }
  }

  /** The first fault among the fields is what the walk reports; without one it reports the six values. */
  ghost predicate Reports(f: seq<string>, r: StatusResult)
    requires |f| == 6
  {
    && (forall k: nat :: k < 6 && !IsFine(f[k], IsWide(k)) && (forall j :: 0 <= j < k ==> IsFine(f[j], IsWide(j))) ==>
          r == FaultOf(f[k], IsWide(k)))
    && ((forall j :: 0 <= j < 6 ==> IsFine(f[j], IsWide(j))) ==>
          r == Ok(SessionStatus(NumberOf(f[0]), NumberOf(f[1]), NumberOf(f[2]), NumberOf(f[3]), NumberOf(f[4]),
                                NumberOf(f[5]))))
  }

  lemma FieldsRead(before: string, f: seq<string>, after: string)
    requires AreFields(f) && |before| >= 8
    requires FindText(before + Joined(f) + "\r" + after, TAG, 0) == Some(|before| - 8)
    ensures Reports(f, ReadStatus(before + Joined(f) + "\r" + after))
  {
    hide FieldAt, Joined, FindText, IsDigits, NumberOf, IsFine, Fault, FaultOf;
    var tail := "\r" + after;
    var line := before + Joined(f) + tail;
    assert line == before + Joined(f) + "\r" + after;
    JoinedRead(before, f, tail, false);
    var b1 := before + f[0] + ", ";
    JoinedRead(b1, f[1..], tail, true);
    var b2 := b1 + f[1] + ", ";
    assert f[1..][1..] == f[2..];
    JoinedRead(b2, f[2..], tail, false);
    var b3 := b2 + f[2] + ", ";
    assert f[2..][1..] == f[3..];
    JoinedRead(b3, f[3..], tail, true);
    var b4 := b3 + f[3] + ", ";
    assert f[3..][1..] == f[4..];
    JoinedRead(b4, f[4..], tail, true);
    var b5 := b4 + f[4] + ", ";
    assert f[4..][1..] == f[5..];
    LastJoined(b5, f[5..], after);
    assert line == b5 + Joined(f[5..]) + "\r" + after;
  }

  /** The line, field by field: after any text in which the tag does not occur earlier, and whatever follows the
      carriage return. Without the tag the line is refused. */
  lemma StatusByFields(prefix: string, f: seq<string>, after: string)
    requires AreFields(f)
    requires forall i :: 0 <= i < |prefix| ==> !Matches(prefix + "+SBDIX: " + Joined(f) + "\r" + after, "+SBDIX: ", i)
    ensures Reports(f, ReadStatus(prefix + "+SBDIX: " + Joined(f) + "\r" + after))
  {
    hide Joined, ReadStatus, Reports;
    var line := prefix + "+SBDIX: " + Joined(f) + "\r" + after;
    assert line[|prefix|..|prefix| + 8] == "+SBDIX: ";
    FindTextFirst(line, "+SBDIX: ", 0, |prefix|);
    FieldsRead(prefix + "+SBDIX: ", f, after);
  }

  lemma WithoutTag(line: string)
    requires forall i :: 0 <= i < |line| ==> !Matches(line, "+SBDIX: ", i)
    ensures ReadStatus(line) == BadStatus
  {
    FindTextNever(line, "+SBDIX: ", 0);
  }

  // ------------------------------------------------------------- round trip

  predicate InRangeStatus(s: SessionStatus) {
    && s.moStatus <= 255 && s.mtStatus <= 255 && s.mtQueue <= 255
    && s.momsn <= 65535 && s.mtmsn <= 65535 && s.mtLength <= 65535
  }

  /** The fields as the modem prints them. */
  function FieldsOf(s: SessionStatus): seq<string> {
    [Decimal(s.moStatus), Decimal(s.momsn), Decimal(s.mtStatus), Decimal(s.mtmsn), Decimal(s.mtLength),
     Decimal(s.mtQueue)]
  }

  /** The line the modem prints. */
  function StatusText(s: SessionStatus): string {
    "+SBDIX: " + Joined(FieldsOf(s))
  }

  lemma NumeralIsField(n: nat)
    ensures IsDigits(Decimal(n)) && NumberOf(Decimal(n)) == n && ',' !in Decimal(n) && '\r' !in Decimal(n)
  {
    hide Decimal, ValueOf;
    DecimalIsNumeral(n);
    DigitsAreNumerals(Decimal(n));
  }

  /** The six values come back from the line that prints them. */
  lemma StatusRoundTrip(prefix: string, s: SessionStatus, after: string)
    requires InRangeStatus(s)
    requires forall i :: 0 <= i < |prefix| ==> !Matches(prefix + StatusText(s) + "\r" + after, "+SBDIX: ", i)
    ensures ReadStatus(prefix + StatusText(s) + "\r" + after) == Ok(s)
  {
    hide Joined, ReadStatus, Decimal, NumberOf, IsDigits, Matches;
    var f := FieldsOf(s);
    NumeralIsField(s.moStatus);
    NumeralIsField(s.momsn);
    NumeralIsField(s.mtStatus);
    NumeralIsField(s.mtmsn);
    NumeralIsField(s.mtLength);
    NumeralIsField(s.mtQueue);
    assert prefix + StatusText(s) + "\r" + after == prefix + "+SBDIX: " + Joined(f) + "\r" + after;
    StatusByFields(prefix, f, after);
  }
}
