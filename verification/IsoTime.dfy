/** `datetime.isoformat` and `datetime.fromisoformat` for times with a UTC offset. */
module IsoTime {
  import opened Basics
  import opened TextFields

  const MICROS := 1_000_000

  /** Calendar fields, and the offset in microseconds. */
  datatype Moment = Moment(
    year: nat, month: nat, day: nat, hour: nat, minute: nat, second: nat, micro: nat, offset: int)

  function DaysIn(year: nat, month: nat): nat {
    if month == 2 then (if year % 4 == 0 && (year % 100 != 0 || year % 400 == 0) then 29 else 28)
    else if month == 4 || month == 6 || month == 9 || month == 11 then 30
    else 31
  }

  predicate IsMoment(t: Moment) {
    && 1 <= t.year <= 9999 && 1 <= t.month <= 12 && 1 <= t.day <= DaysIn(t.year, t.month)
    && t.hour < 24 && t.minute < 60 && t.second < 60 && t.micro < MICROS
    && -86400 * MICROS < t.offset < 86400 * MICROS
  }

  const DATE_TIME :=
    [Field("", 4), Field("-", 2), Field("-", 2), Field("T", 2), Field(":", 2), Field(":", 2)]
  const HOURS_MINUTES := [Field("", 2), Field(":", 2)]
  const SECONDS := [Field(":", 2)]
  const FRACTION := [Field(".", 6)]

  /** Microseconds are left out when they are zero, here and in the offset. */
  function FractionText(micro: nat, rest: string): string {
    if micro == 0 then rest else Write(FRACTION, [micro], false, rest)
  }

  datatype Span = Span(hours: nat, minutes: nat, seconds: nat, micro: nat)

  predicate InRange(p: Span) {
    p.hours < 24 && p.minutes < 60 && p.seconds < 60 && p.micro < MICROS
  }

  function Parts(span: nat): Span {
    var seconds := span / MICROS;
    Span(seconds / 3600, seconds / 60 % 60, seconds % 60, span % MICROS)
  }

  function Whole(p: Span): nat {
    ((p.hours * 60 + p.minutes) * 60 + p.seconds) * MICROS + p.micro
  }

  /** The size of an offset: seconds only when it is not whole minutes. */
  function SpanText(p: Span): string {
    Write(HOURS_MINUTES, [p.hours, p.minutes], false, SecondsText(p.seconds, p.micro))
  }

  function SecondsText(seconds: nat, micro: nat): string {
    if seconds == 0 && micro == 0 then "" else Write(SECONDS, [seconds], false, FractionText(micro, ""))
  }

  function OffsetText(offset: int): string {
    if offset < 0 then "-" + SpanText(Parts(-offset)) else "+" + SpanText(Parts(offset))
  }

  function IsoText(t: Moment): string {
    Write(DATE_TIME, DateTimeOf(t), false, TailText(t.micro, t.offset))
  }

  function DateTimeOf(t: Moment): seq<nat> {
    [t.year, t.month, t.day, t.hour, t.minute, t.second]
  }

  function TailText(micro: nat, offset: int): string {
    FractionText(micro, OffsetText(offset))
  }

  // ---- Reading ----------------------------------------------------------------------------

  datatype Fraction = Fraction(micro: nat, rest: string)

  function ReadFraction(s: string): Option<Fraction> {
    if !StartsWith(s, ".") then Some(Fraction(0, s))
    else
      match Read(FRACTION, false, s)
      case None => None
      case Some(r) => Some(Fraction(r.values[0], r.rest))
  }

  function ReadSeconds(s: string): Option<(nat, nat)> {
    if s == "" then Some((0, 0))
    else
      match Read(SECONDS, false, s)
      case None => None
      case Some(r) =>
        var f := ReadFraction(r.rest);
        if f.None? || f.value.rest != "" then None else Some((r.values[0], f.value.micro))
  }

  function ReadSpan(s: string): Option<Span> {
    match Read(HOURS_MINUTES, false, s)
    case None => None
    case Some(r) =>
      var sm := ReadSeconds(r.rest);
      if sm.None? then None else Some(Span(r.values[0], r.values[1], sm.value.0, sm.value.1))
  }

  function ReadOffset(s: string): Option<int> {
    if s == "" || (s[0] != '+' && s[0] != '-') then None
    else
      match ReadSpan(s[1..])
      case None => None
      case Some(p) =>
        var size: int := Whole(p);
        Some(if s[0] == '-' then 0 - size else size)
  }

  datatype Tail = Tail(micro: nat, offset: int)

  function ReadTail(s: string): Option<Tail> {
    var f := ReadFraction(s);
    if f.None? then None
    else
      var offset := ReadOffset(f.value.rest);
      if offset.None? then None else Some(Tail(f.value.micro, offset.value))
  }

  function ReadIso(s: string): Option<Moment> {
    match Read(DATE_TIME, false, s)
    case None => None
    case Some(r) =>
      var tail, v := ReadTail(r.rest), r.values;
      if tail.None? then None
      else
        var t := Moment(v[0], v[1], v[2], v[3], v[4], v[5], tail.value.micro, tail.value.offset);
        if IsMoment(t) then Some(t) else None
  }

  // ---- Reading undoes writing -------------------------------------------------------------

  lemma {:induction false} Capacities()
    ensures Capacity(2, false) == 100 && Capacity(4, false) == 10_000 && Capacity(6, false) == MICROS
  {
    assert Capacity(1, false) == 10;
    assert Capacity(3, false) == 1000;
    assert Capacity(5, false) == 100_000;
  }

  lemma {:induction false} FractionBack(micro: nat, rest: string)
    requires micro < MICROS && !StartsWith(rest, ".")
    ensures ReadFraction(FractionText(micro, rest)) == Some(Fraction(micro, rest))
  {
    Capacities();
    if micro != 0 {
      ReadWrite(FRACTION, [micro], false, rest);
      var text := Write(FRACTION, [micro], false, rest);
      assert text == "." + (Fixed(micro, 6, false) + Write(FRACTION[1..], [micro][1..], false, rest));
      assert text[..1] == ".";
    }
  }

  lemma {:induction false} SecondsBack(seconds: nat, micro: nat)
    requires seconds < 60 && micro < MICROS
    ensures ReadSeconds(SecondsText(seconds, micro)) == Some((seconds, micro))
  {
    if seconds != 0 || micro != 0 {
      Capacities();
      ReadWrite(SECONDS, [seconds], false, FractionText(micro, ""));
      FractionBack(micro, "");
      var rest := Write(SECONDS[1..], [seconds][1..], false, FractionText(micro, ""));
      assert SECONDS[0].separator + (Fixed(seconds, 2, false) + rest) == SecondsText(seconds, micro);
    }
  }

  lemma {:induction false} SpanBack(p: Span)
    requires InRange(p)
    ensures ReadSpan(SpanText(p)) == Some(p)
  {
    Capacities();
    ReadWrite(HOURS_MINUTES, [p.hours, p.minutes], false, SecondsText(p.seconds, p.micro));
    SecondsBack(p.seconds, p.micro);
  }

  /** Hours, minutes, seconds and microseconds make up the span again. */
  lemma {:induction false} PartsMakeWhole(span: nat)
    requires span < 86400 * MICROS
    ensures InRange(Parts(span)) && Whole(Parts(span)) == span
  {
    var seconds := span / MICROS;
    assert span == seconds * MICROS + span % MICROS;
    assert seconds == seconds / 60 * 60 + seconds % 60;
    assert seconds / 60 == seconds / 3600 * 60 + seconds / 60 % 60;
  }

  lemma {:induction false} OffsetBack(offset: int)
    requires -86400 * MICROS < offset < 86400 * MICROS
    ensures ReadOffset(OffsetText(offset)) == Some(offset)
    ensures !StartsWith(OffsetText(offset), ".")
  {
    var span := if offset < 0 then 0 - offset else offset;
    PartsMakeWhole(span);
    SpanBack(Parts(span));
    var s := OffsetText(offset);
    assert s[1..] == SpanText(Parts(span));
    assert s[..1] == [s[0]];
  }

  lemma {:induction false} TailBack(micro: nat, offset: int)
    requires micro < MICROS && -86400 * MICROS < offset < 86400 * MICROS
    ensures ReadTail(TailText(micro, offset)) == Some(Tail(micro, offset))
  {
    OffsetBack(offset);
    FractionBack(micro, OffsetText(offset));
  }

  lemma {:induction false} DateTimeFits(t: Moment)
    requires IsMoment(t)
    ensures Fits(DATE_TIME, DateTimeOf(t), false)
  {
    Capacities();
  }

  /** For every time with an offset, to the microsecond. */
  lemma {:induction false} IsoBack(t: Moment)
    requires IsMoment(t)
    ensures ReadIso(IsoText(t)) == Some(t)
  {
    DateTimeFits(t);
    TailBack(t.micro, t.offset);
    ReadWrite(DATE_TIME, DateTimeOf(t), false, TailText(t.micro, t.offset));
  }

  // ---- What the text uses -----------------------------------------------------------------

  lemma {:induction false} FractionPlain(micro: nat, rest: string)
    requires AllPlain(rest)
    ensures AllPlain(FractionText(micro, rest))
  {
    WritePlain(FRACTION, [micro], false, rest);
  }

  lemma {:induction false} SpanPlain(p: Span)
    ensures AllPlain(SpanText(p))
  {
    FractionPlain(p.micro, "");
    WritePlain(SECONDS, [p.seconds], false, FractionText(p.micro, ""));
    WritePlain(HOURS_MINUTES, [p.hours, p.minutes], false, SecondsText(p.seconds, p.micro));
  }

  lemma {:induction false} OffsetPlain(offset: int)
    ensures AllPlain(OffsetText(offset))
  {
    SpanPlain(Parts(if offset < 0 then -offset else offset));
  }

  lemma {:induction false} DateTimePlain(values: seq<nat>, rest: string)
    requires |values| == |DATE_TIME| && AllPlain(rest)
    ensures AllPlain(Write(DATE_TIME, values, false, rest))
  {
    forall i | 0 <= i < |DATE_TIME| ensures AllPlain(DATE_TIME[i].separator) {
    }
    WritePlain(DATE_TIME, values, false, rest);
  }

  lemma {:induction false} IsoPlain(t: Moment)
    ensures AllPlain(IsoText(t))
  {
    OffsetPlain(t.offset);
    FractionPlain(t.micro, OffsetText(t.offset));
    DateTimePlain(DateTimeOf(t), TailText(t.micro, t.offset));
  }
}
