/** What a cursor looks like, spelled out: digits, the ISO and UUID layouts, the JSON object, base 64. */
module CursorFormat {
  import opened TextFields
  import opened IsoTime
  import opened Pagination
  import Base64

  // ---- Numbers ----------------------------------------------------------------------------

  /** The number that digits stand for, in base 16 or base 10. */
  function ValueIn(s: string, hex: bool): int {
    if s == "" then 0
    else
      var high, c := ValueIn(s[..|s| - 1], hex), s[|s| - 1];
      (if hex then 16 * high else 10 * high) +
      (if '0' <= c <= '9' then c as int - '0' as int else c as int - 'a' as int + 10)
  }

  ghost predicate DigitsOf(s: string, hex: bool) {
    forall i :: 0 <= i < |s| ==> '0' <= s[i] <= '9' || (hex && 'a' <= s[i] <= 'f')
  }

  lemma {:induction false} DigitIs(d: nat, hex: bool)
    requires d < if hex then 16 else 10
    ensures var c := DIGITS[d];
            && ('0' <= c <= '9' || (hex && 'a' <= c <= 'f'))
            && d == if '0' <= c <= '9' then c as int - '0' as int else c as int - 'a' as int + 10
  {
    DigitBack(d, hex);
  }

  lemma {:induction false} ValueAppend(s: string, d: nat, hex: bool)
    requires d < if hex then 16 else 10
    ensures ValueIn(s + [DIGITS[d]], hex) == (if hex then 16 * ValueIn(s, hex) else 10 * ValueIn(s, hex)) + d
    ensures DigitsOf(s, hex) ==> DigitsOf(s + [DIGITS[d]], hex)
  {
    DigitIs(d, hex);
    assert (s + [DIGITS[d]])[..|s|] == s;
  }

  lemma {:induction false} OneMoreDigit(s: string, n: nat, hex: bool)
    requires ValueIn(s, hex) == Shifted(n, hex)
    ensures ValueIn(s + [DIGITS[LastDigit(n, hex)]], hex) == n
  {
    ValueAppend(s, LastDigit(n, hex), hex);
  }

  /** So many digits, lower case, that stand for the number if it fits. */
  lemma {:induction false} FixedIs(n: nat, width: nat, hex: bool)
    ensures |Fixed(n, width, hex)| == width && DigitsOf(Fixed(n, width, hex), hex)
    ensures n < Capacity(width, hex) ==> ValueIn(Fixed(n, width, hex), hex) == n
    decreases width
  {
    if width > 0 {
      var high := Fixed(Shifted(n, hex), width - 1, hex);
      FixedIs(Shifted(n, hex), width - 1, hex);
      ValueAppend(high, LastDigit(n, hex), hex);
      if n < Capacity(width, hex) {
        ShiftedFits(n, width, hex);
        OneMoreDigit(high, n, hex);
      }
    }
  }

  // ---- Layouts ----------------------------------------------------------------------------

  lemma {:induction false} WriteNext(f: Field, fields: seq<Field>, v: nat, values: seq<nat>, hex: bool, rest: string)
    requires |fields| == |values|
    ensures Write([f] + fields, [v] + values, hex, rest) ==
            f.separator + (Fixed(v, f.width, hex) + Write(fields, values, hex, rest))
  {
    WriteFirst([f] + fields, [v] + values, hex, rest);
    assert ([f] + fields)[1..] == fields && ([v] + values)[1..] == values;
  }

  lemma {:induction false} WriteOne(f: Field, v: nat, hex: bool, rest: string)
    ensures Write([f], [v], hex, rest) == f.separator + (Fixed(v, f.width, hex) + rest)
  {
    WriteNext(f, [], v, [], hex, rest);
    assert [f] + [] == [f] && [v] + [] == [v];
  }

  lemma {:induction false} NoSeparator(s: string)
    ensures "" + s == s
  {
  }

  lemma {:induction false} TimeIs(hour: nat, minute: nat, second: nat, rest: string)
    ensures Write([Field("T", 2), Field(":", 2), Field(":", 2)], [hour, minute, second], false, rest) ==
            "T" + (Fixed(hour, 2, false) + (":" + (Fixed(minute, 2, false) + (":" + (Fixed(second, 2, false) + rest)))))
  {
    var t, m, s := Field("T", 2), Field(":", 2), Field(":", 2);
    WriteNext(t, [m, s], hour, [minute, second], false, rest);
    WriteNext(m, [s], minute, [second], false, rest);
    WriteOne(s, second, false, rest);
    assert [t] + [m, s] == [t, m, s] && [hour] + [minute, second] == [hour, minute, second];
    assert [m] + [s] == [m, s] && [minute] + [second] == [minute, second];
  }

  lemma {:induction false} DateIs(year: nat, month: nat, day: nat, fields: seq<Field>, values: seq<nat>, rest: string)
    requires |fields| == |values|
    ensures Write([Field("", 4), Field("-", 2), Field("-", 2)] + fields, [year, month, day] + values, false, rest) ==
            Fixed(year, 4, false) + ("-" + (Fixed(month, 2, false) + ("-" + (Fixed(day, 2, false) +
            Write(fields, values, false, rest)))))
  {
    var y, m, d := Field("", 4), Field("-", 2), Field("-", 2);
    assert [y, m, d] + fields == [y] + ([m] + ([d] + fields));
    assert [year, month, day] + values == [year] + ([month] + ([day] + values));
    WriteNext(y, [m] + ([d] + fields), year, [month] + ([day] + values), false, rest);
    WriteNext(m, [d] + fields, month, [day] + values, false, rest);
    WriteNext(d, fields, day, values, false, rest);
    NoSeparator(Fixed(year, 4, false) + Write([m] + ([d] + fields), [month] + ([day] + values), false, rest));
  }

  /** YYYY-MM-DDTHH:MM:SS, then microseconds and offset. */
  lemma {:induction false} IsoIs(t: Moment)
    ensures IsoText(t) ==
            Fixed(t.year, 4, false) + ("-" + (Fixed(t.month, 2, false) + ("-" + (Fixed(t.day, 2, false) +
            ("T" + (Fixed(t.hour, 2, false) + (":" + (Fixed(t.minute, 2, false) + (":" + (Fixed(t.second, 2, false) +
            TailText(t.micro, t.offset)))))))))))
  {
    var time := [Field("T", 2), Field(":", 2), Field(":", 2)];
    assert DATE_TIME == [Field("", 4), Field("-", 2), Field("-", 2)] + time;
    assert DateTimeOf(t) == [t.year, t.month, t.day] + [t.hour, t.minute, t.second];
    DateIs(t.year, t.month, t.day, time, [t.hour, t.minute, t.second], TailText(t.micro, t.offset));
    TimeIs(t.hour, t.minute, t.second, TailText(t.micro, t.offset));
  }

  /** A fraction of six digits unless it is zero, then the offset. */
  lemma {:induction false} TailIs(micro: nat, offset: int)
    ensures TailText(micro, offset) ==
            if micro == 0 then OffsetText(offset) else "." + (Fixed(micro, 6, false) + OffsetText(offset))
  {
    WriteOne(Field(".", 6), micro, false, OffsetText(offset));
  }

  /** +HH:MM or -HH:MM; with seconds only if there are any, and then a fraction only if there is one. */
  lemma {:induction false} OffsetIs(offset: int)
    ensures var size := if offset < 0 then 0 - offset else offset;
            var seconds, micro := size / 1_000_000, size % 1_000_000;
            OffsetText(offset) ==
            (if offset < 0 then "-" else "+") +
            (Fixed(seconds / 3600, 2, false) + (":" + (Fixed(seconds / 60 % 60, 2, false) +
            (if seconds % 60 == 0 && micro == 0 then ""
             else
               ":" + (Fixed(seconds % 60, 2, false) +
               (if micro == 0 then "" else "." + (Fixed(micro, 6, false) + "")))))))
  {
    SpanIs(Parts(if offset < 0 then 0 - offset else offset));
  }

  lemma {:induction false} SpanIs(p: Span)
    ensures SpanText(p) ==
            Fixed(p.hours, 2, false) + (":" + (Fixed(p.minutes, 2, false) +
            (if p.seconds == 0 && p.micro == 0 then ""
             else
               ":" + (Fixed(p.seconds, 2, false) +
               (if p.micro == 0 then "" else "." + (Fixed(p.micro, 6, false) + ""))))))
  {
    var h, m, rest := Field("", 2), Field(":", 2), SecondsText(p.seconds, p.micro);
    assert [h] + [m] == HOURS_MINUTES && [p.hours] + [p.minutes] == [p.hours, p.minutes];
    WriteNext(h, [m], p.hours, [p.minutes], false, rest);
    WriteOne(m, p.minutes, false, rest);
    NoSeparator(Fixed(p.hours, 2, false) + Write([m], [p.minutes], false, rest));
    WriteOne(Field(":", 2), p.seconds, false, FractionText(p.micro, ""));
    WriteOne(Field(".", 6), p.micro, false, "");
  }

  /** Eight, four, four, four and twelve hexadecimal digits. */
  lemma {:induction false} UuidIs(id: seq<nat>)
    requires IsUuid(id)
    ensures UuidText(id) ==
            Fixed(id[0], 8, true) + ("-" + (Fixed(id[1], 4, true) + ("-" + (Fixed(id[2], 4, true) +
            ("-" + (Fixed(id[3], 4, true) + ("-" + (Fixed(id[4], 12, true) + ""))))))))
  {
    var a, b, e := Field("", 8), Field("-", 4), Field("-", 12);
    assert id == [id[0]] + ([id[1]] + ([id[2]] + ([id[3]] + [id[4]])));
    assert UUID_FIELDS == [a] + ([b] + ([b] + ([b] + [e])));
    WriteNext(a, [b] + ([b] + ([b] + [e])), id[0], [id[1]] + ([id[2]] + ([id[3]] + [id[4]])), true, "");
    WriteNext(b, [b] + ([b] + [e]), id[1], [id[2]] + ([id[3]] + [id[4]]), true, "");
    WriteNext(b, [b] + [e], id[2], [id[3]] + [id[4]], true, "");
    WriteNext(b, [e], id[3], [id[4]], true, "");
    WriteOne(e, id[4], true, "");
    NoSeparator(Fixed(id[0], 8, true) +
                Write([b] + ([b] + ([b] + [e])), [id[1]] + ([id[2]] + ([id[3]] + [id[4]])), true, ""));
  }

  // ---- Base 64 ----------------------------------------------------------------------------

  /** Table 2 of RFC 4648, where 62 and 63 are safe in URLs. */
  const UPPER := "ABCDEFGHIJKLMNOPQRSTUVWXYZ"
  const LOWER := "abcdefghijklmnopqrstuvwxyz"
  const DECIMALS := "0123456789"

  function Alphabet(n: nat): char
    requires n < 64
  {
    if n < 26 then UPPER[n] else if n < 52 then LOWER[n - 26] else if n < 62 then DECIMALS[n - 52]
    else "-_"[n - 62]
  }

  lemma {:induction false} UpperIs(n: nat)
    requires n < 26
    ensures UPPER[n] as int == 'A' as int + n
  {
    if n < 13 {
      assert UPPER[n] == "ABCDEFGHIJKLM"[n];
    } else {
      assert UPPER[n] == "NOPQRSTUVWXYZ"[n - 13];
    }
  }

  lemma {:induction false} LowerIs(n: nat)
    requires n < 26
    ensures LOWER[n] as int == 'a' as int + n
  {
    if n < 13 {
      assert LOWER[n] == "abcdefghijklm"[n];
    } else {
      assert LOWER[n] == "nopqrstuvwxyz"[n - 13];
    }
  }

  lemma {:induction false} LetterIs(n: nat)
    requires n < 64
    ensures Base64.Letter(n) == Alphabet(n)
  {
    if n < 26 {
      UpperIs(n);
    } else if n < 52 {
      LowerIs(n - 26);
    }
  }

  /** Four letters hold up to three bytes, most significant first; `a` to `d` are places in the alphabet. */
  ghost predicate Holds(s: string, a: nat, b: nat, c: nat, d: nat, bytes: seq<int>) {
    && |s| == 4 && a < 64 && b < 64 && c < 64 && d < 64
    && s[0] == Alphabet(a) && s[1] == Alphabet(b)
    && if |bytes| == 1 then
         a * 64 + b == bytes[0] * 16 && s[2] == '=' && s[3] == '='
       else if |bytes| == 2 then
         (a * 64 + b) * 64 + c == (bytes[0] * 256 + bytes[1]) * 4 && s[2] == Alphabet(c) && s[3] == '='
       else
         && |bytes| == 3
         && ((a * 64 + b) * 64 + c) * 64 + d == (bytes[0] * 256 + bytes[1]) * 256 + bytes[2]
         && s[2] == Alphabet(c) && s[3] == Alphabet(d)
  }

  ghost predicate HoldsSome(s: string, bytes: seq<int>) {
    exists a, b, c, d :: Holds(s, a, b, c, d, bytes)
  }

  /** What encoding does with the first three bytes, or the last one or two. */
  ghost predicate EncodesFirst(bytes: seq<Base64.Byte>, n: nat) {
    && n <= |bytes| && |Base64.Encode(bytes)| >= 4
    && HoldsSome(Base64.Encode(bytes)[..4], bytes[..n])
    && Base64.Encode(bytes)[4..] == Base64.Encode(bytes[n..])
  }

  /** Section 4 of RFC 4648: three bytes at a time, and padding for the last one or two. */
  lemma {:induction false} EncodeIs(bytes: seq<Base64.Byte>)
    ensures Base64.Encode([]) == ""
    ensures bytes != [] ==> EncodesFirst(bytes, if |bytes| < 3 then |bytes| else 3)
  {
    if |bytes| == 1 {
      OnlyOne(bytes);
    } else if |bytes| == 2 {
      OnlyTwo(bytes);
    } else if |bytes| > 2 {
      FirstThree(bytes);
    }
  }

  lemma {:induction false} OnlyOne(bytes: seq<Base64.Byte>)
    requires |bytes| == 1
    ensures EncodesFirst(bytes, 1)
  {
    OneByteHeld(bytes[0]);
    var s := Base64.Encode(bytes);
    assert s[..4] == s && bytes[..1] == [bytes[0]] && bytes[1..] == [];
  }

  lemma {:induction false} OnlyTwo(bytes: seq<Base64.Byte>)
    requires |bytes| == 2
    ensures EncodesFirst(bytes, 2)
  {
    TwoBytesHeld(bytes[0], bytes[1]);
    var s := Base64.Encode(bytes);
    assert s[..4] == s && bytes[..2] == [bytes[0], bytes[1]] && bytes[2..] == [];
  }

  lemma {:induction false} FirstThree(bytes: seq<Base64.Byte>)
    requires |bytes| >= 3
    ensures EncodesFirst(bytes, 3)
  {
    var x, y, z := bytes[0], bytes[1], bytes[2];
    ThreeBytesHeld(x, y, z);
    var s := Base64.Group(x / 4, x % 4 * 16 + y / 16, y % 16 * 4 + z / 64, z % 64);
    assert Base64.Encode(bytes) == s + Base64.Encode(bytes[3..]);
    assert Base64.Encode(bytes)[..4] == s && bytes[..3] == [x, y, z];
  }

  lemma {:induction false} OneByteHeld(x: Base64.Byte)
    ensures HoldsSome([Base64.Letter(x / 4), Base64.Letter(x % 4 * 16), '=', '='], [x])
  {
    LetterIs(x / 4);
    LetterIs(x % 4 * 16);
    assert Holds([Base64.Letter(x / 4), Base64.Letter(x % 4 * 16), '=', '='], x / 4, x % 4 * 16, 0, 0, [x]);
  }

  lemma {:induction false} TwoBytesHeld(x: Base64.Byte, y: Base64.Byte)
    ensures HoldsSome([Base64.Letter(x / 4), Base64.Letter(x % 4 * 16 + y / 16), Base64.Letter(y % 16 * 4), '='],
                      [x, y])
  {
    LetterIs(x / 4);
    LetterIs(x % 4 * 16 + y / 16);
    LetterIs(y % 16 * 4);
    assert Holds([Base64.Letter(x / 4), Base64.Letter(x % 4 * 16 + y / 16), Base64.Letter(y % 16 * 4), '='],
                 x / 4, x % 4 * 16 + y / 16, y % 16 * 4, 0, [x, y]);
  }

  lemma {:induction false} ThreeBytesHeld(x: Base64.Byte, y: Base64.Byte, z: Base64.Byte)
    ensures HoldsSome(Base64.Group(x / 4, x % 4 * 16 + y / 16, y % 16 * 4 + z / 64, z % 64), [x, y, z])
  {
    LetterIs(x / 4);
    LetterIs(x % 4 * 16 + y / 16);
    LetterIs(y % 16 * 4 + z / 64);
    LetterIs(z % 64);
    assert Holds(Base64.Group(x / 4, x % 4 * 16 + y / 16, y % 16 * 4 + z / 64, z % 64),
                 x / 4, x % 4 * 16 + y / 16, y % 16 * 4 + z / 64, z % 64, [x, y, z]);
  }

  // ---- The cursor -------------------------------------------------------------------------

  /** A cursor is base 64 of the bytes of a JSON object with the time and the id. */
  lemma {:induction false} CursorIs(t: Moment, id: seq<nat>)
    requires IsUuid(id)
    ensures exists bytes: seq<Base64.Byte> ::
              var text := "{\"ts\": \"" + (IsoText(t) + ("\"" + (", \"id\": \"" + (UuidText(id) + ("\"" + "}")))));
              && EncodeCursor(t, id) == Base64.Encode(bytes)
              && |bytes| == |text| && forall i :: 0 <= i < |text| ==> bytes[i] == text[i] as int
  {
    var bytes := ToBytes(CursorText(t, id));
    assert EncodeCursor(t, id) == Base64.Encode(bytes);
  }
}
