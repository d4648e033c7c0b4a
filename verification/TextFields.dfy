/** Fixed-width numbers in text, with separators between them: the shape of ISO 8601 times and of UUIDs. */
module TextFields {
  import opened Basics

  const DIGITS := "0123456789abcdef"

  /** The value of a digit, in base 16 or base 10. */
  function DigitValue(c: char, hex: bool): (r: Option<nat>)
    ensures r.Some? ==> r.value < (if hex then 16 else 10)
  {
    if '0' <= c <= '9' then Some(c as int - '0' as int)
    else if hex && 'a' <= c <= 'f' then Some(c as int - 'a' as int + 10)
    else None
  }

  function Shifted(n: nat, hex: bool): nat {
    if hex then n / 16 else n / 10
  }

  function LastDigit(n: nat, hex: bool): (d: nat)
    ensures d < (if hex then 16 else 10) && n == (if hex then 16 else 10) * Shifted(n, hex) + d
  {
    if hex then n % 16 else n % 10
  }

  /** How many numbers fit in a width. */
  function Capacity(width: nat, hex: bool): nat {
    if width == 0 then 1 else (if hex then 16 else 10) * Capacity(width - 1, hex)
  }

  /** Zero-padded on the left. */
  function Fixed(n: nat, width: nat, hex: bool): (r: string)
    ensures |r| == width
    decreases width
  {
    if width == 0 then "" else Fixed(Shifted(n, hex), width - 1, hex) + [DIGITS[LastDigit(n, hex)]]
  }

  function NumberOf(s: string, hex: bool): Option<nat> {
    if s == "" then Some(0)
    else
      var high, low := NumberOf(s[..|s| - 1], hex), DigitValue(s[|s| - 1], hex);
      if high.None? || low.None? then None
      else Some((if hex then 16 else 10) * high.value + low.value)
  }

  lemma {:induction false} DigitBack(d: nat, hex: bool)
    requires d < (if hex then 16 else 10)
    ensures DigitValue(DIGITS[d], hex) == Some(d)
  {
    assert DIGITS[d] == "0123456789abcdef"[d];
    if d < 10 {
      assert DIGITS[d] == ('0' as int + d) as char;
    } else {
      assert DIGITS[d] == ('a' as int + d - 10) as char;
    }
  }

  lemma {:induction false} NumberOfAppend(s: string, c: char, hex: bool, high: nat, low: nat)
    requires NumberOf(s, hex) == Some(high) && DigitValue(c, hex) == Some(low)
    ensures NumberOf(s + [c], hex) == Some((if hex then 16 else 10) * high + low)
  {
    assert (s + [c])[..|s|] == s;
  }

  lemma {:induction false} ShiftedFits(n: nat, width: nat, hex: bool)
    requires width > 0 && n < Capacity(width, hex)
    ensures Shifted(n, hex) < Capacity(width - 1, hex)
  {
    if hex {
      assert n < 16 * Capacity(width - 1, hex);
    } else {
      assert n < 10 * Capacity(width - 1, hex);
    }
  }

  lemma {:induction false} NumberOfStep(n: nat, s: string, hex: bool)
    requires NumberOf(s, hex) == Some(Shifted(n, hex))
    ensures NumberOf(s + [DIGITS[LastDigit(n, hex)]], hex) == Some(n)
  {
    DigitBack(LastDigit(n, hex), hex);
    NumberOfAppend(s, DIGITS[LastDigit(n, hex)], hex, Shifted(n, hex), LastDigit(n, hex));
  }

  lemma {:induction false} NumberOfFixed(n: nat, width: nat, hex: bool)
    requires n < Capacity(width, hex)
    ensures NumberOf(Fixed(n, width, hex), hex) == Some(n)
    decreases width
  {
    if width > 0 {
      ShiftedFits(n, width, hex);
      NumberOfFixed(Shifted(n, hex), width - 1, hex);
      NumberOfStep(n, Fixed(Shifted(n, hex), width - 1, hex), hex);
    }
  }

  // ---- Rows of fields ---------------------------------------------------------------------

  datatype Field = Field(separator: string, width: nat)

  predicate Fits(fields: seq<Field>, values: seq<nat>, hex: bool) {
    && |values| == |fields|
    && forall i :: 0 <= i < |fields| ==> values[i] < Capacity(fields[i].width, hex)
  }

  /** The fields, followed by some other text. */
  function Write(fields: seq<Field>, values: seq<nat>, hex: bool, rest: string): string
    requires |values| == |fields|
  {
    if fields == [] then rest
    else fields[0].separator + (Fixed(values[0], fields[0].width, hex) + Write(fields[1..], values[1..], hex, rest))
  }

  datatype Parsed = Parsed(values: seq<nat>, rest: string)

  predicate StartsWith(s: string, p: string) {
    |p| <= |s| && s[..|p|] == p
  }

  function Read(fields: seq<Field>, hex: bool, s: string): (r: Option<Parsed>)
    ensures r.Some? ==> |r.value.values| == |fields|
  {
    if fields == [] then Some(Parsed([], s))
    else
      var f := fields[0];
      if !StartsWith(s, f.separator) || |s| < |f.separator| + f.width then None
      else
        var digits, after := s[|f.separator|..][..f.width], s[|f.separator|..][f.width..];
        var n, rest := NumberOf(digits, hex), Read(fields[1..], hex, after);
        if n.None? || rest.None? then None
        else Some(Parsed([n.value] + rest.value.values, rest.value.rest))
  }

  lemma {:induction false} Pieces(a: string, b: string, c: string)
    ensures var s := a + (b + c);
            && StartsWith(s, a) && |s| >= |a| + |b|
            && s[|a|..][..|b|] == b && s[|a|..][|b|..] == c
  {
    assert (a + (b + c))[|a|..] == b + c;
  }

  lemma {:induction false} ReadFirst(fields: seq<Field>, hex: bool, n: nat, tail: string)
    requires fields != [] && n < Capacity(fields[0].width, hex)
    ensures Read(fields, hex, fields[0].separator + (Fixed(n, fields[0].width, hex) + tail)) ==
            var rest := Read(fields[1..], hex, tail);
            if rest.None? then None else Some(Parsed([n] + rest.value.values, rest.value.rest))
  {
    NumberOfFixed(n, fields[0].width, hex);
    Pieces(fields[0].separator, Fixed(n, fields[0].width, hex), tail);
  }

  lemma {:induction false} WriteFirst(fields: seq<Field>, values: seq<nat>, hex: bool, rest: string)
    requires |values| == |fields| && fields != []
    ensures Write(fields, values, hex, rest) ==
            fields[0].separator + (Fixed(values[0], fields[0].width, hex) + Write(fields[1..], values[1..], hex, rest))
  {
  }

  /** Reading fields finds what was written, and leaves the rest. */
  lemma {:induction false} ReadWrite(fields: seq<Field>, values: seq<nat>, hex: bool, rest: string)
    requires Fits(fields, values, hex)
    ensures Read(fields, hex, Write(fields, values, hex, rest)) == Some(Parsed(values, rest))
    decreases |fields|
  {
    if fields == [] {
      assert values == [];
    } else {
      var tail := Write(fields[1..], values[1..], hex, rest);
      ReadWrite(fields[1..], values[1..], hex, rest);
      ReadFirst(fields, hex, values[0], tail);
      WriteFirst(fields, values, hex, rest);
      assert values == [values[0]] + values[1..];
    }
  }

  /** The characters of digits and of the separators in use. */
  predicate Plain(c: char) {
    '0' <= c <= '9' || 'a' <= c <= 'f' || c == '-' || c == ':' || c == 'T' || c == '.' || c == '+'
  }

  ghost predicate AllPlain(s: string) {
    forall i :: 0 <= i < |s| ==> Plain(s[i])
  }

  lemma {:induction false} DigitPlain(d: nat)
    requires d < |DIGITS|
    ensures Plain(DIGITS[d])
  {
    DigitBack(d, true);
  }

  lemma {:induction false} FixedPlain(n: nat, width: nat, hex: bool)
    ensures AllPlain(Fixed(n, width, hex))
    decreases width
  {
    if width > 0 {
      FixedPlain(Shifted(n, hex), width - 1, hex);
      DigitPlain(LastDigit(n, hex));
    }
  }

  lemma {:induction false} ConcatPlain(a: string, b: string)
    requires AllPlain(a) && AllPlain(b)
    ensures AllPlain(a + b)
  {
  }

  /** Nothing but digits, separators and what is in the rest. */
  lemma {:induction false} WritePlain(fields: seq<Field>, values: seq<nat>, hex: bool, rest: string)
    requires |values| == |fields| && AllPlain(rest)
    requires forall i :: 0 <= i < |fields| ==> AllPlain(fields[i].separator)
    ensures AllPlain(Write(fields, values, hex, rest))
    decreases |fields|
  {
    if fields != [] {
      WritePlain(fields[1..], values[1..], hex, rest);
      var digits := Fixed(values[0], fields[0].width, hex);
      FixedPlain(values[0], fields[0].width, hex);
      ConcatPlain(digits, Write(fields[1..], values[1..], hex, rest));
      ConcatPlain(fields[0].separator, digits + Write(fields[1..], values[1..], hex, rest));
    }
  }
}
