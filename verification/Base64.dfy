/** URL-safe base 64 with padding: section 5 of RFC 4648. */
module Base64 {
  import opened Basics

  type Byte = n: nat | n < 256

  function Letter(n: nat): char
    requires n < 64
  {
    if n < 26 then ('A' as int + n) as char
    else if n < 52 then ('a' as int + n - 26) as char
    else if n < 62 then ('0' as int + n - 52) as char
    else if n == 62 then '-'
    else '_'
  }

  function Index(c: char): (r: Option<nat>)
    ensures r.Some? ==> r.value < 64
  {
    if 'A' <= c <= 'Z' then Some(c as int - 'A' as int)
    else if 'a' <= c <= 'z' then Some(c as int - 'a' as int + 26)
    else if '0' <= c <= '9' then Some(c as int - '0' as int + 52)
    else if c == '-' then Some(62)
    else if c == '_' then Some(63)
    else None
  }

  const PAD := '='

  /** Three bytes make four letters; one or two left over are padded. */
  function Encode(bytes: seq<Byte>): string {
    if bytes == [] then ""
    else if |bytes| == 1 then
      [Letter(bytes[0] / 4), Letter(bytes[0] % 4 * 16), PAD, PAD]
    else if |bytes| == 2 then
      [Letter(bytes[0] / 4), Letter(bytes[0] % 4 * 16 + bytes[1] / 16), Letter(bytes[1] % 16 * 4), PAD]
    else
      Group(bytes[0] / 4, bytes[0] % 4 * 16 + bytes[1] / 16, bytes[1] % 16 * 4 + bytes[2] / 64, bytes[2] % 64) +
      Encode(bytes[3..])
  }

  function Group(a: nat, b: nat, c: nat, d: nat): (r: string)
    requires a < 64 && b < 64 && c < 64 && d < 64
    ensures |r| == 4
  {
    [Letter(a), Letter(b), Letter(c), Letter(d)]
  }

  /** The bytes of four letters, of which the last two may be padding when `final`. */
  function DecodeFour(s: string, final: bool): Option<seq<Byte>>
    requires |s| == 4
  {
    var a, b, c, d := Index(s[0]), Index(s[1]), Index(s[2]), Index(s[3]);
    if a.None? || b.None? then None
    else if final && s[2] == PAD && s[3] == PAD then Some([a.value * 4 + b.value / 16])
    else if c.None? then None
    else if final && s[3] == PAD then Some([a.value * 4 + b.value / 16, b.value % 16 * 16 + c.value / 4])
    else if d.None? then None
    else
      Some([a.value * 4 + b.value / 16, b.value % 16 * 16 + c.value / 4, c.value % 4 * 64 + d.value])
  }

  function Decode(s: string): Option<seq<Byte>> {
    if s == "" then Some([])
    else if |s| < 4 then None
    else
      match DecodeFour(s[..4], |s| == 4)
      case None => None
      case Some(front) =>
        match Decode(s[4..])
        case None => None
        case Some(rest) => Some(front + rest)
  }

  lemma {:induction false} IndexOfLetter(n: nat)
    requires n < 64
    ensures Index(Letter(n)) == Some(n) && Letter(n) != PAD
  {
  }

  lemma {:induction false} DecodeGroup(a: nat, b: nat, c: nat, d: nat, final: bool)
    requires a < 64 && b < 64 && c < 64 && d < 64
    ensures DecodeFour(Group(a, b, c, d), final) ==
            Some([a * 4 + b / 16, b % 16 * 16 + c / 4, c % 4 * 64 + d])
  {
    IndexOfLetter(a);
    IndexOfLetter(b);
    IndexOfLetter(c);
    IndexOfLetter(d);
  }

  lemma {:induction false} Bits(x: Byte, y: Byte, z: Byte)
    ensures x / 4 * 4 + (x % 4 * 16 + y / 16) / 16 == x
    ensures (x % 4 * 16 + y / 16) % 16 * 16 + (y % 16 * 4 + z / 64) / 4 == y
    ensures (y % 16 * 4 + z / 64) % 4 * 64 + z % 64 == z
  {
  }

  lemma {:induction false} TwoBytes(x: Byte, y: Byte)
    ensures DecodeFour([Letter(x / 4), Letter(x % 4 * 16 + y / 16), Letter(y % 16 * 4), PAD], true) == Some([x, y])
  {
    IndexOfLetter(x / 4);
    IndexOfLetter(x % 4 * 16 + y / 16);
    IndexOfLetter(y % 16 * 4);
  }

  lemma {:induction false} OneByte(x: Byte)
    ensures DecodeFour([Letter(x / 4), Letter(x % 4 * 16), PAD, PAD], true) == Some([x])
  {
    IndexOfLetter(x / 4);
    IndexOfLetter(x % 4 * 16);
  }

  lemma {:induction false} DecodeLast(s: string, bytes: seq<Byte>)
    requires |s| == 4 && DecodeFour(s, true) == Some(bytes)
    ensures Decode(s) == Some(bytes)
  {
    assert s[..4] == s && s[4..] == "";
    assert bytes + [] == bytes;
  }

  lemma {:induction false} DecodeFirst(a: nat, b: nat, c: nat, d: nat, rest: string, bytes: seq<Byte>, more: seq<Byte>)
    requires a < 64 && b < 64 && c < 64 && d < 64
    requires bytes == [a * 4 + b / 16, b % 16 * 16 + c / 4, c % 4 * 64 + d] && Decode(rest) == Some(more)
    ensures Decode(Group(a, b, c, d) + rest) == Some(bytes + more)
  {
    var front := Group(a, b, c, d);
    DecodeGroup(a, b, c, d, |front + rest| == 4);
    assert (front + rest)[..4] == front && (front + rest)[4..] == rest;
  }

  lemma {:induction false} DecodeShort(bytes: seq<Byte>)
    requires |bytes| == 1 || |bytes| == 2
    ensures Decode(Encode(bytes)) == Some(bytes)
  {
    if |bytes| == 1 {
      OneByte(bytes[0]);
      assert bytes == [bytes[0]];
    } else {
      TwoBytes(bytes[0], bytes[1]);
      assert bytes == [bytes[0], bytes[1]];
    }
    DecodeLast(Encode(bytes), bytes);
  }

  /** Decoding undoes encoding, for any bytes. */
  lemma {:induction false} DecodeEncode(bytes: seq<Byte>)
    ensures Decode(Encode(bytes)) == Some(bytes)
  {
    if bytes == [] {
    } else if |bytes| < 3 {
      DecodeShort(bytes);
    } else {
      assert bytes == [bytes[0], bytes[1], bytes[2]] + bytes[3..];
      DecodeEncode(bytes[3..]);
      DecodeThree(bytes[0], bytes[1], bytes[2], Encode(bytes[3..]), bytes[3..]);
    }
  }

  lemma {:induction false} DecodeThree(x: Byte, y: Byte, z: Byte, rest: string, more: seq<Byte>)
    requires Decode(rest) == Some(more)
    ensures Decode(Group(x / 4, x % 4 * 16 + y / 16, y % 16 * 4 + z / 64, z % 64) + rest) == Some([x, y, z] + more)
  {
    Bits(x, y, z);
    DecodeFirst(x / 4, x % 4 * 16 + y / 16, y % 16 * 4 + z / 64, z % 64, rest, [x, y, z], more);
  }

  predicate UrlSafe(c: char) {
    Index(c).Some? || c == PAD
  }

  ghost predicate AllUrlSafe(s: string) {
    forall i :: 0 <= i < |s| ==> UrlSafe(s[i])
  }

  lemma {:induction false} GroupIsUrlSafe(a: nat, b: nat, c: nat, d: nat)
    requires a < 64 && b < 64 && c < 64 && d < 64
    ensures AllUrlSafe(Group(a, b, c, d))
  {
    IndexOfLetter(a);
    IndexOfLetter(b);
    IndexOfLetter(c);
    IndexOfLetter(d);
  }

  lemma {:induction false} ConcatIsUrlSafe(s: string, t: string)
    requires AllUrlSafe(s) && AllUrlSafe(t)
    ensures AllUrlSafe(s + t)
  {
  }

  /** The text comes in groups of four. */
  lemma {:induction false} EncodeLength(bytes: seq<Byte>)
    ensures |Encode(bytes)| == (|bytes| + 2) / 3 * 4
    decreases |bytes|
  {
    if |bytes| >= 3 {
      EncodeLength(bytes[3..]);
      assert (|bytes| + 2) / 3 == (|bytes[3..]| + 2) / 3 + 1;
    } else if bytes != [] {
      ShortIsUrlSafe(bytes);
    }
  }

  /** The text is safe in a URL. */
  lemma {:induction false} EncodeIsUrlSafe(bytes: seq<Byte>)
    ensures AllUrlSafe(Encode(bytes))
    decreases |bytes|
  {
    if |bytes| >= 3 {
      var x, y, z := bytes[0], bytes[1], bytes[2];
      EncodeIsUrlSafe(bytes[3..]);
      GroupIsUrlSafe(x / 4, x % 4 * 16 + y / 16, y % 16 * 4 + z / 64, z % 64);
      ConcatIsUrlSafe(Group(x / 4, x % 4 * 16 + y / 16, y % 16 * 4 + z / 64, z % 64), Encode(bytes[3..]));
    } else if bytes != [] {
      ShortIsUrlSafe(bytes);
    }
  }

  lemma {:induction false} ShortIsUrlSafe(bytes: seq<Byte>)
    requires |bytes| == 1 || |bytes| == 2
    ensures AllUrlSafe(Encode(bytes)) && |Encode(bytes)| == 4
  {
    if |bytes| == 1 {
      OneByte(bytes[0]);
    } else {
      TwoBytes(bytes[0], bytes[1]);
      IndexOfLetter(bytes[1] % 16 * 4);
    }
  }

  lemma {:induction false} EncodeForUrl(bytes: seq<Byte>)
    ensures AllUrlSafe(Encode(bytes)) && |Encode(bytes)| % 4 == 0
  {
    EncodeIsUrlSafe(bytes);
    EncodeLength(bytes);
  }
}
