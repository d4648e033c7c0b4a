/** The opaque cursor of the API: a position as base 64 of a small JSON object. */
module Pagination {
  import opened Basics
  import opened TextFields
  import opened IsoTime
  import Base64

  /** A UUID as the five numbers of its text form: 8, 4, 4, 4 and 12 hexadecimal digits. */
  const UUID_FIELDS := [Field("", 8), Field("-", 4), Field("-", 4), Field("-", 4), Field("-", 12)]

  predicate IsUuid(id: seq<nat>) {
    Fits(UUID_FIELDS, id, true)
  }

  function UuidText(id: seq<nat>): string
    requires IsUuid(id)
  {
    Write(UUID_FIELDS, id, true, "")
  }

  function ReadUuid(s: string): Option<seq<nat>> {
    match Read(UUID_FIELDS, true, s)
    case None => None
    case Some(r) => if r.rest == "" then Some(r.values) else None
  }

  lemma {:induction false} UuidBack(id: seq<nat>)
    requires IsUuid(id)
    ensures ReadUuid(UuidText(id)) == Some(id)
  {
    ReadWrite(UUID_FIELDS, id, true, "");
  }

  // ---- The JSON object --------------------------------------------------------------------

  const HEAD := "{\"ts\": \""
  const MIDDLE := ", \"id\": \""
  const END := "}"

  /** `json.dumps` of two texts that need no escapes. */
  function ObjectText(ts: string, id: string): string {
    HEAD + (ts + ("\"" + (MIDDLE + (id + ("\"" + END)))))
  }

  datatype Quoted = Quoted(text: string, rest: string)

  /** A text up to its closing quote. */
  function UntilQuote(s: string): Option<Quoted> {
    if s == "" then None
    else if s[0] == '"' then Some(Quoted("", s[1..]))
    else
      match UntilQuote(s[1..])
      case None => None
      case Some(q) => Some(Quoted([s[0]] + q.text, q.rest))
  }

  datatype Fields = Fields(ts: string, id: string)

  function ReadObject(s: string): Option<Fields> {
    if !StartsWith(s, HEAD) then None
    else
      var ts := UntilQuote(s[|HEAD|..]);
      if ts.None? || !StartsWith(ts.value.rest, MIDDLE) then None
      else
        var id := UntilQuote(ts.value.rest[|MIDDLE|..]);
        if id.None? || id.value.rest != END then None else Some(Fields(ts.value.text, id.value.text))
  }

  lemma {:induction false} UntilQuoteBack(text: string, rest: string)
    requires '"' !in text
    ensures UntilQuote(text + ("\"" + rest)) == Some(Quoted(text, rest))
  {
    var s := text + ("\"" + rest);
    if text == "" {
      assert s[1..] == rest;
    } else {
      UntilQuoteBack(text[1..], rest);
      assert s[1..] == text[1..] + ("\"" + rest);
      assert text == [text[0]] + text[1..];
    }
  }

  lemma {:induction false} AfterPrefix(p: string, s: string)
    ensures StartsWith(p + s, p) && (p + s)[|p|..] == s
  {
  }

  lemma {:induction false} ObjectBack(ts: string, id: string)
    requires '"' !in ts && '"' !in id
    ensures ReadObject(ObjectText(ts, id)) == Some(Fields(ts, id))
  {
    var second := id + ("\"" + END);
    UntilQuoteBack(id, END);
    AfterPrefix(MIDDLE, second);
    UntilQuoteBack(ts, MIDDLE + second);
    AfterPrefix(HEAD, ts + ("\"" + (MIDDLE + second)));
  }

  // ---- Bytes ------------------------------------------------------------------------------

  ghost predicate Ascii(s: string) {
    forall i :: 0 <= i < |s| ==> s[i] as int < 128
  }

  /** `str.encode` of ASCII text. */
  function ToBytes(s: string): (r: seq<Base64.Byte>)
    requires Ascii(s)
    ensures |r| == |s| && forall i :: 0 <= i < |s| ==> r[i] == s[i] as int < 128
  {
    seq(|s|, i requires 0 <= i < |s| => s[i] as int)
  }

  function FromBytes(bytes: seq<Base64.Byte>): string
    requires forall i :: 0 <= i < |bytes| ==> bytes[i] < 128
  {
    seq(|bytes|, i requires 0 <= i < |bytes| => bytes[i] as char)
  }

  lemma {:induction false} ConcatAscii(a: string, b: string)
    requires Ascii(a) && Ascii(b)
    ensures Ascii(a + b)
  {
  }

  lemma {:induction false} PlainIsAscii(s: string)
    requires AllPlain(s)
    ensures Ascii(s) && '"' !in s
  {
  }

  lemma {:induction false} ObjectAscii(ts: string, id: string)
    requires Ascii(ts) && Ascii(id)
    ensures Ascii(ObjectText(ts, id))
  {
    var second := id + ("\"" + END);
    ConcatAscii(id, "\"" + END);
    ConcatAscii(MIDDLE, second);
    ConcatAscii("\"", MIDDLE + second);
    ConcatAscii(ts, "\"" + (MIDDLE + second));
    ConcatAscii(HEAD, ts + ("\"" + (MIDDLE + second)));
  }

  // ---- The cursor -------------------------------------------------------------------------

  lemma {:induction false} UuidPlain(id: seq<nat>)
    requires IsUuid(id)
    ensures AllPlain(UuidText(id))
  {
    WritePlain(UUID_FIELDS, id, true, "");
  }

  function CursorText(t: Moment, id: seq<nat>): (s: string)
    requires IsUuid(id)
    ensures Ascii(s)
  {
    IsoPlain(t);
    UuidPlain(id);
    PlainIsAscii(IsoText(t));
    PlainIsAscii(UuidText(id));
    ObjectAscii(IsoText(t), UuidText(id));
    ObjectText(IsoText(t), UuidText(id))
  }

  function EncodeCursor(t: Moment, id: seq<nat>): string
    requires IsUuid(id)
  {
    Base64.Encode(ToBytes(CursorText(t, id)))
  }

  datatype Cursor = Cursor(t: Moment, id: seq<nat>)

  function ReadCursorText(text: string): Option<Cursor> {
    var fields := ReadObject(text);
    if fields.None? then None
    else
      var t, id := ReadIso(fields.value.ts), ReadUuid(fields.value.id);
      if t.None? || id.None? then None else Some(Cursor(t.value, id.value))
  }

  /** None where decoding would raise or meets a text that `EncodeCursor` does not write. */
  function DecodeCursor(cursor: string): Option<Cursor> {
    var bytes := Base64.Decode(cursor);
    if bytes.None? || exists i :: 0 <= i < |bytes.value| && bytes.value[i] >= 128 then None
    else ReadCursorText(FromBytes(bytes.value))
  }

  lemma {:induction false} DecodeBytes(text: string)
    requires Ascii(text)
    ensures DecodeCursor(Base64.Encode(ToBytes(text))) == ReadCursorText(text)
  {
    Base64.DecodeEncode(ToBytes(text));
    assert FromBytes(ToBytes(text)) == text;
  }

  lemma {:induction false} CursorTextBack(t: Moment, id: seq<nat>)
    requires IsMoment(t) && IsUuid(id)
    ensures ReadCursorText(CursorText(t, id)) == Some(Cursor(t, id))
  {
    IsoPlain(t);
    UuidPlain(id);
    PlainIsAscii(IsoText(t));
    PlainIsAscii(UuidText(id));
    ObjectBack(IsoText(t), UuidText(id));
    IsoBack(t);
    UuidBack(id);
  }

  /** A cursor gives back the timestamp, with its offset, and the id it was made from. */
  lemma {:induction false} CursorRoundTrip(t: Moment, id: seq<nat>)
    requires IsMoment(t) && IsUuid(id)
    ensures DecodeCursor(EncodeCursor(t, id)) == Some(Cursor(t, id))
  {
    DecodeBytes(CursorText(t, id));
    CursorTextBack(t, id);
  }

  /** The cursor can stand in a URL as it is. */
  lemma {:induction false} CursorIsUrlSafe(t: Moment, id: seq<nat>)
    requires IsUuid(id)
    ensures Base64.AllUrlSafe(EncodeCursor(t, id)) && |EncodeCursor(t, id)| % 4 == 0
  {
    Base64.EncodeForUrl(ToBytes(CursorText(t, id)));
  }
}
