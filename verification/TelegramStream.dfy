/** The updates that the bot API holds, and which of them an offset acknowledges. */
module TelegramStream {
  import opened Basics
  import opened Telegram

  ghost predicate AscendingIds(stream: seq<Received>) {
    forall i, j :: 0 <= i < j < |stream| ==> stream[i].Id() < stream[j].Id()
  }

  predicate AtOrPast(u: Received, offset: Option<int>) {
    offset.None? || u.Id() >= offset.value
  }

  /** The updates on one side of the offset. */
  function OnSide(stream: seq<Received>, offset: Option<int>, past: bool): seq<Received> {
    if stream == [] then []
    else
      var init, last := OnSide(stream[..|stream| - 1], offset, past), stream[|stream| - 1];
      if AtOrPast(last, offset) == past then init + [last] else init
  }

  /** Updates at or past the offset: what the API still has to deliver. */
  function Unread(stream: seq<Received>, offset: Option<int>): seq<Received> {
    OnSide(stream, offset, true)
  }

  /** Updates before the offset: acknowledged, never delivered again. */
  function Acknowledged(stream: seq<Received>, offset: Option<int>): seq<Received> {
    OnSide(stream, offset, false)
  }

  /** The offset of a reader that consumed the first `n` updates. */
  function OffsetAt(stream: seq<Received>, n: nat): Option<int>
    requires n <= |stream|
  {
    if n == 0 then None else Some(stream[n - 1].Id() + 1)
  }

  lemma {:induction false} OnSideConcat(a: seq<Received>, b: seq<Received>, offset: Option<int>, past: bool)
    ensures OnSide(a + b, offset, past) == OnSide(a, offset, past) + OnSide(b, offset, past)
    decreases |b|
  {
    if b == [] {
      assert a + b == a;
    } else {
      assert (a + b)[..|a + b| - 1] == a + b[..|b| - 1];
      OnSideConcat(a, b[..|b| - 1], offset, past);
    }
  }

  lemma {:induction false} AllOnSide(stream: seq<Received>, offset: Option<int>, past: bool)
    requires forall i :: 0 <= i < |stream| ==> AtOrPast(stream[i], offset) == past
    ensures OnSide(stream, offset, past) == stream && OnSide(stream, offset, !past) == []
  {
    if stream != [] {
      AllOnSide(stream[..|stream| - 1], offset, past);
      assert stream == stream[..|stream| - 1] + [stream[|stream| - 1]];
    }
  }

  lemma {:induction false} PartsAt(a: seq<Received>, b: seq<Received>, offset: Option<int>)
    requires forall i :: 0 <= i < |a| ==> !AtOrPast(a[i], offset)
    requires forall i :: 0 <= i < |b| ==> AtOrPast(b[i], offset)
    ensures Unread(a + b, offset) == b && Acknowledged(a + b, offset) == a
  {
    OnSideConcat(a, b, offset, true);
    OnSideConcat(a, b, offset, false);
    AllOnSide(a, offset, false);
    AllOnSide(b, offset, true);
    assert [] + b == b && a + [] == a;
  }

  lemma {:induction false} Halves(stream: seq<Received>, n: nat)
    requires n <= |stream|
    ensures stream[..n] + stream[n..] == stream
  {
  }

  /** Such an offset parts the stream right behind what was consumed. */
  lemma {:induction false} OffsetParts(stream: seq<Received>, n: nat)
    requires AscendingIds(stream) && n <= |stream|
    ensures Unread(stream, OffsetAt(stream, n)) == stream[n..]
    ensures Acknowledged(stream, OffsetAt(stream, n)) == stream[..n]
  {
    Halves(stream, n);
    PartsAt(stream[..n], stream[n..], OffsetAt(stream, n));
  }

  // ---- What the client makes of an answer -------------------------------------------------

  lemma {:induction false} ValidatedConcat(a: seq<Received>, b: seq<Received>)
    ensures Validated(a + b) == Validated(a) + Validated(b)
    decreases |b|
  {
    if b == [] {
      assert a + b == a;
    } else {
      assert (a + b)[..|a + b| - 1] == a + b[..|b| - 1];
      ValidatedConcat(a, b[..|b| - 1]);
    }
  }

  /** Everything up to the last sound update of an answer. */
  function UpToSound(answer: seq<Received>): (k: nat)
    ensures k <= |answer|
    ensures k > 0 ==> answer[k - 1].Sound?
    ensures forall i :: k <= i < |answer| ==> answer[i].Malformed?
  {
    if answer == [] then 0
    else if answer[|answer| - 1].Sound? then |answer|
    else UpToSound(answer[..|answer| - 1])
  }

  lemma {:induction false} NothingSound(answer: seq<Received>)
    requires forall i :: 0 <= i < |answer| ==> answer[i].Malformed?
    ensures Validated(answer) == []
  {
    if answer != [] {
      NothingSound(answer[..|answer| - 1]);
    }
  }

  /** Malformed updates at the end leave no trace. */
  lemma {:induction false} ValidatedUpToSound(answer: seq<Received>)
    ensures var k := UpToSound(answer);
            && Validated(answer[..k]) == Validated(answer)
            && (Validated(answer) == [] <==> k == 0)
            && (k > 0 ==> Validated(answer)[|Validated(answer)| - 1] == answer[k - 1].update)
  {
    var k := UpToSound(answer);
    assert answer == answer[..k] + answer[k..];
    ValidatedConcat(answer[..k], answer[k..]);
    NothingSound(answer[k..]);
    assert Validated(answer[..k]) + [] == Validated(answer[..k]);
  }

  lemma {:induction false} ValidatedFrom(answer: seq<Received>, i: nat)
    requires i < |Validated(answer)|
    ensures exists j :: 0 <= j < |answer| && answer[j] == Sound(Validated(answer)[i])
  {
    var init, last := answer[..|answer| - 1], answer[|answer| - 1];
    if i < |Validated(init)| {
      ValidatedFrom(init, i);
      var j :| 0 <= j < |init| && init[j] == Sound(Validated(init)[i]);
      assert answer[j] == Sound(Validated(answer)[i]);
    } else {
      assert answer[|answer| - 1] == Sound(Validated(answer)[i]);
    }
  }

  /** The largest id the client sees is that of the last sound update. */
  lemma {:induction false} LastSoundIsMax(answer: seq<Received>)
    requires AscendingIds(answer) && UpToSound(answer) > 0
    ensures MaxId(Validated(answer)) == Some(answer[UpToSound(answer) - 1].Id())
  {
    var k, updates := UpToSound(answer), Validated(answer);
    ValidatedUpToSound(answer);
    var i :| 0 <= i < |updates| && updates[i].id == MaxId(updates).value;
    ValidatedFrom(answer, i);
    var j :| 0 <= j < |answer| && answer[j] == Sound(updates[i]);
    assert j <= k - 1;
  }
}
