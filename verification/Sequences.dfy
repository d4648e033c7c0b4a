/** Small facts about sequences that several tables share. */
module Sequences {

  /** At most the first `n` elements: SQL's LIMIT, Python's `s[:n]`. */
  function Take<T>(s: seq<T>, n: nat): seq<T> {
    if n < |s| then s[..n] else s
  }

  ghost predicate NoRepeats<T>(s: seq<T>) {
    forall i, j :: 0 <= i < j < |s| ==> s[i] != s[j]
  }

  /** `s` with consecutive repeats removed. */
  function Destutter<T(==)>(s: seq<T>): (r: seq<T>)
    ensures s == [] <==> r == []
    ensures s != [] ==> r[|r| - 1] == s[|s| - 1]
    ensures |r| <= |s|
  {
    if |s| <= 1 then s
    else
      var shorter := Destutter(s[..|s| - 1]);
      if s[|s| - 1] == s[|s| - 2] then shorter else shorter + [s[|s| - 1]]
  }

  /** No two neighbours are equal, so `Destutter` really is free of repeats. */
  lemma {:induction false} DestutterHasNoRepeats<T>(s: seq<T>)
    ensures forall i :: 0 < i < |Destutter(s)| ==> Destutter(s)[i] != Destutter(s)[i - 1]
  {
    if |s| > 1 {
      DestutterHasNoRepeats(s[..|s| - 1]);
      assert s[..|s| - 1][|s| - 2] == s[|s| - 2];
    }
  }

  lemma {:induction false} DestutterAppend<T>(s: seq<T>, x: T)
    ensures Destutter(s + [x]) ==
            if s != [] && s[|s| - 1] == x then Destutter(s) else Destutter(s) + [x]
  {
    assert (s + [x])[..|s|] == s;
  }

  /** Destuttering a prefix gives a prefix. */
  lemma {:induction false} DestutterPrefix<T>(s: seq<T>, n: nat)
    requires n <= |s|
    ensures Destutter(s[..n]) <= Destutter(s)
    decreases |s|
  {
    if n < |s| {
      DestutterPrefix(s[..|s| - 1], n);
      assert s[..|s| - 1][..n] == s[..n];
    } else {
      assert s[..n] == s;
    }
  }

  /** How many of the numbers below `n` occur in `batch`. */
  function Taken(batch: seq<nat>, n: nat): nat {
    if n == 0 then 0 else Taken(batch, n - 1) + (if n - 1 in batch then 1 else 0)
  }

  lemma {:induction false} TakenAll(batch: seq<nat>, n: nat)
    requires NoRepeats(batch) && forall p :: 0 <= p < |batch| ==> batch[p] < n
    ensures Taken(batch, n) == |batch|
    decreases |batch|
  {
    if batch == [] {
      TakenNone(n);
    } else {
      var k := |batch| - 1;
      assert batch == batch[..k] + [batch[k]];
      TakenAll(batch[..k], n);
      assert batch[k] !in batch[..k];
      TakenOneMore(batch[..k], batch[k], n);
    }
  }

  lemma {:induction false} TakenNone(n: nat)
    ensures Taken([], n) == 0
  {
    if n > 0 {
      TakenNone(n - 1);
    }
  }

  lemma {:induction false} TakenOneMore(batch: seq<nat>, x: nat, n: nat)
    requires x !in batch
    ensures Taken(batch + [x], n) == Taken(batch, n) + (if x < n then 1 else 0)
  {
    if n > 0 {
      TakenOneMore(batch, x, n - 1);
    }
  }

  /** Fewer numbers occur in `a` than in `b`, which has them all and `x`. */
  lemma {:induction false} FewerTaken(a: seq<nat>, b: seq<nat>, x: nat, n: nat)
    requires (forall y :: y in a ==> y in b) && x in b && x !in a
    ensures Taken(a, n) + (if x < n then 1 else 0) <= Taken(b, n)
  {
    if n > 0 {
      FewerTaken(a, b, x, n - 1);
    }
  }
}
