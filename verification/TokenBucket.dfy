/**
 The push-tap limiter: one token bucket per source, ten taps at once and one more every six seconds.
 Times are in milliseconds.
 */
module TokenBucket {
  import opened Wrappers

  const CAPACITY: real := 10.0
  const REFILL_MS: real := 6000.0

  type Source = string

  datatype Bucket = Bucket(tokens: real, last: real)

  type Buckets = map<Source, Bucket>

  datatype Tap = Tap(source: Source, now: real)

  function Min(a: real, b: real): real {
    if a < b then a else b
  }

  function Refill(b: Bucket, now: real): Bucket {
    if now - b.last > 0.0 then Bucket(Min(CAPACITY, b.tokens + (now - b.last) / REFILL_MS), now) else b
  }

  function BucketAt(m: Buckets, tap: Tap): Bucket {
    Refill(if tap.source in m then m[tap.source] else Bucket(CAPACITY, tap.now), tap.now)
  }

  predicate Allows(m: Buckets, tap: Tap) {
    BucketAt(m, tap).tokens >= 1.0
  }

  function Take(m: Buckets, tap: Tap): Buckets {
    var b := BucketAt(m, tap);
    m[tap.source := if b.tokens < 1.0 then b else b.(tokens := b.tokens - 1.0)]
  }

  function TakeAll(m: Buckets, taps: seq<Tap>): Buckets
    decreases |taps|
  {
    if taps == [] then m else TakeAll(Take(m, taps[0]), taps[1..])
  }

  /** How many taps of one source are allowed between two times. */
  function AllowedBetween(m: Buckets, taps: seq<Tap>, s: Source, from: real, to: real): nat
    decreases |taps|
  {
    if taps == [] then 0
    else (if taps[0].source == s && from <= taps[0].now <= to && Allows(m, taps[0]) then 1 else 0)
         + AllowedBetween(Take(m, taps[0]), taps[1..], s, from, to)
  }

  predicate Inv(m: Buckets) {
    forall s :: s in m ==> 0.0 <= m[s].tokens <= CAPACITY
  }

  lemma {:induction false} TokensInRange(m: Buckets, taps: seq<Tap>)
    requires Inv(m)
    ensures Inv(TakeAll(m, taps))
    decreases |taps|
  {
    if taps != [] {
      TokensInRange(Take(m, taps[0]), taps[1..]);
    }
  }

  /** The clock never runs backward. */
  predicate Ordered(taps: seq<Tap>, start: real) {
    taps != [] ==> start <= taps[0].now && Ordered(taps[1..], taps[0].now)
  }

  /** What a source could spend at a time, if it last tapped before. */
  function Credit(m: Buckets, s: Source, now: real): real {
    if s in m then Min(CAPACITY, m[s].tokens + (now - m[s].last) / REFILL_MS) else CAPACITY
  }

  /** Credit never grows faster than one token per refill period. */
  lemma CreditGrowsSlowly(m: Buckets, s: Source, t: real, u: real)
    requires t <= u
    ensures Credit(m, s, u) - u / REFILL_MS <= Credit(m, s, t) - t / REFILL_MS
  {
  }

  /** A tap spends one token of credit if it is allowed, and none otherwise; other sources keep theirs. */
  lemma TakeSpends(m: Buckets, tap: Tap, s: Source, now: real)
    requires Inv(m) && (s in m ==> m[s].last <= tap.now) && tap.now <= now
    ensures tap.source != s ==> Credit(Take(m, tap), s, now) == Credit(m, s, now)
    ensures tap.source == s ==> Credit(Take(m, tap), s, now) <= Credit(m, s, now)
    ensures tap.source == s && Allows(m, tap) ==>
              Credit(Take(m, tap), s, now) == Min(CAPACITY, Credit(m, s, tap.now) - 1.0 + (now - tap.now) / REFILL_MS)
    ensures tap.source == s && !Allows(m, tap) ==> Credit(Take(m, tap), s, now) == Credit(m, s, now)
    ensures tap.source == s ==> (Allows(m, tap) <==> Credit(m, s, tap.now) >= 1.0)
    ensures s in Take(m, tap) ==> Take(m, tap)[s].last <= tap.now
  {
  }

  function Later(a: real, b: real): real {
    if a < b then b else a
  }

  /** The potential argument: allowed taps are paid for by the credit at the start and by the refill
      since. */
  lemma {:induction false} PaidFor(m: Buckets, taps: seq<Tap>, s: Source, start: real, from: real, to: real)
    requires Inv(m) && Ordered(taps, start) && (s in m ==> m[s].last <= start) && from <= to
    ensures start > to ==> AllowedBetween(m, taps, s, from, to) == 0
    ensures start <= to ==>
              var at := Later(start, from);
              AllowedBetween(m, taps, s, from, to) as real <= Credit(m, s, at) + (to - at) / REFILL_MS
    decreases |taps|
  {
    var at := Later(start, from);
    CreditPositive(m, s, at);
    if taps != [] {
      var tap, next := taps[0], Take(m, taps[0]);
      TakeKeepsInv(m, tap);
      TakeSpends(m, tap, s, Later(tap.now, from));
      PaidFor(next, taps[1..], s, tap.now, from, to);
      CreditGrowsSlowly(m, s, at, Later(tap.now, from));
    }
  }

  lemma CreditPositive(m: Buckets, s: Source, at: real)
    requires Inv(m) && (s in m ==> m[s].last <= at)
    ensures 0.0 <= Credit(m, s, at) <= CAPACITY
  {
  }

  lemma TakeKeepsInv(m: Buckets, tap: Tap)
    requires Inv(m)
    ensures Inv(Take(m, tap))
  {
  }

  /** For every sequence of taps with a clock that never runs backward: between two times a source is
      allowed at most ten taps and one for every six seconds of the interval. */
  lemma TapsAreBounded(m: Buckets, taps: seq<Tap>, s: Source, start: real, from: real, to: real)
    requires Inv(m) && Ordered(taps, start) && (s in m ==> m[s].last <= start) && from <= to
    ensures AllowedBetween(m, taps, s, from, to) as real <= 10.0 + (to - from) / 6000.0
  {
    PaidFor(m, taps, s, start, from, to);
    CreditPositive(m, s, Later(start, from));
  }

  lemma {:induction false} OneMoreTap(m: Buckets, taps: seq<Tap>, tap: Tap, s: Source, from: real, to: real)
    ensures TakeAll(m, taps + [tap]) == Take(TakeAll(m, taps), tap)
    ensures AllowedBetween(m, taps + [tap], s, from, to)
            == AllowedBetween(m, taps, s, from, to)
               + if tap.source == s && from <= tap.now <= to && Allows(TakeAll(m, taps), tap) then 1 else 0
    decreases |taps|
  {
    if taps == [] {
      assert [] + [tap] == [tap] && [tap][1..] == [];
    } else {
      OneMoreTap(Take(m, taps[0]), taps[1..], tap, s, from, to);
      assert (taps + [tap])[1..] == taps[1..] + [tap];
    }
  }

  /** The last tap of an ordered run is the latest. */
  lemma {:induction false} OrderedInit(taps: seq<Tap>, tap: Tap, start: real)
    requires Ordered(taps + [tap], start)
    ensures Ordered(taps, start) && start <= tap.now && NoneAfter(taps, tap.now)
  {
    if taps != [] {
      assert (taps + [tap])[1..] == taps[1..] + [tap];
      OrderedInit(taps[1..], tap, taps[0].now);
    }
  }

  predicate NoneAfter(taps: seq<Tap>, now: real) {
    forall i :: 0 <= i < |taps| ==> taps[i].now <= now
  }

  lemma {:induction false} NoneAllowedLater(m: Buckets, taps: seq<Tap>, s: Source, from: real, now: real, to: real)
    requires NoneAfter(taps, now) && now <= to
    ensures AllowedBetween(m, taps, s, from, to) == AllowedBetween(m, taps, s, from, now)
    ensures now < from ==> AllowedBetween(m, taps, s, from, to) == 0
    decreases |taps|
  {
    if taps != [] {
      NoneAllowedLater(Take(m, taps[0]), taps[1..], s, from, now, to);
    }
  }

  /** What a source is short of was spent: for some moment since which its bucket was never full, its credit
      is at least what it had then, with the refill since and without the taps allowed since. */
  lemma {:induction false} SpentSince(taps: seq<Tap>, s: Source, start: real, now: real) returns (from: real)
    requires Ordered(taps, start) && NoneAfter(taps, now) && start <= now
    ensures from <= now
    ensures Credit(TakeAll(map[], taps), s, now)
            >= CAPACITY + (now - from) / REFILL_MS - AllowedBetween(map[], taps, s, from, now) as real
    ensures s in TakeAll(map[], taps) ==> TakeAll(map[], taps)[s].last <= now
    decreases |taps|
  {
    if taps == [] {
      return now;
    }
    var init, tap := taps[..|taps| - 1], taps[|taps| - 1];
    assert taps == init + [tap];
    OrderedInit(init, tap, start);
    var m := TakeAll(map[], init);
    TokensInRange(map[], init);
    var before := SpentSince(init, s, start, tap.now);
    OneMoreTap(map[], init, tap, s, now, now);
    TakeSpends(m, tap, s, now);
    if tap.source == s && Allows(m, tap) {
      if Credit(Take(m, tap), s, now) == CAPACITY {
        CreditPositive(m, s, tap.now);
        NoneAllowedLater(map[], init, s, now, tap.now, now);
        return now;
      }
      OneMoreTap(map[], init, tap, s, before, now);
      NoneAllowedLater(map[], init, s, before, tap.now, now);
      return before;
    }
    assert forall i :: 0 <= i < |init| ==> init[i] == taps[i];
    from := SpentSince(init, s, start, now);
    OneMoreTap(map[], init, tap, s, from, now);
  }

  /** The bound is exact.  After any taps with a clock that never runs backward, a tap is allowed if and only
      if no interval up to it, itself included, gets more than ten taps and one for every six seconds:
      refused taps in between cost nothing. */
  lemma TapAllowedIff(taps: seq<Tap>, tap: Tap, start: real)
    requires Ordered(taps + [tap], start)
    ensures Allows(TakeAll(map[], taps), tap)
            <==> forall from: real :: from <= tap.now ==>
                   AllowedBetween(map[], taps, tap.source, from, tap.now) as real + 1.0 <= 10.0 + (tap.now - from) / 6000.0
  {
    var s, m := tap.source, TakeAll(map[], taps);
    OrderedInit(taps, tap, start);
    TokensInRange(map[], taps);
    var spent := SpentSince(taps, s, start, tap.now);
    TakeSpends(m, tap, s, tap.now);
    if Allows(m, tap) {
      forall from: real | from <= tap.now
        ensures AllowedBetween(map[], taps, s, from, tap.now) as real + 1.0 <= CAPACITY + (tap.now - from) / REFILL_MS
      {
        OneMoreTap(map[], taps, tap, s, from, tap.now);
        TapsAreBounded(map[], taps + [tap], s, start, from, tap.now);
      }
    } else {
      assert AllowedBetween(map[], taps, s, spent, tap.now) as real + 1.0 > CAPACITY + (tap.now - spent) / REFILL_MS;
    }
  }

  /** A tap at least six seconds after the source's previous one is always allowed, and so is its first. */
  lemma SpacedTapAllowed(m: Buckets, tap: Tap)
    requires Inv(m) && (tap.source in m ==> tap.now - m[tap.source].last >= REFILL_MS)
    ensures Allows(m, tap)
  {
  }

  function OnlyOf(taps: seq<Tap>, s: Source): seq<Tap> {
    if taps == [] then [] else (if taps[0].source == s then [taps[0]] else []) + OnlyOf(taps[1..], s)
  }

  lemma {:induction false} SameBucketSameTaps(m: Buckets, n: Buckets, taps: seq<Tap>, s: Source, from: real, to: real)
    requires (s in m <==> s in n) && (s in m ==> m[s] == n[s])
    ensures AllowedBetween(m, taps, s, from, to) == AllowedBetween(n, OnlyOf(taps, s), s, from, to)
    decreases |taps|
  {
    if taps != [] {
      var rest := OnlyOf(taps[1..], s);
      if taps[0].source == s {
        assert ([taps[0]] + rest)[1..] == rest;
        SameBucketSameTaps(Take(m, taps[0]), Take(n, taps[0]), taps[1..], s, from, to);
      } else {
        assert [] + rest == rest;
        SameBucketSameTaps(Take(m, taps[0]), n, taps[1..], s, from, to);
      }
    }
  }

  /** Sources do not affect each other: a source is treated as if the others' taps had not happened. */
  lemma SourcesAreIndependent(m: Buckets, taps: seq<Tap>, s: Source, from: real, to: real)
    ensures AllowedBetween(m, taps, s, from, to) == AllowedBetween(m, OnlyOf(taps, s), s, from, to)
  {
    SameBucketSameTaps(m, m, taps, s, from, to);
  }

  class PushTapLimiter {
    var pushTapBuckets: Buckets

    constructor ()
      ensures pushTapBuckets == map[]
    {
      pushTapBuckets := map[];
    }

    method AllowPushTap(source: Source, now: real) returns (allowed: bool)
      modifies this
      ensures pushTapBuckets == Take(old(pushTapBuckets), Tap(source, now))
      ensures allowed <==> Allows(old(pushTapBuckets), Tap(source, now))
    {
      if source !in pushTapBuckets {
        pushTapBuckets := pushTapBuckets[source := Bucket(CAPACITY, now)];
      }
      var bucket := pushTapBuckets[source];
      var elapsed := now - bucket.last;
      if elapsed > 0.0 {
        bucket := Bucket(Min(CAPACITY, bucket.tokens + elapsed / REFILL_MS), now);
        pushTapBuckets := pushTapBuckets[source := bucket];
      }
      if bucket.tokens < 1.0 {
        return false;
      }
      pushTapBuckets := pushTapBuckets[source := bucket.(tokens := bucket.tokens - 1.0)];
      return true;
    }
  }
}
