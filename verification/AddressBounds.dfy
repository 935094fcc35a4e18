/** When the login limiter bounds the successes of a single address (apps/server/src/rate-limiter.ts): exactly if the
    window has no more addresses than there are buckets, or the options make the global bucket a sufficient bound. */
module AddressBounds {
  import opened Collections
  import opened RateLimiting

  // ---------------------------------------------------------------- breaking the bound

  ghost function UpTo(i: nat): set<Address> {
    if i == 0 then {} else UpTo(i - 1) + {i}
  }

  lemma {:induction false} UpToMembers(i: nat)
    ensures |UpTo(i)| == i && forall b :: b in UpTo(i) <==> 1 <= b <= i
  {
    if i > 0 {
      UpToMembers(i - 1);
    }
  }

  lemma {:induction false} PrefixCounts(r: Run, v: Run, of: Option<Address>, n: nat)
    requires n <= |r.ops| == |r.allowed| && |v.ops| == |v.allowed| && r.ops <= v.ops && r.allowed <= v.allowed
    ensures Successes(v, of, n) == Successes(r, of, n) && Addresses(v.ops, n) == Addresses(r.ops, n)
  {
    if n > 0 {
      PrefixCounts(r, v, of, n - 1);
    }
  }

  /** A run without resets, over address 0 and as many others as there are buckets. */
  ghost predicate Trace(o: Options, r: Run) {
    && IsRun(o, r) && Valid(Last(r), o)
    && (forall a :: ResetAddress(a) !in r.ops)
    && Addresses(r.ops, |r.ops|) <= {0} + UpTo(o.maxAddresses)
  }

  /** The successes of address 0. */
  ghost function Wins(r: Run): nat
    requires |r.ops| == |r.allowed|
  {
    Successes(r, Some(0), |r.ops|)
  }

  ghost function Passed(r: Run): real
    requires r.states != []
  {
    Last(r).lastNow - First(r).lastNow
  }

  lemma Begun(o: Options, l: Limiter) returns (r: Run)
    requires Valid(l, o)
    ensures Trace(o, r) && First(r) == Last(r) == l && Wins(r) == 0
  {
    r := Run([], [l], []);
  }

  ghost function Longer(o: Options, r: Run, a: Address, clock: Option<real>): Run
    requires r.states != [] && Consistent(Last(r))
  {
    var after := Consume(Last(r), o, a, clock);
    Run(r.ops + [Attempt(a, clock)], r.states + [after.0], r.allowed + [after.1])
  }

  lemma LongerIsRun(o: Options, r: Run, a: Address, clock: Option<real>)
    requires IsRun(o, r) && Valid(Last(r), o)
    ensures IsRun(o, Longer(o, r, a, clock))
  {
    var v := Longer(o, r, a, clock);
    forall k | 0 <= k < |v.ops|
      ensures StepOf(o, v, k)
    {
      if k < |r.ops| {
        assert StepOf(o, r, k);
        assert v.states[k] == r.states[k] && v.states[k + 1] == r.states[k + 1];
      }
    }
  }

  lemma LongerCounts(o: Options, r: Run, a: Address, clock: Option<real>)
    requires IsRun(o, r) && Valid(Last(r), o)
    ensures var v := Longer(o, r, a, clock);
            && Wins(v) == Wins(r) + (if a == 0 && Consume(Last(r), o, a, clock).1 then 1 else 0)
            && Addresses(v.ops, |v.ops|) == Addresses(r.ops, |r.ops|) + {a}
  {
    PrefixCounts(r, Longer(o, r, a, clock), Some(0), |r.ops|);
  }

  /** Trace `r` with one more attempt. */
  lemma Attempted(o: Options, r: Run, a: Address, clock: Option<real>) returns (v: Run)
    requires Trace(o, r) && a <= o.maxAddresses
    ensures Trace(o, v) && First(v) == First(r) && Last(v) == Consume(Last(r), o, a, clock).0
    ensures Wins(v) == Wins(r) + if a == 0 && Consume(Last(r), o, a, clock).1 then 1 else 0
  {
    v := Longer(o, r, a, clock);
    ConsumeIsValid(Last(r), o, a, clock);
    UpToMembers(o.maxAddresses);
    LongerIsRun(o, r, a, clock);
    LongerCounts(o, r, a, clock);
  }

  /** What an attempt does when no time passes. */
  lemma AttemptTakes(l: Limiter, o: Options, a: Address)
    requires Valid(l, o)
    ensures var (v, allowed) := Consume(l, o, a, None);
            var full := if a in l.buckets then l.buckets[a].tokens else o.address.capacity;
            && v.lastNow == l.lastNow && v.global.tokens == l.global.tokens - (if allowed then 1.0 else 0.0)
            && a in v.buckets && v.buckets[a].tokens >= full - 1.0
            && (allowed ==> l.global.tokens >= 1.0)
            && (l.global.tokens >= 1.0 && full >= 1.0 ==> allowed)
  {
    TrackedIsValid(l, o, a, l.lastNow);
    var bucket := Tracked(l, o, a, l.lastNow).buckets[a];
    GainLaws(o.address, Max(0.0, l.lastNow - bucket.updatedAt), 0.0);
    GainLaws(o.global, Max(0.0, l.lastNow - l.global.updatedAt), 0.0);
  }

  /** Address 0 spends `n` tokens of a full bucket. */
  lemma {:induction false} SpendAll(o: Options, l: Limiter, n: nat) returns (r: Run)
    requires Valid(l, o) && 0 !in l.buckets && n as real <= o.address.capacity && n as real <= l.global.tokens
    ensures Trace(o, r) && First(r) == l && Passed(r) == 0.0 && Wins(r) == n
    ensures Last(r).global.tokens == l.global.tokens - n as real
    ensures if n == 0 then Last(r) == l
            else 0 in Last(r).buckets && Last(r).buckets[0].tokens >= o.address.capacity - n as real
    ensures |l.order| < o.maxAddresses && Empty(l, 1, o.maxAddresses) ==> Empty(Last(r), 1, o.maxAddresses)
  {
    if n == 0 {
      r := Begun(o, l);
    } else {
      var before := SpendAll(o, l, n - 1);
      if |l.order| < o.maxAddresses && Empty(l, 1, o.maxAddresses) {
        AttemptKeepsEmpty(Last(before), o, 0, 1);
      }
      AttemptTakes(Last(before), o, 0);
      r := Attempted(o, before, 0, None);
    }
  }

  ghost predicate Windows(l: Limiter, used: set<Address>, mark: nat) {
    forall b: Address {:trigger Window(l, used, mark, b)} :: Window(l, used, mark, b)
  }

  lemma WindowsOpen(l: Limiter, o: Options)
    requires Valid(l, o)
    ensures Windows(l, UpTo(0), l.sequence)
  {
  }

  lemma AttemptKeepsWindows(l: Limiter, o: Options, mark: nat, i: nat)
    requires Valid(l, o) && 1 <= i <= o.maxAddresses && Windows(l, UpTo(i - 1), mark)
    ensures Consistent(l) && Windows(Consume(l, o, i, None).0, UpTo(i), mark)
  {
    UpToMembers(i);
    forall b: Address
      ensures Window(Consume(l, o, i, None).0, UpTo(i), mark, b)
    {
      AttemptKeepsWindow(l, o, UpTo(i - 1), mark, b, i, None);
    }
  }

  /** The others are used in turn; each is tracked from then on.  A drained global bucket denies them all. */
  lemma {:induction false} UseOthers(o: Options, before: Run, i: nat) returns (r: Run)
    requires Trace(o, before) && i <= o.maxAddresses
    ensures Trace(o, r) && First(r) == First(before) && Last(r).lastNow == Last(before).lastNow
            && Wins(r) == Wins(before)
    ensures Last(before).global.tokens - i as real <= Last(r).global.tokens <= Last(before).global.tokens
    ensures Last(before).global.tokens < 1.0 ==> Last(r).global.tokens == Last(before).global.tokens
    ensures Windows(Last(r), UpTo(i), Last(before).sequence)
  {
    if i == 0 {
      r := before;
      WindowsOpen(Last(before), o);
    } else {
      var front := UseOthers(o, before, i - 1);
      AttemptKeepsWindows(Last(front), o, Last(before).sequence, i);
      AttemptTakes(Last(front), o, i);
      r := Attempted(o, front, i, None);
    }
  }

  lemma OthersFillTheMap(o: Options, l: Limiter, mark: nat)
    requires Valid(l, o) && Windows(l, UpTo(o.maxAddresses), mark)
    ensures 0 !in l.buckets
  {
    UpToMembers(o.maxAddresses);
    DistinctSize(l.order);
    if 0 in l.buckets {
      forall b | b in UpTo(o.maxAddresses) + {0}
        ensures b in Elements(l.order)
      {
        assert Window(l, UpTo(o.maxAddresses), mark, b);
      }
      SubsetSize(UpTo(o.maxAddresses) + {0}, Elements(l.order));
    }
  }

  /** Address 0 loses its bucket to the others, and will come back with a full one. */
  lemma Evict(o: Options, before: Run) returns (r: Run)
    requires Trace(o, before)
    ensures Trace(o, r) && First(r) == First(before) && Last(r).lastNow == Last(before).lastNow
            && Wins(r) == Wins(before)
    ensures Last(before).global.tokens - o.maxAddresses as real <= Last(r).global.tokens <= Last(before).global.tokens
    ensures Last(before).global.tokens < 1.0 ==> Last(r).global.tokens == Last(before).global.tokens
    ensures 0 !in Last(r).buckets
  {
    r := UseOthers(o, before, o.maxAddresses);
    OthersFillTheMap(o, Last(r), Last(before).sequence);
  }

  /** Both buckets can hold a token, and the global one is refilled. */
  ghost predicate Refills(o: Options) {
    ValidOptions(o) && o.address.capacity >= 1.0 && o.global.capacity >= 1.0 && o.global.refillPerSecond > 0.0
  }

  /** The milliseconds in which the global bucket gains `tokens`. */
  ghost function TimeFor(o: Options, tokens: real): real
    requires Refills(o)
  {
    tokens / o.global.refillPerSecond * 1000.0
  }

  lemma WaitingGains(o: Options, tokens: real)
    requires Refills(o)
    ensures Gain(TimeFor(o, tokens), o.global) == tokens
    ensures tokens >= 0.0 ==> TimeFor(o, tokens) >= 0.0
  {
  }

  /** An untracked address passes as soon as the global bucket holds a token again. */
  lemma WaitingPasses(l: Limiter, o: Options, a: Address)
    requires Refills(o) && Valid(l, o) && a !in l.buckets && l.global.tokens < 1.0
    ensures var (v, allowed) := Consume(l, o, a, Some(l.lastNow + TimeFor(o, 1.0 - l.global.tokens)));
            allowed && v.global.tokens == 0.0 && v.lastNow == l.lastNow + TimeFor(o, 1.0 - l.global.tokens)
  {
    var wait := TimeFor(o, 1.0 - l.global.tokens);
    WaitingGains(o, 1.0 - l.global.tokens);
    var now := ClampedNow(l.lastNow, Some(l.lastNow + wait));
    assert now == l.lastNow + wait && now - l.global.updatedAt == wait;
    TrackedIsValid(l.(lastNow := now), o, a, now);
    GainLaws(o.address, 0.0, 0.0);
  }

  /** Address 0 is evicted for nothing, and takes the next token that the global bucket gains. */
  lemma OneRound(o: Options, before: Run) returns (r: Run)
    requires Refills(o) && Trace(o, before) && Last(before).global.tokens < 1.0
    ensures Trace(o, r) && First(r) == First(before) && Wins(r) == Wins(before) + 1 && Last(r).global.tokens == 0.0
    ensures Last(r).lastNow == Last(before).lastNow + TimeFor(o, 1.0 - Last(before).global.tokens)
  {
    var evicted := Evict(o, before);
    WaitingPasses(Last(evicted), o, 0);
    r := Attempted(o, evicted, 0, Some(Last(evicted).lastNow + TimeFor(o, 1.0 - Last(evicted).global.tokens)));
  }

  /** From a drained global bucket on, every token it gains can go to address 0. */
  lemma {:induction false} Rounds(o: Options, before: Run, k: nat) returns (r: Run)
    requires Refills(o) && Trace(o, before) && Last(before).global.tokens < 1.0 && k > 0
    ensures Trace(o, r) && First(r) == First(before) && Wins(r) == Wins(before) + k && Last(r).global.tokens == 0.0
    ensures Last(r).lastNow == Last(before).lastNow + TimeFor(o, k as real - Last(before).global.tokens)
  {
    if k == 1 {
      r := OneRound(o, before);
    } else {
      var front := Rounds(o, before, k - 1);
      r := OneRound(o, front);
      RoundsAdd(o, k - 1, Last(before).global.tokens);
    }
  }

  lemma Quotient(x: real, d: real, q: real)
    requires d != 0.0 && q * d == x
    ensures x / d == q
  {
  }

  lemma TimesAdd(o: Options, x: real, y: real)
    requires Refills(o)
    ensures TimeFor(o, x + y) == TimeFor(o, x) + TimeFor(o, y)
  {
    var d := o.global.refillPerSecond;
    var p, q := x / d, y / d;
    assert (p + q) * d == p * d + q * d == x + y;
    Quotient(x + y, d, p + q);
  }

  lemma RoundsAdd(o: Options, k: nat, level: real)
    requires Refills(o)
    ensures TimeFor(o, (k + 1) as real - level) == TimeFor(o, k as real - level) + TimeFor(o, 1.0)
  {
    TimesAdd(o, k as real - level, 1.0);
    assert k as real - level + 1.0 == (k + 1) as real - level;
  }

  /** Without any time passing the global bucket can be drained, since an address that is evicted always comes back. */
  lemma {:induction false} Drain(o: Options, before: Run) returns (r: Run)
    requires Trace(o, before) && o.address.capacity >= 1.0
    ensures Trace(o, r) && First(r) == First(before) && Last(r).lastNow == Last(before).lastNow
            && Wins(r) >= Wins(before)
    ensures Last(r).global.tokens < 1.0
    decreases Last(before).global.tokens.Floor
  {
    if Last(before).global.tokens < 1.0 {
      r := before;
    } else {
      var evicted := Evict(o, before);
      if Last(evicted).global.tokens < 1.0 {
        r := evicted;
      } else {
        AttemptTakes(Last(evicted), o, 0);
        r := Attempted(o, evicted, 0, None);
        r := Drain(o, r);
      }
    }
  }

  lemma InitialIsValid(o: Options)
    requires ValidOptions(o)
    ensures Valid(Initial(o, None), o)
  {
  }

  /** A global bucket that is refilled faster than an address's. */
  ghost predicate RefillsFaster(o: Options) {
    Refills(o) && o.address.refillPerSecond < o.global.refillPerSecond
  }

  /** A global bucket that outlasts one round through all addresses. */
  ghost predicate Roomy(o: Options) {
    && ValidOptions(o) && o.address.capacity >= 1.0
    && o.global.capacity >= (o.address.capacity.Floor + o.maxAddresses + 1) as real
  }

  /** What an address gains while the global bucket gains `tokens`. */
  lemma AddressGains(o: Options, tokens: real)
    requires Refills(o)
    ensures Gain(TimeFor(o, tokens), o.address) * o.global.refillPerSecond == tokens * o.address.refillPerSecond
  {
    var d, q := o.global.refillPerSecond, tokens / o.global.refillPerSecond;
    assert TimeFor(o, tokens) / 1000.0 == q;
    assert q * o.address.refillPerSecond * d == q * d * o.address.refillPerSecond;
  }

  lemma SomeMultiple(c: real, d: real) returns (k: nat)
    requires c > 0.0 && d > 0.0
    ensures k > 0 && k as real * d > c
  {
    var x := c / d;
    k := x.Floor + 1;
    StrictlyScaled(x, k as real, d);
  }

  /** Enough successes overtake the bound, however many tokens there are at the start. */
  lemma Overtakes(capacity: real, slow: real, fast: real, level: real) returns (k: nat)
    requires capacity > 0.0 && 0.0 <= slow < fast && level >= 0.0
    ensures k > 0 && forall w: nat {:trigger Product(w as real, fast)} ::
                       w >= k ==> Product(w as real, fast) > capacity * fast + (k as real - level) * slow
  {
    Scaled(0.0, capacity, fast);
    StrictlyScaled(0.0, capacity, fast);
    k := SomeMultiple(capacity * fast, fast - slow);
    var n := k as real;
    assert n * (fast - slow) == n * fast - n * slow;
    Scaled(n - level, n, slow);
    forall w: nat {:trigger Product(w as real, fast)} | w >= k
      ensures Product(w as real, fast) > capacity * fast + (n - level) * slow
    {
      Scaled(n, w as real, fast);
    }
  }

  function Product(x: real, y: real): real {
    x * y
  }

  /** The successes of address 0 are compared with its bound after both sides are multiplied by the global rate. */
  lemma BreaksIf(o: Options, r: Run, tokens: real)
    requires Refills(o) && Trace(o, r) && Passed(r) == TimeFor(o, tokens)
    requires Product(Wins(r) as real, o.global.refillPerSecond)
             > o.address.capacity * o.global.refillPerSecond + tokens * o.address.refillPerSecond
    ensures !AddressBounded(o, r, 0)
  {
    AddressGains(o, tokens);
    var w, bound, fast := Wins(r) as real, o.address.capacity + Gain(Passed(r), o.address), o.global.refillPerSecond;
    assert bound * fast == o.address.capacity * fast + Gain(Passed(r), o.address) * fast;
    if w <= bound {
      Scaled(w, bound, fast);
      assert false;
    }
  }

  lemma StrictlyScaled(x: real, y: real, d: real)
    requires x < y && d > 0.0
    ensures x * d < y * d
  {
  }

  lemma Scaled(x: real, y: real, d: real)
    requires x <= y && d >= 0.0
    ensures x * d <= y * d
  {
  }

  /** With a faster global bucket: drain it, and from then on spend every token it gains. */
  lemma FasterBreaks(o: Options) returns (r: Run)
    requires RefillsFaster(o)
    ensures Trace(o, r) && First(r) == Initial(o, None) && !AddressBounded(o, r, 0)
  {
    InitialIsValid(o);
    var start := Begun(o, Initial(o, None));
    var drained := Drain(o, start);
    var level := Last(drained).global.tokens;
    var k := Overtakes(o.address.capacity, o.address.refillPerSecond, o.global.refillPerSecond, level);
    r := Rounds(o, drained, k);
    assert Passed(r) == TimeFor(o, k as real - level);
    BreaksIf(o, r, k as real - level);
  }

  /** With a large global bucket no time need pass. */
  lemma RoomyBreaks(o: Options) returns (r: Run)
    requires Roomy(o)
    ensures Trace(o, r) && First(r) == Initial(o, None) && !AddressBounded(o, r, 0)
  {
    InitialIsValid(o);
    var spent := SpendAll(o, Initial(o, None), o.address.capacity.Floor);
    var evicted := Evict(o, spent);
    AttemptTakes(Last(evicted), o, 0);
    r := Attempted(o, evicted, 0, None);
    assert Gain(0.0, o.address) == 0.0;
  }

  /** With one address more than buckets the bound is false, from the initial state on: an address that has spent its
      bucket is evicted by attempts that may well be denied, and comes back with a full one. */
  lemma OneAddressMoreBreaksTheBound(o: Options) returns (r: Run)
    requires RefillsFaster(o) || Roomy(o)
    ensures IsRun(o, r) && First(r) == Initial(o, None) && ResetAddress(0) !in r.ops
    ensures |Addresses(r.ops, |r.ops|)| <= o.maxAddresses + 1
    ensures !AddressBounded(o, r, 0)
  {
    if RefillsFaster(o) {
      r := FasterBreaks(o);
    } else {
      r := RoomyBreaks(o);
    }
    TraceIsSmall(o, r);
  }

  lemma TraceIsSmall(o: Options, r: Run)
    requires Trace(o, r)
    ensures |Addresses(r.ops, |r.ops|)| <= o.maxAddresses + 1
  {
    UpToMembers(o.maxAddresses);
    SubsetSize(Addresses(r.ops, |r.ops|), {0} + UpTo(o.maxAddresses));
  }

  /** The options of the server. */
  const SERVER_OPTIONS := Options(Config(20.0, 1.0 / 3.0), Config(5.0, 1.0 / 12.0), 256)

  lemma ServerOptionsBreakTheBound()
    ensures exists r ::
              && IsRun(SERVER_OPTIONS, r) && First(r) == Initial(SERVER_OPTIONS, None) && ResetAddress(0) !in r.ops
              && |Addresses(r.ops, |r.ops|)| <= SERVER_OPTIONS.maxAddresses + 1
              && !AddressBounded(SERVER_OPTIONS, r, 0)
  {
    var r := OneAddressMoreBreaksTheBound(SERVER_OPTIONS);
  }

  // ---------------------------------------------------------------- the exact condition

  /** A start that need not be the initial one: the global bucket at some level, nobody tracked. */
  function StartAt(o: Options, level: real): Limiter {
    Initial(o, None).(global := Bucket(level, 0.0, 0))
  }

  /** The whole tokens of an address bucket. */
  function Whole(o: Options): int {
    o.address.capacity.Floor
  }

  /** The comparison that decides for a slower refill: what is missing to one success too many is gained sooner by a
      global bucket at this level than by the address bucket. */
  ghost predicate Ahead(o: Options, level: real) {
    Product(o.address.refillPerSecond, (Whole(o) + 1) as real - level)
    < Product(o.global.refillPerSecond, (Whole(o) + 1) as real - o.address.capacity)
  }

  lemma ProductGrows(slow: real, fast: real, less: real, more: real)
    requires 0.0 <= slow <= fast && 0.0 <= less <= more
    ensures Product(slow, less) <= Product(fast, more)
  {
    Scaled(slow, fast, less);
    Scaled(less, more, fast);
    assert less * fast == fast * less && more * fast == fast * more;
  }

  lemma Half(slow: real, fast: real, left: real) returns (half: real)
    requires 0.0 < slow <= fast && 0.0 < left <= 1.0
    ensures 0.0 < half <= 0.5 && Product(fast, half) < Product(slow, left)
  {
    var whole := Product(slow, left) / fast;
    StrictlyScaled(0.0, slow, left);
    Scaled(slow, fast, left);
    if whole > left {
      StrictlyScaled(left, whole, fast);
      assert false;
    }
    if whole <= 0.0 {
      Scaled(whole, 0.0, fast);
      assert false;
    }
    half := whole / 2.0;
    assert Product(fast, half) == Product(slow, left) / 2.0;
  }

  /** A level between `Whole` and one more that is ahead. */
  lemma NarrowLevel(o: Options) returns (level: real)
    requires Refills(o) && o.global.refillPerSecond <= o.address.refillPerSecond && Ahead(o, o.global.capacity)
    ensures Whole(o) as real <= level < (Whole(o) + 1) as real && 0.0 <= level <= o.global.capacity && Ahead(o, level)
  {
    var least := (Whole(o) + 1) as real;
    if o.global.capacity < least {
      level := o.global.capacity;
      if level <= o.address.capacity {
        ProductGrows(o.global.refillPerSecond, o.address.refillPerSecond, least - o.address.capacity, least - level);
        assert false;
      }
    } else {
      var half := Half(o.global.refillPerSecond, o.address.refillPerSecond, least - o.address.capacity);
      level := least - half;
      assert least - level == half;
    }
  }

  lemma Distributes(x: real, y: real, d: real)
    ensures Product(x, d) == Product(d, x - y) + y * d
  {
    assert d * (x - y) == x * d - y * d;
  }

  lemma Commutes(x: real, y: real)
    ensures Product(y, x) == x * y
  {
  }

  /** With a global bucket that is refilled more slowly, but is ahead by a fraction of a token. */
  lemma NarrowBreaks(o: Options) returns (r: Run)
    requires Refills(o) && o.global.refillPerSecond <= o.address.refillPerSecond && Ahead(o, o.global.capacity)
    ensures Trace(o, r) && !AddressBounded(o, r, 0)
  {
    var level := NarrowLevel(o);
    var spent := SpendAll(o, StartAt(o, level), Whole(o));
    r := OneRound(o, spent);
    var missing := (Whole(o) + 1) as real - level;
    assert 1.0 - Last(spent).global.tokens == missing;
    Distributes((Whole(o) + 1) as real, o.address.capacity, o.global.refillPerSecond);
    Commutes(missing, o.address.refillPerSecond);
    BreaksIf(o, r, missing);
  }

  /** Buckets of the addresses from `i` on that hold nothing at the present time. */
  ghost predicate Empty(l: Limiter, i: nat, max: nat) {
    forall b {:trigger b in l.buckets} :: i <= b < max ==>
      b in l.buckets && l.buckets[b].tokens == 0.0 && l.buckets[b].updatedAt == l.lastNow
  }

  function Numbers(k: nat): seq<Address> {
    seq(k, i => i + 1)
  }

  /** All addresses but the last of the others have just spent their buckets, while the global bucket is full. */
  ghost function Exhausted(o: Options): Limiter
    requires o.maxAddresses > 0
  {
    Limiter(Bucket(o.global.capacity, 0.0, 0), Numbers(o.maxAddresses - 1),
            map b | 1 <= b < o.maxAddresses :: Bucket(0.0, 0.0, b), 0.0, o.maxAddresses)
  }

  lemma ExhaustedIsValid(o: Options)
    requires ValidOptions(o)
    ensures Valid(Exhausted(o), o) && Empty(Exhausted(o), 1, o.maxAddresses) && 0 !in Exhausted(o).buckets
  {
    var l := Exhausted(o);
    forall a
      ensures a in l.order <==> a in l.buckets
    {
      if 1 <= a < o.maxAddresses {
        assert l.order[a - 1] == a;
      }
    }
  }

  lemma AttemptKeepsEmpty(l: Limiter, o: Options, a: Address, i: nat)
    requires Valid(l, o) && Empty(l, i, o.maxAddresses) && a < i
    requires a in l.buckets || |l.order| < o.maxAddresses
    ensures Empty(Consume(l, o, a, None).0, i, o.maxAddresses)
  {
    TrackedIsValid(l, o, a, l.lastNow);
  }

  lemma EmptyDenies(l: Limiter, o: Options, a: Address)
    requires Valid(l, o) && a in l.buckets && l.buckets[a].tokens == 0.0 && l.buckets[a].updatedAt == l.lastNow
    ensures !Consume(l, o, a, None).1
  {
    GainLaws(o.address, 0.0, 0.0);
  }

  /** Addresses that have just spent their buckets are used at no cost to the global one. */
  lemma {:induction false} TouchOthers(o: Options, before: Run, i: nat) returns (r: Run)
    requires Trace(o, before) && i < o.maxAddresses && Empty(Last(before), 1, o.maxAddresses)
    ensures Trace(o, r) && First(r) == First(before) && Last(r).lastNow == Last(before).lastNow
    ensures Wins(r) == Wins(before) && Last(r).global.tokens == Last(before).global.tokens
    ensures Windows(Last(r), UpTo(i), Last(before).sequence) && Empty(Last(r), i + 1, o.maxAddresses)
  {
    if i == 0 {
      r := before;
      WindowsOpen(Last(before), o);
    } else {
      var front := TouchOthers(o, before, i - 1);
      assert i in Last(front).buckets;
      EmptyDenies(Last(front), o, i);
      AttemptTakes(Last(front), o, i);
      AttemptKeepsWindows(Last(front), o, Last(before).sequence, i);
      StillEmpty(Last(front), o, i);
      r := Attempted(o, front, i, None);
    }
  }

  lemma StillEmpty(l: Limiter, o: Options, i: nat)
    requires Valid(l, o) && Empty(l, i, o.maxAddresses) && i in l.buckets
    ensures Empty(Consume(l, o, i, None).0, i + 1, o.maxAddresses)
  {
    assert Empty(l, i + 1, o.maxAddresses);
    AttemptKeepsEmpty(l, o, i, i + 1);
  }

  /** Address 0 spends its bucket and is evicted at the cost of a single token. */
  lemma LeanEvict(o: Options) returns (r: Run)
    requires ValidOptions(o) && o.address.capacity >= 1.0 && o.global.capacity >= (Whole(o) + 2) as real
    ensures Trace(o, r) && First(r) == Exhausted(o) && Passed(r) == 0.0 && Wins(r) == Whole(o)
    ensures 0 !in Last(r).buckets && Last(r).global.tokens >= o.global.capacity - (Whole(o) + 1) as real
  {
    ExhaustedIsValid(o);
    var spent := SpendAll(o, Exhausted(o), Whole(o));
    var touched := TouchOthers(o, spent, o.maxAddresses - 1);
    AttemptKeepsWindows(Last(touched), o, Last(spent).sequence, o.maxAddresses);
    AttemptTakes(Last(touched), o, o.maxAddresses);
    r := Attempted(o, touched, o.maxAddresses, None);
    OthersFillTheMap(o, Last(r), Last(spent).sequence);
  }

  /** With a global bucket that is ahead by two tokens no time need pass either. */
  lemma LeanBreaks(o: Options) returns (r: Run)
    requires ValidOptions(o) && o.address.capacity >= 1.0 && o.global.capacity >= (Whole(o) + 2) as real
    ensures Trace(o, r) && !AddressBounded(o, r, 0)
  {
    var evicted := LeanEvict(o);
    AttemptTakes(Last(evicted), o, 0);
    r := Attempted(o, evicted, 0, None);
    assert Gain(0.0, o.address) == 0.0;
  }

  /** Options under which the global bucket bounds every address, however many there are: a bucket that never holds a
      token; without refill, fewer than two tokens ahead of an address bucket; and otherwise a refill no faster than
      that of an address bucket, and no more ahead than the slower refill makes up for. */
  ghost predicate GlobalSuffices(o: Options) {
    || o.address.capacity < 1.0 || o.global.capacity < 1.0
    || (if o.global.refillPerSecond == 0.0 then o.global.capacity < (Whole(o) + 2) as real
        else o.global.refillPerSecond <= o.address.refillPerSecond && !Ahead(o, o.global.capacity))
  }

  lemma AllowedNeedsCapacity(l: Limiter, o: Options, op: Op)
    requires Valid(l, o)
    ensures Allowed(l, o, op) ==> o.address.capacity >= 1.0 && o.global.capacity >= 1.0
  {
  }

  lemma {:induction false} NoCapacityNoSuccess(o: Options, r: Run, of: Option<Address>, n: nat)
    requires IsRun(o, r) && n <= |r.ops| && (o.address.capacity < 1.0 || o.global.capacity < 1.0)
    ensures Successes(r, of, n) == 0
  {
    if n > 0 {
      NoCapacityNoSuccess(o, r, of, n - 1);
      RunStaysValid(o, r, n - 1);
      assert StepOf(o, r, n - 1);
      AllowedNeedsCapacity(r.states[n - 1], o, r.ops[n - 1]);
    }
  }

  lemma {:induction false} TimeDoesNotGoBack(o: Options, r: Run, m: nat, n: nat)
    requires IsRun(o, r) && m <= n <= |r.ops|
    ensures r.states[m].lastNow <= r.states[n].lastNow
  {
    if m < n {
      TimeDoesNotGoBack(o, r, m, n - 1);
      RunStaysValid(o, r, n - 1);
      assert StepOf(o, r, n - 1);
      ApplyIsValid(r.states[n - 1], o, r.ops[n - 1]);
    }
  }

  /** Successes of one address among the first `m` and the first `n` operations are among all successes there. */
  lemma {:induction false} SuccessesGrow(r: Run, a: Address, m: nat, n: nat)
    requires m <= n <= |r.ops| == |r.allowed|
    ensures 0 <= Successes(r, Some(a), n) - Successes(r, Some(a), m) <= Successes(r, None, n) - Successes(r, None, m)
  {
    if m < n {
      SuccessesGrow(r, a, m, n - 1);
    }
  }

  /** The whole number after a capacity is the least number of successes that exceeds it. */
  lemma ExceedsWhole(o: Options, w: nat)
    requires w as real > o.address.capacity
    ensures w >= Whole(o) + 1
  {
  }

  /** With a refill the global bound and the comparison of rates leave no room for a success too many. */
  lemma SlowRefillSuffices(o: Options, w: nat, seconds: real)
    requires ValidOptions(o) && GlobalSuffices(o) && o.global.refillPerSecond > 0.0
    requires o.address.capacity >= 1.0 && o.global.capacity >= 1.0 && seconds >= 0.0
    requires w as real <= o.global.capacity + seconds * o.global.refillPerSecond
    ensures w as real <= o.address.capacity + seconds * o.address.refillPerSecond
  {
    if w as real > o.address.capacity {
      ExceedsWhole(o, w);
      Outrun(w as real, (Whole(o) + 1) as real, o.global.refillPerSecond, o.address.refillPerSecond, o.global.capacity,
             o.address.capacity, seconds);
    } else {
      Scaled(0.0, seconds, o.address.refillPerSecond);
    }
  }

  lemma Cancels(x: real, y: real, d: real)
    requires d > 0.0 && x * d <= y * d
    ensures x <= y
  {
    if x > y {
      StrictlyScaled(y, x, d);
    }
  }

  lemma Outrun(x: real, least: real, slow: real, fast: real, global: real, address: real, seconds: real)
    requires 0.0 < slow <= fast && seconds >= 0.0 && least <= x <= global + seconds * slow
    requires Product(slow, least - address) <= Product(fast, least - global)
    ensures x <= address + seconds * fast
  {
    Scaled(least, x, fast - slow);
    Rearranged(x, least, slow, fast, global, address);
    Scaled(x - global, seconds * slow, fast);
    assert seconds * slow * fast == seconds * fast * slow;
    Cancels(x - address, seconds * fast, slow);
  }

  lemma Rearranged(x: real, least: real, slow: real, fast: real, global: real, address: real)
    requires least * (fast - slow) <= x * (fast - slow)
    requires Product(slow, least - address) <= Product(fast, least - global)
    ensures Product(x - address, slow) <= Product(x - global, fast)
  {
    assert least * (fast - slow) == least * fast - least * slow;
    assert x * (fast - slow) == x * fast - x * slow;
  }

  // Without a refill, and with a global bucket less than two tokens ahead: every success would have to be that of the
  // one address, and while a token is left nobody else can get a bucket without a success.

  lemma {:induction false} TokensLeft(o: Options, r: Run, n: nat)
    requires IsRun(o, r) && n <= |r.ops| && o.global.refillPerSecond == 0.0
    ensures r.states[n].global.tokens == First(r).global.tokens - Successes(r, None, n) as real
  {
    if n > 0 {
      TokensLeft(o, r, n - 1);
      RunStaysValid(o, r, n - 1);
      assert StepOf(o, r, n - 1);
      UnrefilledSpends(r.states[n - 1], o, r.ops[n - 1]);
    }
  }

  lemma UnrefilledSpends(l: Limiter, o: Options, op: Op)
    requires Valid(l, o) && o.global.refillPerSecond == 0.0
    ensures Apply(l, o, op).global.tokens == l.global.tokens - if Allowed(l, o, op) then 1.0 else 0.0
  {
    if op.Attempt? {
      var now := ClampedNow(l.lastNow, op.clock);
      TrackedIsValid(l.(lastNow := now), o, op.address, now);
      assert Gain(Max(0.0, now - l.global.updatedAt), o.global) == 0.0;
    }
  }

  lemma SoleOwnStep(l: Limiter, o: Options, used: set<Address>, a: Address, clock: Option<real>)
    requires Valid(l, o) && (a in used ==> a in l.buckets)
    ensures a in Consume(l, o, a, clock).0.buckets
    ensures SpendsFairly(l, Consume(l, o, a, clock).0, o, used, used + {a}, a,
                         if Consume(l, o, a, clock).1 then 1.0 else 0.0)
  {
    ConsumeIsValid(l, o, a, clock);
    TrackedIsValid(l.(lastNow := ClampedNow(l.lastNow, clock)), o, a, ClampedNow(l.lastNow, clock));
    OwnAttemptSpends(l, o, a, clock);
    LevelIsBounded(l, o, a);
  }

  lemma SoleOtherStep(l: Limiter, o: Options, used: set<Address>, a: Address, b: Address, clock: Option<real>)
    requires Valid(l, o) && (a in used ==> a in l.buckets) && b != a
    requires o.address.capacity >= 1.0 && l.global.tokens >= 1.0 && !Consume(l, o, b, clock).1
    ensures a in used ==> a in Consume(l, o, b, clock).0.buckets
    ensures SpendsFairly(l, Consume(l, o, b, clock).0, o, used, used + {b}, a, 0.0)
  {
    ConsumeIsValid(l, o, b, clock);
    DeniedIsTracked(l, o, b, clock);
    GainLaws(o.address, Consume(l, o, b, clock).0.lastNow - l.lastNow, 0.0);
    if a in used {
      UntouchedLevel(l, o, a, Consume(l, o, b, clock).0);
    }
  }

  /** While the global bucket holds a token and only `a` succeeds, `a` keeps its bucket. */
  lemma SoleStep(l: Limiter, o: Options, used: set<Address>, used': set<Address>, a: Address, op: Op)
    requires Valid(l, o) && o.address.capacity >= 1.0 && l.global.tokens >= 1.0
    requires op != ResetAddress(a) && (Allowed(l, o, op) ==> op.address == a) && (a in used ==> a in l.buckets)
    requires used' == if op.Attempt? then used + {op.address} else used
    ensures a in used' ==> a in Apply(l, o, op).buckets
    ensures SpendsFairly(l, Apply(l, o, op), o, used, used', a, TokensTaken(op, Allowed(l, o, op), a))
  {
    match op
    case ResetAddress(b) => assert Gain(l.lastNow - l.lastNow, o.address) == 0.0;
    case Attempt(b, clock) =>
      if b == a {
        SoleOwnStep(l, o, used, a, clock);
      } else {
        SoleOtherStep(l, o, used, a, b, clock);
      }
  }

  lemma LevelIsBounded(l: Limiter, o: Options, a: Address)
    ensures Level(l, o, a) <= o.address.capacity
  {
  }

  lemma DeniedIsTracked(l: Limiter, o: Options, b: Address, clock: Option<real>)
    requires Valid(l, o) && o.address.capacity >= 1.0 && l.global.tokens >= 1.0 && !Consume(l, o, b, clock).1
    ensures b in l.buckets
  {
    var now := ClampedNow(l.lastNow, clock);
    TrackedIsValid(l.(lastNow := now), o, b, now);
    GainLaws(o.address, 0.0, 0.0);
    GainLaws(o.global, Max(0.0, now - l.global.updatedAt), 0.0);
  }

  /** Only `a` succeeds, and there is no refill. */
  ghost predicate Sole(o: Options, r: Run, a: Address, total: nat) {
    && IsRun(o, r) && ResetAddress(a) !in r.ops
    && o.global.refillPerSecond == 0.0 && o.address.capacity >= 1.0
    && Successes(r, None, |r.ops|) == Successes(r, Some(a), |r.ops|) == total
  }

  /** Before the last success a token is left. */
  lemma SoleTokens(o: Options, r: Run, a: Address, total: nat, k: nat)
    requires Sole(o, r, a, total) && k < |r.ops| && Successes(r, None, k) < total
    ensures Valid(r.states[k], o) && r.states[k].global.tokens >= 1.0
  {
    RunStaysValid(o, r, k);
    RunStaysValid(o, r, |r.ops|);
    TokensLeft(o, r, k);
    TokensLeft(o, r, |r.ops|);
  }

  /** Whatever succeeds is an attempt of `a`. */
  lemma SoleSucceeds(o: Options, r: Run, a: Address, total: nat, k: nat)
    requires Sole(o, r, a, total) && k < |r.ops| && Consistent(r.states[k])
    ensures Allowed(r.states[k], o, r.ops[k]) ==> r.ops[k].address == a
  {
    assert StepOf(o, r, k);
    SuccessesGrow(r, a, k + 1, |r.ops|);
    SuccessesGrow(r, a, k, k + 1);
    SuccessesGrow(r, a, 0, k);
  }

  /** The allowance holds as long as fewer than all of the successes are through. */
  lemma {:induction false} SoleAllowance(o: Options, r: Run, a: Address, total: nat, n: nat)
    requires Sole(o, r, a, total) && n <= |r.ops| && (n > 0 ==> Successes(r, None, n - 1) < total)
    ensures a in Addresses(r.ops, n) ==> a in r.states[n].buckets
    ensures Successes(r, Some(a), n) as real + Allowance(r.states[n], o, Addresses(r.ops, n), a)
            <= o.address.capacity + Gain(r.states[n].lastNow - First(r).lastNow, o.address)
  {
    if n == 0 {
      assert Gain(First(r).lastNow - First(r).lastNow, o.address) == 0.0;
    } else {
      if n > 1 {
        SuccessesGrow(r, a, n - 2, n - 1);
      }
      SoleAllowance(o, r, a, total, n - 1);
      SoleTokens(o, r, a, total, n - 1);
      SoleSucceeds(o, r, a, total, n - 1);
      StepFacts(o, r, n - 1);
      SoleStep(r.states[n - 1], o, Addresses(r.ops, n - 1), Addresses(r.ops, n), a, r.ops[n - 1]);
      GainSplits(o.address, First(r).lastNow, r.states[n - 1].lastNow, r.states[n].lastNow);
    }
  }

  /** The operations up to the last success. */
  lemma {:induction false} UpToLastSuccess(r: Run, total: nat, n: nat) returns (m: nat)
    requires n <= |r.ops| == |r.allowed| && Successes(r, None, n) == total > 0
    ensures 0 < m <= n && Successes(r, None, m) == total && Successes(r, None, m - 1) < total
  {
    if Successes(r, None, n - 1) < total {
      m := n;
    } else {
      m := UpToLastSuccess(r, total, n - 1);
    }
  }

  lemma NoRefillSuffices(o: Options, r: Run, a: Address)
    requires IsRun(o, r) && ResetAddress(a) !in r.ops && GlobalSuffices(o)
    requires o.global.refillPerSecond == 0.0 && o.address.capacity >= 1.0 && o.global.capacity >= 1.0
    ensures AddressBounded(o, r, a)
  {
    var n, w := |r.ops|, Successes(r, Some(a), |r.ops|);
    TimeDoesNotGoBack(o, r, 0, n);
    GainLaws(o.address, Last(r).lastNow - First(r).lastNow, 0.0);
    if w as real > o.address.capacity {
      ExceedsWhole(o, w);
      GlobalBound(o, r);
      assert Gain(Last(r).lastNow - First(r).lastNow, o.global) == 0.0;
      SuccessesGrow(r, a, 0, n);
      var m := UpToLastSuccess(r, w, n);
      SoleAllowance(o, r, a, w, m);
      SuccessesGrow(r, a, m, n);
      RunStaysValid(o, r, m);
      AllowanceIsNotNegative(r.states[m], o, Addresses(r.ops, m), a);
      TimeDoesNotGoBack(o, r, m, n);
      GainSplits(o.address, First(r).lastNow, r.states[m].lastNow, Last(r).lastNow);
      GainLaws(o.address, Last(r).lastNow - r.states[m].lastNow, 0.0);
    }
  }

  lemma GainOver(elapsed: real, seconds: real, c: Config)
    requires seconds == elapsed / 1000.0
    ensures Gain(elapsed, c) == seconds * c.refillPerSecond
  {
  }

  lemma ElapsedSuffices(o: Options, w: nat, elapsed: real)
    requires ValidOptions(o) && GlobalSuffices(o) && o.global.refillPerSecond > 0.0 && elapsed >= 0.0
    requires o.address.capacity >= 1.0 && o.global.capacity >= 1.0
    requires w as real <= o.global.capacity + Gain(elapsed, o.global)
    ensures w as real <= o.address.capacity + Gain(elapsed, o.address)
  {
    GainOver(elapsed, elapsed / 1000.0, o.global);
    GainOver(elapsed, elapsed / 1000.0, o.address);
    SlowRefillSuffices(o, w, elapsed / 1000.0);
  }

  /** The global bucket alone keeps every address within its bound. */
  lemma GlobalBucketSuffices(o: Options, r: Run, a: Address)
    requires IsRun(o, r) && ResetAddress(a) !in r.ops && GlobalSuffices(o)
    ensures AddressBounded(o, r, a)
  {
    TimeDoesNotGoBack(o, r, 0, |r.ops|);
    GainLaws(o.address, Last(r).lastNow - First(r).lastNow, 0.0);
    if o.address.capacity < 1.0 || o.global.capacity < 1.0 {
      NoCapacityNoSuccess(o, r, Some(a), |r.ops|);
    } else if o.global.refillPerSecond == 0.0 {
      NoRefillSuffices(o, r, a);
    } else {
      GlobalBound(o, r);
      SuccessesGrow(r, a, 0, |r.ops|);
      assert Successes(r, Some(a), |r.ops|) <= Successes(r, None, |r.ops|);
      ElapsedSuffices(o, Successes(r, Some(a), |r.ops|), Last(r).lastNow - First(r).lastNow);
    }
  }

  /** Every window of at most `n` distinct addresses bounds every address it does not reset. */
  ghost predicate BoundsUpTo(o: Options, n: nat) {
    forall r, a :: IsRun(o, r) && ResetAddress(a) !in r.ops && |Addresses(r.ops, |r.ops|)| <= n ==>
      AddressBounded(o, r, a)
  }

  lemma OtherwiseBreaks(o: Options) returns (r: Run)
    requires ValidOptions(o) && !GlobalSuffices(o)
    ensures Trace(o, r) && !AddressBounded(o, r, 0)
  {
    if o.global.refillPerSecond == 0.0 {
      r := LeanBreaks(o);
    } else if o.address.refillPerSecond < o.global.refillPerSecond {
      r := FasterBreaks(o);
    } else {
      r := NarrowBreaks(o);
    }
  }

  /** The exact condition, for all options the limiter accepts. */
  lemma AddressBoundIff(o: Options, n: nat)
    requires ValidOptions(o)
    ensures BoundsUpTo(o, n) <==> n <= o.maxAddresses || GlobalSuffices(o)
  {
    if n <= o.maxAddresses || GlobalSuffices(o) {
      forall r, a | IsRun(o, r) && ResetAddress(a) !in r.ops && |Addresses(r.ops, |r.ops|)| <= n
        ensures AddressBounded(o, r, a)
      {
        if n <= o.maxAddresses {
          AddressBound(o, r, a);
        } else {
          GlobalBucketSuffices(o, r, a);
        }
      }
    } else {
      var r := OtherwiseBreaks(o);
      TraceIsSmall(o, r);
      assert !AddressBounded(o, r, 0);
    }
  }

  /** In particular, a global bucket that neither holds more nor is refilled faster than an address's suffices. */
  lemma SmallerGlobalSuffices(o: Options)
    requires ValidOptions(o) && o.global.capacity <= o.address.capacity
    requires o.global.refillPerSecond <= o.address.refillPerSecond
    ensures GlobalSuffices(o)
  {
    var least := (Whole(o) + 1) as real;
    ProductGrows(o.global.refillPerSecond, o.address.refillPerSecond, least - o.address.capacity,
                 least - o.global.capacity);
  }
}
