/** apps/server/src/rate-limiter.ts: the global and per-address token buckets that limit login attempts, with
    least-recently-used eviction of address buckets.  Arithmetic is over the reals; rounding is not modelled. */
module RateLimiting {
  import opened Collections

  /** An address after normalization. */
  type Address = nat

  datatype Config = Config(capacity: real, refillPerSecond: real)
  datatype Options = Options(global: Config, address: Config, maxAddresses: nat)
  datatype Bucket = Bucket(tokens: real, updatedAt: real, usedAt: nat)

  /** `order` is the insertion order of the address map. */
  datatype Limiter = Limiter(
    global: Bucket, order: seq<Address>, buckets: map<Address, Bucket>, lastNow: real, sequence: nat)

  ghost predicate ValidConfig(c: Config) {
    c.capacity > 0.0 && c.refillPerSecond >= 0.0
  }

  ghost predicate ValidOptions(o: Options) {
    ValidConfig(o.global) && ValidConfig(o.address) && 1 <= o.maxAddresses <= 1024
  }

  function Min(a: real, b: real): real {
    if a <= b then a else b
  }

  function Max(a: real, b: real): real {
    if a >= b then a else b
  }

  /** The clamped clock: a reading that is not finite (None) or goes back counts as no time passing. */
  function ClampedNow(lastNow: real, clock: Option<real>): real {
    match clock
    case None => lastNow
    case Some(value) => Max(lastNow, value)
  }

  /** Tokens gained over a number of milliseconds. */
  function Gain(elapsed: real, c: Config): real {
    elapsed / 1000.0 * c.refillPerSecond
  }

  function Refilled(b: Bucket, c: Config, now: real): Bucket {
    b.(tokens := Min(c.capacity, b.tokens + Gain(Max(0.0, now - b.updatedAt), c)), updatedAt := now)
  }

  /** One round of the eviction scan. */
  function Earlier(buckets: map<Address, Bucket>, selected: Address, candidate: Address): Address
    requires selected in buckets && candidate in buckets
  {
    var s, c := buckets[selected].usedAt, buckets[candidate].usedAt;
    if c < s || (c == s && candidate < selected) then candidate else selected
  }

  function Oldest(order: seq<Address>, buckets: map<Address, Bucket>): (r: Address)
    requires order != [] && forall a :: a in order ==> a in buckets
    ensures r in order
  {
    if |order| == 1 then order[0]
    else
      var last := order[|order| - 1];
      assert forall a :: a in order[..|order| - 1] ==> a in order;
      Earlier(buckets, Oldest(order[..|order| - 1], buckets), last)
  }

  ghost predicate Consistent(l: Limiter) {
    Distinct(l.order) && forall a :: a in l.order <==> a in l.buckets
  }

  function Evicted(l: Limiter): Limiter
    requires Consistent(l) && l.order != []
  {
    var oldest := Oldest(l.order, l.buckets);
    l.(order := Without(l.order, oldest), buckets := l.buckets - {oldest})
  }

  /** The bucket of the address is present, evicting another if there is no room. */
  function Tracked(l: Limiter, o: Options, a: Address, now: real): Limiter
    requires Consistent(l)
  {
    if a in l.buckets then l
    else
      var room := if |l.order| >= o.maxAddresses && l.order != [] then Evicted(l) else l;
      room.(order := room.order + [a], sequence := l.sequence + 1,
            buckets := room.buckets[a := Bucket(o.address.capacity, now, l.sequence + 1)])
  }

  /** Both buckets refilled, and one token taken from each if both have one. */
  function Spent(t: Limiter, o: Options, a: Address, now: real): (Limiter, bool)
    requires a in t.buckets
  {
    var global := Refilled(t.global, o.global, now);
    var bucket := Refilled(t.buckets[a], o.address, now).(usedAt := t.sequence + 1);
    var allowed := global.tokens >= 1.0 && bucket.tokens >= 1.0;
    var spent := if allowed then 1.0 else 0.0;
    (t.(global := global.(tokens := global.tokens - spent),
        buckets := t.buckets[a := bucket.(tokens := bucket.tokens - spent)],
        sequence := t.sequence + 1),
     allowed)
  }

  function Consume(l: Limiter, o: Options, a: Address, clock: Option<real>): (Limiter, bool)
    requires Consistent(l)
  {
    var now := ClampedNow(l.lastNow, clock);
    Spent(Tracked(l.(lastNow := now), o, a, now), o, a, now)
  }

  function Reset(l: Limiter, a: Address): Limiter {
    l.(order := Without(l.order, a), buckets := l.buckets - {a})
  }

  function Initial(o: Options, clock: Option<real>): Limiter {
    var now := ClampedNow(0.0, clock);
    Limiter(Bucket(o.global.capacity, now, 0), [], map[], now, 0)
  }

  // ---------------------------------------------------------------- invariant

  ghost predicate InRange(b: Bucket, c: Config, lastNow: real, sequence: nat) {
    0.0 <= b.tokens <= c.capacity && b.updatedAt <= lastNow && b.usedAt <= sequence
  }

  ghost predicate Valid(l: Limiter, o: Options) {
    && ValidOptions(o) && Consistent(l)
    && |l.order| <= o.maxAddresses
    && InRange(l.global, o.global, l.lastNow, l.sequence) && l.global.updatedAt == l.lastNow
    && (forall a :: a in l.buckets ==> InRange(l.buckets[a], o.address, l.lastNow, l.sequence))
    // Use stamps are never shared, so the tie-break of the eviction scan is never needed.
    && (forall a, b :: a in l.buckets && b in l.buckets && a != b ==> l.buckets[a].usedAt != l.buckets[b].usedAt)
  }

  lemma GainLaws(c: Config, x: real, y: real)
    requires ValidConfig(c)
    ensures Gain(x + y, c) == Gain(x, c) + Gain(y, c)
    ensures x >= 0.0 ==> Gain(x, c) >= 0.0
    ensures Gain(0.0, c) == 0.0
  {
  }

  lemma {:induction false} OldestIsLeastRecentlyUsed(order: seq<Address>, buckets: map<Address, Bucket>)
    requires order != [] && forall a :: a in order ==> a in buckets
    ensures forall a :: a in order ==> buckets[Oldest(order, buckets)].usedAt <= buckets[a].usedAt
  {
    if |order| > 1 {
      var front := order[..|order| - 1];
      assert forall a :: a in order <==> a in front || a == order[|order| - 1];
      OldestIsLeastRecentlyUsed(front, buckets);
    }
  }

  /** The parts of the invariant that concern the addresses. */
  ghost predicate Addressed(l: Limiter, o: Options) {
    && Consistent(l) && |l.order| <= o.maxAddresses
    && (forall a :: a in l.buckets ==> InRange(l.buckets[a], o.address, l.lastNow, l.sequence))
    && (forall a, b :: a in l.buckets && b in l.buckets && a != b ==> l.buckets[a].usedAt != l.buckets[b].usedAt)
  }

  lemma EvictedIsAddressed(l: Limiter, o: Options)
    requires Addressed(l, o) && l.order != []
    ensures Addressed(Evicted(l), o) && |Evicted(l).order| < |l.order|
  {
    WithoutDistinct(l.order, Oldest(l.order, l.buckets));
  }

  lemma AppendedIsAddressed(l: Limiter, o: Options, a: Address, b: Bucket)
    requires Addressed(l, o) && |l.order| < o.maxAddresses && a !in l.buckets
    requires InRange(b, o.address, l.lastNow, l.sequence + 1) && b.usedAt == l.sequence + 1
    ensures Addressed(l.(order := l.order + [a], sequence := l.sequence + 1, buckets := l.buckets[a := b]), o)
  {
  }

  lemma TrackedIsValid(l: Limiter, o: Options, a: Address, now: real)
    requires Addressed(l, o) && ValidOptions(o) && now == l.lastNow
    ensures var t := Tracked(l, o, a, now);
            Addressed(t, o) && a in t.buckets && t.global == l.global && t.lastNow == l.lastNow
            && t.sequence >= l.sequence
  {
    if a !in l.buckets {
      var room := l;
      if |l.order| >= o.maxAddresses {
        EvictedIsAddressed(l, o);
        room := Evicted(l);
      }
      AppendedIsAddressed(room, o, a, Bucket(o.address.capacity, now, l.sequence + 1));
    }
  }

  lemma RefillInRange(b: Bucket, c: Config, lastNow: real, now: real, sequence: nat)
    requires ValidConfig(c) && InRange(b, c, lastNow, sequence) && lastNow <= now
    ensures InRange(Refilled(b, c, now), c, now, sequence)
  {
    GainLaws(c, Max(0.0, now - b.updatedAt), 0.0);
  }

  lemma SpendIsValid(t: Limiter, o: Options, a: Address, global: Bucket, bucket: Bucket)
    requires ValidOptions(o) && Addressed(t, o) && a in t.buckets
    requires InRange(global, o.global, t.lastNow, t.sequence) && global.updatedAt == t.lastNow
    requires InRange(bucket, o.address, t.lastNow, t.sequence + 1) && bucket.usedAt == t.sequence + 1
    ensures Valid(t.(global := global, buckets := t.buckets[a := bucket], sequence := t.sequence + 1), o)
  {
  }

  /** Tokens stay within [0, capacity] in both kinds of bucket, whatever the clock returns. */
  lemma ConsumeIsValid(l: Limiter, o: Options, a: Address, clock: Option<real>)
    requires Valid(l, o)
    ensures Valid(Consume(l, o, a, clock).0, o)
    ensures Consume(l, o, a, clock).0.lastNow >= l.lastNow
  {
    var now := ClampedNow(l.lastNow, clock);
    var moved := l.(lastNow := now);
    TrackedIsValid(moved, o, a, now);
    var t := Tracked(moved, o, a, now);
    RefillInRange(l.global, o.global, l.lastNow, now, t.sequence);
    RefillInRange(t.buckets[a], o.address, now, now, t.sequence);
    var v := Consume(l, o, a, clock).0;
    SpendIsValid(t, o, a, v.global, v.buckets[a]);
  }

  lemma ResetIsValid(l: Limiter, o: Options, a: Address)
    requires Valid(l, o)
    ensures Valid(Reset(l, a), o)
  {
    WithoutDistinct(l.order, a);
  }

  // ---------------------------------------------------------------- runs

  datatype Op = Attempt(address: Address, clock: Option<real>) | ResetAddress(address: Address)

  function Apply(l: Limiter, o: Options, op: Op): Limiter
    requires Consistent(l)
  {
    match op
    case Attempt(a, clock) => Consume(l, o, a, clock).0
    case ResetAddress(a) => Reset(l, a)
  }

  predicate Allowed(l: Limiter, o: Options, op: Op)
    requires Consistent(l)
  {
    op.Attempt? && Consume(l, o, op.address, op.clock).1
  }

  lemma ApplyIsValid(l: Limiter, o: Options, op: Op)
    requires Valid(l, o)
    ensures Valid(Apply(l, o, op), o) && Apply(l, o, op).lastNow >= l.lastNow
  {
    match op
    case Attempt(a, clock) => ConsumeIsValid(l, o, a, clock);
    case ResetAddress(a) => ResetIsValid(l, o, a);
  }

  /** A window of a run: its operations, the states from first to last, and which operations were allowed. */
  datatype Run = Run(ops: seq<Op>, states: seq<Limiter>, allowed: seq<bool>)

  ghost predicate StepOf(o: Options, r: Run, k: nat)
    requires k < |r.ops| == |r.allowed| && |r.states| == |r.ops| + 1
  {
    && Consistent(r.states[k])
    && r.states[k + 1] == Apply(r.states[k], o, r.ops[k])
    && r.allowed[k] == Allowed(r.states[k], o, r.ops[k])
  }

  ghost predicate IsRun(o: Options, r: Run) {
    && |r.ops| == |r.allowed| && |r.states| == |r.ops| + 1
    && Valid(r.states[0], o)
    && forall k :: 0 <= k < |r.ops| ==> StepOf(o, r, k)
  }

  function First(r: Run): Limiter
    requires r.states != []
  {
    r.states[0]
  }

  function Last(r: Run): Limiter
    requires r.states != []
  {
    r.states[|r.states| - 1]
  }

  /** Successful attempts among the first `n` operations: all of them, or those of one address. */
  function Successes(r: Run, of: Option<Address>, n: nat): nat
    requires n <= |r.ops| == |r.allowed|
  {
    if n == 0 then 0
    else
      var op := r.ops[n - 1];
      Successes(r, of, n - 1)
      + if r.allowed[n - 1] && op.Attempt? && (of.None? || of.value == op.address) then 1 else 0
  }

  lemma StepStaysValid(o: Options, r: Run, k: nat)
    requires IsRun(o, r) && k < |r.ops| && Valid(r.states[k], o)
    ensures Valid(r.states[k + 1], o)
  {
    assert StepOf(o, r, k);
    ApplyIsValid(r.states[k], o, r.ops[k]);
  }

  lemma {:induction false} RunStaysValid(o: Options, r: Run, n: nat)
    requires IsRun(o, r) && n <= |r.ops|
    ensures Valid(r.states[n], o)
  {
    if n > 0 {
      RunStaysValid(o, r, n - 1);
      StepStaysValid(o, r, n - 1);
    }
  }

  /** Whatever never grows by more than the gain, after paying for what passed, bounds what passed. */
  lemma {:induction false} Telescope(c: Config, levels: seq<real>, times: seq<real>, passed: seq<real>, n: nat)
    requires |levels| == |times| == |passed| > n
    requires passed[0] == 0.0
    requires forall k :: 0 <= k < n ==>
               passed[k + 1] - passed[k] + levels[k + 1] <= levels[k] + Gain(times[k + 1] - times[k], c)
    ensures passed[n] + levels[n] <= levels[0] + Gain(times[n] - times[0], c)
  {
    if n > 0 {
      Telescope(c, levels, times, passed, n - 1);
      GainSplits(c, times[0], times[n - 1], times[n]);
    } else {
      assert Gain(times[0] - times[0], c) == 0.0;
    }
  }

  lemma GainSplits(c: Config, x: real, y: real, z: real)
    ensures Gain(z - x, c) == Gain(y - x, c) + Gain(z - y, c)
  {
  }

  // ---------------------------------------------------------------- the global bound

  lemma ApplySpendsGlobal(l: Limiter, o: Options, op: Op)
    requires Valid(l, o)
    ensures (if Allowed(l, o, op) then 1.0 else 0.0) + Apply(l, o, op).global.tokens
            <= l.global.tokens + Gain(Apply(l, o, op).lastNow - l.lastNow, o.global)
  {
    if op.Attempt? {
      var now := ClampedNow(l.lastNow, op.clock);
      TrackedIsValid(l.(lastNow := now), o, op.address, now);
    }
  }

  lemma StepSpendsGlobal(o: Options, r: Run, k: nat)
    requires IsRun(o, r) && k < |r.ops|
    ensures (Successes(r, None, k + 1) - Successes(r, None, k)) as real + r.states[k + 1].global.tokens
            <= r.states[k].global.tokens + Gain(r.states[k + 1].lastNow - r.states[k].lastNow, o.global)
  {
    RunStaysValid(o, r, k);
    assert StepOf(o, r, k);
    ApplySpendsGlobal(r.states[k], o, r.ops[k]);
  }

  /** Over any window of any run the successful attempts are at most the tokens at its start plus the clamped time
      that passed times the refill rate, hence at most the capacity plus that gain. */
  lemma GlobalBound(o: Options, r: Run)
    requires IsRun(o, r)
    ensures Successes(r, None, |r.ops|) as real
            <= First(r).global.tokens + Gain(Last(r).lastNow - First(r).lastNow, o.global)
    ensures First(r).global.tokens <= o.global.capacity
  {
    var n := |r.ops|;
    var levels := seq(n + 1, k requires 0 <= k <= n => r.states[k].global.tokens);
    var times := seq(n + 1, k requires 0 <= k <= n => r.states[k].lastNow);
    var passed := seq(n + 1, k requires 0 <= k <= n => Successes(r, None, k) as real);
    forall k | 0 <= k < n
      ensures passed[k + 1] - passed[k] + levels[k + 1] <= levels[k] + Gain(times[k + 1] - times[k], o.global)
    {
      StepSpendsGlobal(o, r, k);
    }
    Telescope(o.global, levels, times, passed, n);
    RunStaysValid(o, r, n);
  }

  // ---------------------------------------------------------------- the per-address bound

  /** The distinct addresses of the first `n` operations. */
  ghost function Addresses(ops: seq<Op>, n: nat): set<Address>
    requires n <= |ops|
  {
    if n == 0 then {} else Addresses(ops, n - 1) + if ops[n - 1].Attempt? then {ops[n - 1].address} else {}
  }

  /** What the bucket of a tracked address holds at the current time. */
  ghost function Level(l: Limiter, o: Options, a: Address): real {
    if a in l.buckets then
      Min(o.address.capacity, l.buckets[a].tokens + Gain(l.lastNow - l.buckets[a].updatedAt, o.address))
    else o.address.capacity
  }

  /** `used` holds the addresses used since the sequence stood at `mark`: only they can carry later use stamps, and
      `a` is tracked once used. */
  ghost predicate Window(l: Limiter, used: set<Address>, mark: nat, a: Address) {
    && mark <= l.sequence
    && (forall b :: b in l.buckets && l.buckets[b].usedAt > mark ==> b in used)
    && (a in used ==> a in l.buckets && l.buckets[a].usedAt > mark)
  }

  /** With no more addresses in the window than buckets, an address used in the window is not the one evicted. */
  lemma UsedAddressIsNotEvicted(l: Limiter, o: Options, used: set<Address>, mark: nat, a: Address, b: Address)
    requires Consistent(l) && |l.order| >= o.maxAddresses && l.order != []
    requires Window(l, used, mark, a) && a in used && b !in l.buckets
    requires |used + {b}| <= o.maxAddresses
    ensures Oldest(l.order, l.buckets) != a
  {
    OldestIsLeastRecentlyUsed(l.order, l.buckets);
    DistinctSize(l.order);
    assert b !in Elements(l.order);
    assert |Elements(l.order) + {b}| == |l.order| + 1;
    if Elements(l.order) <= used {
      SubsetSize(Elements(l.order) + {b}, used + {b});
    }
  }

  lemma AttemptKeepsWindow(l: Limiter, o: Options, used: set<Address>, mark: nat, a: Address, b: Address,
                           clock: Option<real>)
    requires Valid(l, o) && Window(l, used, mark, a) && |used + {b}| <= o.maxAddresses
    ensures Window(Consume(l, o, b, clock).0, used + {b}, mark, a)
    ensures b != a && a in used ==>
              a in Consume(l, o, b, clock).0.buckets && Consume(l, o, b, clock).0.buckets[a] == l.buckets[a]
  {
    var now := ClampedNow(l.lastNow, clock);
    var moved := l.(lastNow := now);
    TrackedIsValid(moved, o, b, now);
    if b !in l.buckets && |l.order| >= o.maxAddresses && a in used {
      UsedAddressIsNotEvicted(moved, o, used, mark, a, b);
    }
  }

  /** Time passing raises the level by at most the gain, also when a refill rounds the bucket off at its capacity. */
  lemma LevelGrowsSlowly(o: Options, tokens: real, updatedAt: real, now: real, later: real)
    requires ValidConfig(o.address) && updatedAt <= now <= later
    ensures Min(o.address.capacity, tokens + Gain(later - updatedAt, o.address))
            <= Min(o.address.capacity, tokens + Gain(now - updatedAt, o.address)) + Gain(later - now, o.address)
  {
    GainSplits(o.address, updatedAt, now, later);
    GainLaws(o.address, later - now, 0.0);
  }

  /** An attempt of the address itself spends from its level. */
  lemma OwnAttemptSpends(l: Limiter, o: Options, a: Address, clock: Option<real>)
    requires Valid(l, o)
    ensures var v := Consume(l, o, a, clock).0;
            (if Consume(l, o, a, clock).1 then 1.0 else 0.0) + Level(v, o, a)
            <= (if a in l.buckets then Level(l, o, a) else o.address.capacity) + Gain(v.lastNow - l.lastNow, o.address)
  {
    var now := ClampedNow(l.lastNow, clock);
    TrackedIsValid(l.(lastNow := now), o, a, now);
    assert Gain(now - now, o.address) == 0.0;
    GainLaws(o.address, now - l.lastNow, 0.0);
    if a in l.buckets {
      LevelGrowsSlowly(o, l.buckets[a].tokens, l.buckets[a].updatedAt, l.lastNow, now);
    }
  }

  /** The level of `a` once it has been used in the window, its capacity before. */
  ghost function Allowance(l: Limiter, o: Options, used: set<Address>, a: Address): real {
    if a in used then Level(l, o, a) else o.address.capacity
  }

  /** While a bucket is left alone its level rises by at most the gain. */
  lemma UntouchedLevel(l: Limiter, o: Options, a: Address, v: Limiter)
    requires Valid(l, o) && a in l.buckets && a in v.buckets && v.buckets[a] == l.buckets[a] && l.lastNow <= v.lastNow
    ensures Level(v, o, a) <= Level(l, o, a) + Gain(v.lastNow - l.lastNow, o.address)
  {
    LevelGrowsSlowly(o, l.buckets[a].tokens, l.buckets[a].updatedAt, l.lastNow, v.lastNow);
  }

  /** The allowance of `a` goes down by the token an attempt of its own takes, and up by at most the gain. */
  lemma AttemptSpends(l: Limiter, o: Options, used: set<Address>, mark: nat, a: Address, b: Address,
                      clock: Option<real>, v: Limiter, allowed: bool)
    requires Valid(l, o) && Window(l, used, mark, a) && |used + {b}| <= o.maxAddresses
    requires (v, allowed) == Consume(l, o, b, clock)
    ensures Window(v, used + {b}, mark, a)
    ensures (if allowed && b == a then 1.0 else 0.0) + Allowance(v, o, used + {b}, a)
            <= Allowance(l, o, used, a) + Gain(v.lastNow - l.lastNow, o.address)
  {
    AttemptKeepsWindow(l, o, used, mark, a, b, clock);
    ConsumeIsValid(l, o, b, clock);
    if b == a {
      OwnAttemptSpends(l, o, a, clock);
      OwnAllowance(l, o, used, mark, a);
    } else if a in used {
      UntouchedLevel(l, o, a, v);
    } else {
      GainLaws(o.address, v.lastNow - l.lastNow, 0.0);
    }
  }

  lemma OwnAllowance(l: Limiter, o: Options, used: set<Address>, mark: nat, a: Address)
    requires Valid(l, o) && Window(l, used, mark, a)
    ensures (if a in l.buckets then Level(l, o, a) else o.address.capacity) <= Allowance(l, o, used, a)
  {
  }

  /** A step from `l` to `v` takes no more from the allowance of `a` than time gives back, and a token only if it was
      there. */
  ghost predicate SpendsFairly(l: Limiter, v: Limiter, o: Options, used: set<Address>, used': set<Address>, a: Address,
                               spent: real) {
    spent + Allowance(v, o, used', a) <= Allowance(l, o, used, a) + Gain(v.lastNow - l.lastNow, o.address)
  }

  function TokensTaken(op: Op, allowed: bool, a: Address): real {
    if allowed && op.Attempt? && op.address == a then 1.0 else 0.0
  }

  lemma StepSpends(l: Limiter, o: Options, used: set<Address>, used': set<Address>, mark: nat, a: Address, op: Op,
                   v: Limiter, allowed: bool)
    requires Valid(l, o) && Window(l, used, mark, a) && op != ResetAddress(a)
    requires v == Apply(l, o, op) && allowed == Allowed(l, o, op)
    requires used' == if op.Attempt? then used + {op.address} else used
    requires op.Attempt? ==> |used'| <= o.maxAddresses
    ensures Window(v, used', mark, a)
    ensures SpendsFairly(l, v, o, used, used', a, TokensTaken(op, allowed, a))
  {
    match op
    case Attempt(b, clock) =>
      AttemptSpends(l, o, used, mark, a, b, clock, v, allowed);
    case ResetAddress(b) =>
      assert Gain(l.lastNow - l.lastNow, o.address) == 0.0;
  }

  lemma {:induction false} AddressesGrow(ops: seq<Op>, m: nat, n: nat)
    requires m <= n <= |ops|
    ensures Addresses(ops, m) <= Addresses(ops, n)
  {
    if m < n {
      AddressesGrow(ops, m, n - 1);
    }
  }

  lemma StepFits(ops: seq<Op>, k: nat, max: nat)
    requires k < |ops| && |Addresses(ops, |ops|)| <= max
    ensures ops[k].Attempt? ==> |Addresses(ops, k) + {ops[k].address}| <= max
  {
    AddressesGrow(ops, k + 1, |ops|);
    SubsetSize(Addresses(ops, k + 1), Addresses(ops, |ops|));
  }

  lemma {:induction false} WindowHolds(o: Options, r: Run, a: Address, n: nat)
    requires IsRun(o, r) && n <= |r.ops|
    requires |Addresses(r.ops, |r.ops|)| <= o.maxAddresses && ResetAddress(a) !in r.ops
    ensures Valid(r.states[n], o) && Window(r.states[n], Addresses(r.ops, n), First(r).sequence, a)
  {
    RunStaysValid(o, r, n);
    if n > 0 {
      WindowHolds(o, r, a, n - 1);
      StepKeepsWindow(o, r, a, n - 1);
    }
  }

  lemma StepFacts(o: Options, r: Run, k: nat)
    requires IsRun(o, r) && k < |r.ops|
    ensures Consistent(r.states[k])
    ensures r.states[k + 1] == Apply(r.states[k], o, r.ops[k]) && r.allowed[k] == Allowed(r.states[k], o, r.ops[k])
    ensures Addresses(r.ops, k + 1)
            == if r.ops[k].Attempt? then Addresses(r.ops, k) + {r.ops[k].address} else Addresses(r.ops, k)
  {
    assert StepOf(o, r, k);
  }

  lemma StepKeepsWindow(o: Options, r: Run, a: Address, k: nat)
    requires IsRun(o, r) && k < |r.ops|
    requires |Addresses(r.ops, |r.ops|)| <= o.maxAddresses && ResetAddress(a) !in r.ops
    requires Valid(r.states[k], o) && Window(r.states[k], Addresses(r.ops, k), First(r).sequence, a)
    ensures Window(r.states[k + 1], Addresses(r.ops, k + 1), First(r).sequence, a)
    ensures SpendsFairly(r.states[k], r.states[k + 1], o, Addresses(r.ops, k), Addresses(r.ops, k + 1), a,
                         TokensTaken(r.ops[k], r.allowed[k], a))
  {
    StepFits(r.ops, k, o.maxAddresses);
    StepFacts(o, r, k);
    StepSpends(r.states[k], o, Addresses(r.ops, k), Addresses(r.ops, k + 1), First(r).sequence, a, r.ops[k],
               r.states[k + 1], r.allowed[k]);
  }

  lemma AllowanceIsNotNegative(l: Limiter, o: Options, used: set<Address>, a: Address)
    requires Valid(l, o)
    ensures Allowance(l, o, used, a) >= 0.0
  {
    if a in l.buckets {
      GainLaws(o.address, l.lastNow - l.buckets[a].updatedAt, 0.0);
    }
  }

  lemma StepSpendsAddress(o: Options, r: Run, a: Address, k: nat)
    requires IsRun(o, r) && k < |r.ops|
    requires |Addresses(r.ops, |r.ops|)| <= o.maxAddresses && ResetAddress(a) !in r.ops
    ensures (Successes(r, Some(a), k + 1) - Successes(r, Some(a), k)) as real
            + Allowance(r.states[k + 1], o, Addresses(r.ops, k + 1), a)
            <= Allowance(r.states[k], o, Addresses(r.ops, k), a)
            + Gain(r.states[k + 1].lastNow - r.states[k].lastNow, o.address)
  {
    WindowHolds(o, r, a, k);
    StepKeepsWindow(o, r, a, k);
  }

  lemma {:induction false} AllowancesOf(o: Options, r: Run, a: Address, n: nat) returns (levels: seq<real>)
    requires IsRun(o, r) && n <= |r.ops|
    requires |Addresses(r.ops, |r.ops|)| <= o.maxAddresses && ResetAddress(a) !in r.ops
    ensures |levels| == n + 1 && levels[0] == o.address.capacity
    ensures levels[n] == Allowance(r.states[n], o, Addresses(r.ops, n), a)
    ensures forall k :: 0 <= k < n ==>
              (Successes(r, Some(a), k + 1) - Successes(r, Some(a), k)) as real + levels[k + 1]
              <= levels[k] + Gain(r.states[k + 1].lastNow - r.states[k].lastNow, o.address)
  {
    if n == 0 {
      levels := [o.address.capacity];
    } else {
      var front := AllowancesOf(o, r, a, n - 1);
      StepSpendsAddress(o, r, a, n - 1);
      levels := front + [Allowance(r.states[n], o, Addresses(r.ops, n), a)];
    }
  }

  ghost predicate AddressBounded(o: Options, r: Run, a: Address)
    requires IsRun(o, r)
  {
    Successes(r, Some(a), |r.ops|) as real <= o.address.capacity + Gain(Last(r).lastNow - First(r).lastNow, o.address)
  }

  /** In any window that uses at most `maxAddresses` distinct addresses and does not reset `a`, the successful
      attempts of `a` are at most its capacity plus the clamped time that passed times its refill rate: once used
      in the window its bucket cannot be evicted and so cannot come back full. */
  lemma AddressBound(o: Options, r: Run, a: Address)
    requires IsRun(o, r)
    requires |Addresses(r.ops, |r.ops|)| <= o.maxAddresses && ResetAddress(a) !in r.ops
    ensures AddressBounded(o, r, a)
  {
    var n := |r.ops|;
    var levels := AllowancesOf(o, r, a, n);
    var times := seq(n + 1, k requires 0 <= k <= n => r.states[k].lastNow);
    var passed := seq(n + 1, k requires 0 <= k <= n => Successes(r, Some(a), k) as real);
    Telescope(o.address, levels, times, passed, n);
    RunStaysValid(o, r, n);
    AllowanceIsNotNegative(r.states[n], o, Addresses(r.ops, n), a);
  }

  // ---------------------------------------------------------------- the class

  class LoginRateLimiter {
    const options: Options
    var global: Bucket
    var addressOrder: seq<Address>
    var addresses: map<Address, Bucket>
    var lastNow: real
    var sequence: nat

    ghost function Model(): Limiter
      reads this
    {
      Limiter(global, addressOrder, addresses, lastNow, sequence)
    }

    constructor (options: Options, clock: Option<real>)
      requires ValidOptions(options)
      ensures this.options == options
      ensures Model() == Initial(options, clock) && Valid(Model(), options)
    {
      this.options := options;
      lastNow := ClampedNow(0.0, clock);
      global := Bucket(options.global.capacity, ClampedNow(0.0, clock), 0);
      addressOrder, addresses, sequence := [], map[], 0;
    }

    method Now(clock: Option<real>) returns (now: real)
      modifies `lastNow
      ensures now == lastNow == ClampedNow(old(lastNow), clock)
    {
      if clock.Some? {
        lastNow := Max(lastNow, clock.value);
      }
      now := lastNow;
    }

    /** The scan of `#evictOldest`. */
    method SelectOldest() returns (selected: Address)
      requires Consistent(Model()) && addressOrder != []
      ensures selected == Oldest(addressOrder, addresses)
    {
      selected := addressOrder[0];
      for k := 1 to |addressOrder|
        invariant selected in addressOrder
        invariant selected == Oldest(addressOrder[..k], addresses)
      {
        assert addressOrder[..k + 1][..k] == addressOrder[..k];
        selected := Earlier(addresses, selected, addressOrder[k]);
      }
      assert addressOrder[..|addressOrder|] == addressOrder;
    }

    method EvictOldest()
      requires Consistent(Model()) && addressOrder != []
      modifies `addressOrder, `addresses
      ensures Model() == Evicted(old(Model()))
    {
      var selected := SelectOldest();
      addressOrder, addresses := Without(addressOrder, selected), addresses - {selected};
    }

    /** Makes the address's bucket present. */
    method Track(address: Address, now: real)
      requires Consistent(Model()) && options.maxAddresses >= 1
      modifies `addressOrder, `addresses, `sequence
      ensures Model() == Tracked(old(Model()), options, address, now)
    {
      if address in addresses {
        return;
      }
      if |addressOrder| >= options.maxAddresses {
        EvictOldest();
      }
      sequence := sequence + 1;
      addressOrder := addressOrder + [address];
      addresses := addresses[address := Bucket(options.address.capacity, now, sequence)];
    }

    /** Refills both buckets and takes a token from each, or from neither. */
    method Spend(address: Address, now: real) returns (allowed: bool)
      requires address in addresses
      modifies `global, `addresses, `sequence
      ensures (Model(), allowed) == Spent(old(Model()), options, address, now)
    {
      global := Refilled(global, options.global, now);
      var bucket := Refilled(addresses[address], options.address, now);
      sequence := sequence + 1;
      bucket := bucket.(usedAt := sequence);
      allowed := !(global.tokens < 1.0 || bucket.tokens < 1.0);
      if allowed {
        global := global.(tokens := global.tokens - 1.0);
        bucket := bucket.(tokens := bucket.tokens - 1.0);
      }
      addresses := addresses[address := bucket];
    }

    method ConsumeToken(address: Address, clock: Option<real>) returns (allowed: bool)
      requires Valid(Model(), options)
      modifies this
      ensures (Model(), allowed) == Consume(old(Model()), options, address, clock)
      ensures Valid(Model(), options)
    {
      ConsumeIsValid(Model(), options, address, clock);
      var now := Now(clock);
      Track(address, now);
      allowed := Spend(address, now);
    }

    method ResetBucket(address: Address)
      requires Valid(Model(), options)
      modifies `addressOrder, `addresses
      ensures Model() == Reset(old(Model()), address) && Valid(Model(), options)
    {
      ResetIsValid(Model(), options, address);
      addressOrder, addresses := Without(addressOrder, address), addresses - {address};
    }
  }
}
