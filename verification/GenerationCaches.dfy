/** The two bounded caches of per-tab "cleanup generations": the one of ActivityTracker stamps entries from one
    global clock, the one of WebSocketAuthIndex counts per key.  Both forget their least recently advanced
    entry beyond 64 and answer for forgotten keys with an eviction generation. */
module GenerationCaches {
  import opened Collections

  type Id = nat

  const MAX_CLEANUP_GENERATIONS := 64

  /** `order` is the insertion order of the JavaScript map `gens`; `floor` is the eviction generation;
      `clock` is the global clock of the first cache (the second leaves it at 0). */
  datatype Cache = Cache(order: seq<Id>, gens: map<Id, nat>, floor: nat, clock: nat)

  datatype Stamping = GlobalClock | PerKey

  const EMPTY := Cache([], map[], 0, 0)

  ghost predicate Consistent(c: Cache) {
    && Distinct(c.order)
    && (forall k :: k in c.order <==> k in c.gens)
  }

  ghost predicate Valid(kind: Stamping, c: Cache) {
    && Consistent(c)
    && |c.order| <= MAX_CLEANUP_GENERATIONS
    && (kind == GlobalClock ==> c.floor <= c.clock && forall k :: k in c.gens ==> c.gens[k] <= c.clock)
  }

  /** The generation of a cleanup snapshot. */
  function Reading(c: Cache, id: Id): nat {
    if id in c.gens then c.gens[id] else c.floor
  }

  /** What an advance stamps its key with. */
  function NextStamp(kind: Stamping, c: Cache, id: Id): nat {
    if kind == GlobalClock then c.clock + 1 else Reading(c, id) + 1
  }

  /** Re-inserts the key at the end of the order under its new stamp. */
  function Stamped(kind: Stamping, c: Cache, id: Id): Cache {
    var stamp := NextStamp(kind, c, id);
    Cache(Without(c.order, id) + [id], c.gens[id := stamp], c.floor, if kind == GlobalClock then stamp else c.clock)
  }

  /** Deletes the first entry and moves the eviction generation past it. */
  function EvictOldest(kind: Stamping, c: Cache): Cache
    requires |c.order| > 0
  {
    var oldest := c.order[0];
    var forgotten := Reading(c, oldest);
    Cache(c.order[1..], c.gens - {oldest},
          if kind == GlobalClock then c.clock else if forgotten > c.floor + 1 then forgotten else c.floor + 1,
          c.clock)
  }

  function Advance(kind: Stamping, c: Cache, id: Id): Cache {
    var stamped := Stamped(kind, c, id);
    if |stamped.order| <= MAX_CLEANUP_GENERATIONS then stamped else EvictOldest(kind, stamped)
  }

  function AdvanceAll(kind: Stamping, c: Cache, ids: seq<Id>): Cache
    decreases ids
  {
    if ids == [] then c else AdvanceAll(kind, Advance(kind, c, ids[0]), ids[1..])
  }

  lemma StampedConsistent(kind: Stamping, c: Cache, id: Id)
    requires Valid(kind, c)
    ensures Consistent(Stamped(kind, c, id))
    ensures |Stamped(kind, c, id).order| <= MAX_CLEANUP_GENERATIONS + 1
  {
    WithoutDistinct(c.order, id);
  }

  /** Evicting never lowers a reading, and leaves every other key's reading at least as high. */
  lemma EvictionRaises(kind: Stamping, c: Cache, id: Id)
    requires Consistent(c) && |c.order| > 1 && c.order[|c.order| - 1] == id
    requires kind == GlobalClock ==> c.floor <= c.clock && forall k :: k in c.gens ==> c.gens[k] <= c.clock
    ensures Consistent(EvictOldest(kind, c))
    ensures id in EvictOldest(kind, c).gens && Reading(EvictOldest(kind, c), id) == Reading(c, id)
    ensures forall other :: Reading(EvictOldest(kind, c), other) >= Reading(c, other)
  {
    var oldest := c.order[0];
    assert c.order[0] != c.order[|c.order| - 1];
    assert c.order == [oldest] + c.order[1..];
  }

  /** One change: the tracked entries stay at most 64, the generation reported for the changed key strictly
      grows and no other reported generation shrinks, whichever entry is evicted. */
  lemma AdvanceSound(kind: Stamping, c: Cache, id: Id)
    requires Valid(kind, c)
    ensures Valid(kind, Advance(kind, c, id))
    ensures Reading(Advance(kind, c, id), id) > Reading(c, id)
    ensures forall other :: Reading(Advance(kind, c, id), other) >= Reading(c, other)
    ensures id in Advance(kind, c, id).gens
  {
    StampedConsistent(kind, c, id);
    var stamped := Stamped(kind, c, id);
    if |stamped.order| > MAX_CLEANUP_GENERATIONS {
      EvictionRaises(kind, stamped, id);
    }
  }

  /** A whole run of changes never lowers a reading, and raises that of every changed key. */
  lemma {:induction false} RunMonotone(kind: Stamping, c: Cache, ids: seq<Id>, id: Id)
    requires Valid(kind, c)
    ensures Valid(kind, AdvanceAll(kind, c, ids))
    ensures Reading(AdvanceAll(kind, c, ids), id) >= Reading(c, id)
    ensures id in ids ==> Reading(AdvanceAll(kind, c, ids), id) > Reading(c, id)
    decreases ids
  {
    if ids != [] {
      AdvanceSound(kind, c, ids[0]);
      RunMonotone(kind, Advance(kind, c, ids[0]), ids[1..], id);
    }
  }

  /** Two equal readings prove that the key did not change in between, across any number of evictions. */
  lemma EqualReadingsMeanUntouched(kind: Stamping, c: Cache, ids: seq<Id>, id: Id)
    requires Valid(kind, c)
    requires Reading(AdvanceAll(kind, c, ids), id) == Reading(c, id)
    ensures id !in ids
  {
    RunMonotone(kind, c, ids, id);
  }

  /** The other direction: an untouched key that the cache still tracks reports an equal reading, so only an
      eviction can make a reader report a change that did not happen. */
  lemma {:induction false} UntouchedTrackedKeepsReading(kind: Stamping, c: Cache, ids: seq<Id>, id: Id)
    requires Valid(kind, c)
    requires id !in ids && id in AdvanceAll(kind, c, ids).gens
    ensures id in c.gens && Reading(AdvanceAll(kind, c, ids), id) == Reading(c, id)
    decreases ids
  {
    if ids != [] {
      AdvanceSound(kind, c, ids[0]);
      UntouchedTrackedKeepsReading(kind, Advance(kind, c, ids[0]), ids[1..], id);
    }
  }

  lemma {:induction false} AdvanceAllConcat(kind: Stamping, c: Cache, xs: seq<Id>, ys: seq<Id>)
    ensures AdvanceAll(kind, c, xs + ys) == AdvanceAll(kind, AdvanceAll(kind, c, xs), ys)
    decreases xs
  {
    if xs == [] {
      assert xs + ys == ys;
    } else {
      assert (xs + ys)[1..] == xs[1..] + ys;
      AdvanceAllConcat(kind, Advance(kind, c, xs[0]), xs[1..], ys);
    }
  }
}
