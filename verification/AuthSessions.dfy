/** The session table of apps/server/src/auth-service.ts: establishment, expiry, revocation and the authority checks.
    Tokens, digests and random draws are opaque; the clock may go backwards, and None is a clock that fails. */
module AuthSessions {
  import opened Collections

  type Id = nat
  type Digest = nat

  datatype Mode = Local | Anonymous | CloudflareAccess | TrustedHeader

  datatype Reason = Idle | Absolute | Upstream | Capacity | Logout | PasswordChanged

  /** Ids are compared by their rank in the collation order of the source's tie-break. */
  datatype Session = Session(
    id: Id, generation: nat, mode: Mode, identity: nat, createdAt: int, lastSeen: int,
    idleExpiresAt: int, absoluteExpiresAt: int, upstreamExpiresAt: Option<int>, digest: Digest)

  /** `order` is the insertion order of `byId`; `byDigest` leads from digests to ids. */
  datatype Table = Table(order: seq<Id>, byId: map<Id, Session>, byDigest: map<Digest, Id>, generation: nat)

  datatype Config = Config(idle: int, absolute: int, maxSessions: nat)

  const EMPTY := Table([], map[], map[], 0)

  ghost predicate ValidConfig(c: Config) {
    c.idle > 0 && c.absolute > 0 && 1 <= c.maxSessions <= 256
  }

  function Min(a: int, b: int): int {
    if a <= b then a else b
  }

  // ---------------------------------------------------------------- expiry

  /** The earliest deadline decides; on a tie idle comes before absolute, absolute before upstream. */
  function ExpiredReasonAt(s: Session, now: int): Option<Reason> {
    var local := if s.idleExpiresAt <= s.absoluteExpiresAt then (s.idleExpiresAt, Idle)
                 else (s.absoluteExpiresAt, Absolute);
    var first :=
      if s.upstreamExpiresAt.Some? && s.upstreamExpiresAt.value < local.0 then (s.upstreamExpiresAt.value, Upstream)
      else local;
    if now >= first.0 then Some(first.1) else None
  }

  predicate Expired(s: Session, now: int) {
    now >= s.idleExpiresAt || now >= s.absoluteExpiresAt
    || (s.upstreamExpiresAt.Some? && now >= s.upstreamExpiresAt.value)
  }

  function Deadline(s: Session, r: Reason): Option<int> {
    match r
    case Idle => Some(s.idleExpiresAt)
    case Absolute => Some(s.absoluteExpiresAt)
    case Upstream => s.upstreamExpiresAt
    case Capacity | Logout | PasswordChanged => None
  }

  function Rank(r: Reason): nat {
    match r
    case Idle => 0
    case Absolute => 1
    case Upstream => 2
    case Capacity | Logout | PasswordChanged => 3
  }

  /** No deadline of the session is earlier, and none of those that come before it in rank is as early. */
  ghost predicate ComesFirst(s: Session, r: Reason) {
    && Deadline(s, r).Some?
    && forall other {:trigger Deadline(s, other)} ::
         Deadline(s, other).Some? ==>
           || Deadline(s, r).value < Deadline(s, other).value
           || (Deadline(s, r).value == Deadline(s, other).value && Rank(r) <= Rank(other))
  }

  /** A session has expired exactly when one of its deadlines has passed, and the reason named is that of the deadline
      that passed first. */
  lemma ReasonIffExpired(s: Session, now: int)
    ensures ExpiredReasonAt(s, now).Some? <==> Expired(s, now)
    ensures forall r :: ExpiredReasonAt(s, now) == Some(r) <==> ComesFirst(s, r) && now >= Deadline(s, r).value
  {
    forall r
      ensures ExpiredReasonAt(s, now) == Some(r) <==> ComesFirst(s, r) && now >= Deadline(s, r).value
    {
      assert Deadline(s, Idle).Some? && Deadline(s, Absolute).Some?;
      assert Deadline(s, Upstream) == s.upstreamExpiresAt;
    }
  }

  // ---------------------------------------------------------------- removal

  function Removed(t: Table, id: Id): Table {
    if id !in t.byId then t
    else t.(order := Without(t.order, id), byId := t.byId - {id}, byDigest := t.byDigest - {t.byId[id].digest})
  }

  function RemovedAll(t: Table, ids: seq<Id>): Table
    decreases ids
  {
    if ids == [] then t else RemovedAll(Removed(t, ids[0]), ids[1..])
  }

  // ---------------------------------------------------------------- establishment

  function ExpiredOf(t: Table, order: seq<Id>, now: int): (r: seq<Id>)
    requires forall id :: id in order ==> id in t.byId
    ensures forall id :: id in r <==> id in order && Expired(t.byId[id], now)
  {
    if order == [] then []
    else (if ExpiredReasonAt(t.byId[order[0]], now).Some? then [order[0]] else []) + ExpiredOf(t, order[1..], now)
  }

  function ActiveOf(t: Table, order: seq<Id>, now: int): (r: seq<Id>)
    requires forall id :: id in order ==> id in t.byId
    ensures forall id :: id in r <==> id in order && !Expired(t.byId[id], now)
    ensures |r| <= |order|
  {
    if order == [] then []
    else (if ExpiredReasonAt(t.byId[order[0]], now).Some? then [] else [order[0]]) + ActiveOf(t, order[1..], now)
  }

  /** Least recently seen, then created first, then the smaller id. */
  predicate Before(a: Session, b: Session) {
    || a.lastSeen < b.lastSeen
    || (a.lastSeen == b.lastSeen && (a.createdAt < b.createdAt || (a.createdAt == b.createdAt && a.id < b.id)))
  }

  function Oldest(t: Table, ids: seq<Id>): (r: Id)
    requires ids != [] && forall id :: id in ids ==> id in t.byId
    ensures r in ids
  {
    if |ids| == 1 then ids[0]
    else
      var rest := Oldest(t, ids[1..]);
      if Before(t.byId[rest], t.byId[ids[0]]) then rest else ids[0]
  }

  /** The first of at most eight draws that is not in use. */
  function FirstFree(draws: seq<nat>, used: set<nat>): Option<nat> {
    if draws == [] then None else if draws[0] !in used then Some(draws[0]) else FirstFree(draws[1..], used)
  }

  function FirstEight(draws: seq<nat>): seq<nat> {
    if |draws| <= 8 then draws else draws[..8]
  }

  /** The session is filed under its own id, and its digest leads to that id. */
  ghost predicate Filed(t: Table, id: Id) {
    id in t.byId && t.byId[id].id == id && t.byId[id].digest in t.byDigest && t.byDigest[t.byId[id].digest] == id
  }

  /** The digest leads to a session that has it. */
  ghost predicate LeadsBack(t: Table, d: Digest) {
    d in t.byDigest && t.byDigest[d] in t.byId && t.byId[t.byDigest[d]].digest == d
  }

  predicate Listed(t: Table) {
    (forall id :: id in t.order ==> id in t.byId) && (forall id :: id in t.byId ==> id in t.order)
  }

  /** The two maps are inverse to each other. */
  ghost predicate Consistent(t: Table) {
    && Distinct(t.order)
    && Listed(t)
    && (forall id {:trigger Filed(t, id)} :: id in t.byId ==> Filed(t, id))
    && (forall d {:trigger LeadsBack(t, d)} :: d in t.byDigest ==> LeadsBack(t, d))
  }

  /** The sessions a commit revokes: every expired one and, if the others fill the table, the oldest of those. */
  function RevokedByCommit(t: Table, c: Config, now: int): seq<Id>
    requires Listed(t)
  {
    var active := ActiveOf(t, t.order, now);
    ExpiredOf(t, t.order, now) + if |active| >= c.maxSessions && active != [] then [Oldest(t, active)] else []
  }

  function Inserted(t: Table, s: Session): Table {
    t.(order := Added(t.order, s.id), byId := t.byId[s.id := s], byDigest := t.byDigest[s.digest := s.id])
  }

  function NewSession(c: Config, id: Id, generation: nat, mode: Mode, identity: nat, now: int, upstream: Option<int>,
                      digest: Digest)
    : Session
  {
    Session(id, generation, mode, identity, now, now, Min(now + c.idle, now + c.absolute), now + c.absolute, upstream,
            digest)
  }

  // ---------------------------------------------------------------- operations

  /** The outcome of an operation: an answer, or an exception. */
  datatype Answer = Yes | No | Threw

  datatype Result = Result(table: Table, answer: Answer, revoked: seq<Id>)

  datatype Op =
    | Establish(mode: Mode, identity: Option<nat>, upstream: Option<int>, digests: seq<Digest>, ids: seq<Id>,
                prepareClock: Option<int>, commitClock: Option<int>, beforeCommitOk: bool)
    | IsActive(id: Id, generation: nat, clock: Option<int>)
    | TouchAuthority(id: Id, generation: nat, clock: Option<int>, touchClock: Option<int>)
    | Touch(id: Id, clock: Option<int>, touchClock: Option<int>)
    | AuthenticateCookie(digest: Digest, clock: Option<int>)
    | Check(id: Id, clock: Option<int>)   // resume and verifyCsrf: expiry first, then something without table effect
    | Refresh(id: Id, mode: Mode, claimed: Option<nat>, upstream: Option<int>, clock: Option<int>,
              refreshClock: Option<int>)
    | LogOut(id: Id)
    | SweepOne(id: Id, clock: Option<int>) // one iteration of sweepExpired
    | ChangePassword                       // the final revocation of every session

  /** `#commitSession` after the collision checks. */
  function Committed(t: Table, c: Config, s: Session, now: int): Result
    requires Listed(t)
  {
    var revoked := RevokedByCommit(t, c, now);
    Result(Inserted(RemovedAll(t, revoked), s), Yes, revoked)
  }

  /** The session that `#prepareSession` draws, if the clock and the draws allow. */
  function Drawn(t: Table, c: Config, op: Op): Option<Session>
    requires op.Establish?
  {
    var digest := FirstFree(FirstEight(op.digests), t.byDigest.Keys);
    var id := FirstFree(FirstEight(op.ids), t.byId.Keys);
    if op.prepareClock.None? || digest.None? || id.None? then None
    else
      Some(NewSession(c, id.value, t.generation + 1, op.mode, if op.identity.Some? then op.identity.value else 0,
                      op.prepareClock.value, op.upstream, digest.value))
  }

  /** A failure after the draw has used up a generation. */
  function Established(t: Table, c: Config, op: Op): Result
    requires Listed(t) && op.Establish?
  {
    var s := Drawn(t, c, op);
    var counted := t.(generation := t.generation + 1);
    if s.None? then Result(t, Threw, [])
    else if
      counted.generation > MAX_SAFE_INTEGER || op.identity.None? || op.commitClock.None? || !op.beforeCommitOk
    then
      Result(counted, Threw, [])
    else Committed(counted, c, s.value, op.commitClock.value)
  }

  /** The guard shared by every operation on a stored session: a failing clock throws, an expired session is
      revoked. */
  function Guarded(t: Table, id: Id, clock: Option<int>): Result {
    if id !in t.byId then Result(t, No, [])
    else if clock.None? then Result(t, Threw, [])
    else if ExpiredReasonAt(t.byId[id], clock.value).Some? then Result(Removed(t, id), No, [id])
    else Result(t, Yes, [])
  }

  function Touched(t: Table, c: Config, id: Id, now: int): Table
    requires id in t.byId
  {
    var s := t.byId[id];
    t.(byId := t.byId[id := s.(lastSeen := now, idleExpiresAt := Min(s.absoluteExpiresAt, now + c.idle))])
  }

  function TouchAfter(r: Result, c: Config, id: Id, touchClock: Option<int>): Result {
    if r.answer != Yes || id !in r.table.byId then r
    else if touchClock.None? then r.(answer := Threw)
    else r.(table := Touched(r.table, c, id, touchClock.value))
  }

  function Refreshed(t: Table, op: Op): Result
    requires op.Refresh?
  {
    var r := Guarded(t, op.id, op.clock);
    if r.answer != Yes || op.id !in t.byId then r
    else
      var s := t.byId[op.id];
      if s.mode.Local? || s.mode.Anonymous? || op.mode != s.mode || op.claimed != Some(s.identity) then r.(answer := No)
      else if s.mode.TrustedHeader? && op.upstream.None? then
        r.(answer := if s.upstreamExpiresAt.None? then Yes else No)
      else if op.upstream.None? then r.(answer := No)
      else if op.refreshClock.None? then r.(answer := Threw)
      else if op.upstream.value <= op.refreshClock.value
           || (s.upstreamExpiresAt.Some? && op.upstream.value <= s.upstreamExpiresAt.value) then r.(answer := No)
      else r.(table := t.(byId := t.byId[op.id := s.(upstreamExpiresAt := op.upstream)]))
  }

  function Step(t: Table, c: Config, op: Op): Result
    requires Listed(t)
  {
    match op
    case Establish(_, _, _, _, _, _, _, _) => Established(t, c, op)
    case IsActive(id, generation, clock) =>
      if id !in t.byId || t.byId[id].generation != generation then Result(t, No, []) else Guarded(t, id, clock)
    case TouchAuthority(id, generation, clock, touchClock) =>
      if id !in t.byId || t.byId[id].generation != generation then Result(t, No, [])
      else TouchAfter(Guarded(t, id, clock), c, id, touchClock)
    case Touch(id, clock, touchClock) => TouchAfter(Guarded(t, id, clock), c, id, touchClock)
    case AuthenticateCookie(digest, clock) =>
      if digest !in t.byDigest then Result(t, No, []) else Guarded(t, t.byDigest[digest], clock)
    case Check(id, clock) => Guarded(t, id, clock)
    case Refresh(_, _, _, _, _, _) => Refreshed(t, op)
    case LogOut(id) => if id in t.byId then Result(Removed(t, id), Yes, [id]) else Result(t, Yes, [])
    case SweepOne(id, clock) => Guarded(t, id, clock)
    case ChangePassword => Result(RemovedAll(t, t.order), Yes, t.order)
  }

  // ---------------------------------------------------------------- the invariant

  ghost predicate Deadlines(s: Session, c: Config) {
    s.idleExpiresAt <= s.absoluteExpiresAt && s.absoluteExpiresAt == s.createdAt + c.absolute
  }

  ghost predicate Dated(t: Table, c: Config, id: Id) {
    id in t.byId && Deadlines(t.byId[id], c) && 1 <= t.byId[id].generation <= t.generation
  }

  ghost predicate Apart(t: Table, a: Id, b: Id) {
    a in t.byId && b in t.byId && (a != b ==> t.byId[a].generation != t.byId[b].generation)
  }

  ghost predicate Valid(t: Table, c: Config) {
    && ValidConfig(c) && Consistent(t)
    && |t.order| <= c.maxSessions
    && (forall id {:trigger Dated(t, c, id)} :: id in t.byId ==> Dated(t, c, id))
    && (forall a, b {:trigger Apart(t, a, b)} :: a in t.byId && b in t.byId ==> Apart(t, a, b))
  }

  lemma RemovedIsConsistent(t: Table, id: Id)
    requires Consistent(t)
    ensures Consistent(Removed(t, id))
    ensures |Removed(t, id).order| == |t.order| - if id in t.byId then 1 else 0
    ensures Removed(t, id).byId == t.byId - {id}
  {
    WithoutDistinct(t.order, id);
    var v := Removed(t, id);
    assert Filed(t, id) || id !in t.byId;
    forall other | other in v.byId
      ensures Filed(v, other)
    {
      assert Filed(t, other);
    }
    forall d | d in v.byDigest
      ensures LeadsBack(v, d)
    {
      assert LeadsBack(t, d);
    }
  }

  /** A consistent table with fewer of the same sessions is valid. */
  lemma FewerIsValid(t: Table, c: Config, v: Table)
    requires Valid(t, c) && Consistent(v) && |v.order| <= c.maxSessions && t.generation <= v.generation
    requires forall id :: id in v.byId ==> id in t.byId && v.byId[id] == t.byId[id]
    ensures Valid(v, c)
  {
    forall id | id in v.byId
      ensures Dated(v, c, id)
    {
      assert Dated(t, c, id);
    }
    forall a, b | a in v.byId && b in v.byId
      ensures Apart(v, a, b)
    {
      assert Apart(t, a, b);
    }
  }

  /** Deadlines of a stored session may move as long as the idle one stays within the absolute one. */
  lemma UpdatedIsValid(t: Table, c: Config, id: Id, s: Session)
    requires Valid(t, c) && id in t.byId
    requires s.id == id && s.digest == t.byId[id].digest && s.generation == t.byId[id].generation && Deadlines(s, c)
    ensures Valid(t.(byId := t.byId[id := s]), c)
  {
    var v := t.(byId := t.byId[id := s]);
    forall other | other in v.byId
      ensures Filed(v, other) && Dated(v, c, other)
    {
      assert Filed(t, other) && Dated(t, c, other);
    }
    forall d | d in v.byDigest
      ensures LeadsBack(v, d)
    {
      assert LeadsBack(t, d);
    }
    forall a, b | a in v.byId && b in v.byId
      ensures Apart(v, a, b)
    {
      assert Apart(t, a, b);
    }
  }

  lemma {:induction false} RemovedAllContents(t: Table, ids: seq<Id>)
    ensures RemovedAll(t, ids).byId == t.byId - Elements(ids)
    ensures RemovedAll(t, ids).generation == t.generation
    decreases ids
  {
    if ids != [] {
      var first := Removed(t, ids[0]);
      RemovedAllContents(first, ids[1..]);
      assert Elements(ids) == {ids[0]} + Elements(ids[1..]);
      assert first.byId == t.byId - {ids[0]};
    } else {
      assert Elements(ids) == {};
    }
  }

  lemma {:induction false} RemovedAllIsConsistent(t: Table, ids: seq<Id>)
    requires Consistent(t)
    ensures Consistent(RemovedAll(t, ids))
    ensures |RemovedAll(t, ids).order| <= |t.order|
    decreases ids
  {
    if ids != [] {
      RemovedIsConsistent(t, ids[0]);
      RemovedAllIsConsistent(Removed(t, ids[0]), ids[1..]);
    }
  }

  lemma {:induction false} RemovedAllShrinks(t: Table, ids: seq<Id>, id: Id)
    requires Consistent(t) && id in ids && id in t.byId
    ensures |RemovedAll(t, ids).order| < |t.order|
    decreases ids
  {
    RemovedIsConsistent(t, ids[0]);
    if ids[0] == id {
      RemovedAllIsConsistent(Removed(t, id), ids[1..]);
    } else {
      RemovedAllShrinks(Removed(t, ids[0]), ids[1..], id);
    }
  }

  lemma {:induction false} OldestIsLeast(t: Table, ids: seq<Id>)
    requires ids != [] && forall id :: id in ids ==> id in t.byId && t.byId[id].id == id
    ensures forall id :: id in ids && id != Oldest(t, ids) ==> Before(t.byId[Oldest(t, ids)], t.byId[id])
  {
    if |ids| > 1 {
      OldestIsLeast(t, ids[1..]);
      var rest := Oldest(t, ids[1..]);
      assert forall id :: id in ids <==> id == ids[0] || id in ids[1..];
      assert ids[0] != rest ==> Before(t.byId[rest], t.byId[ids[0]]) || Before(t.byId[ids[0]], t.byId[rest]);
    }
  }

  lemma {:induction false} AllActiveIsAll(t: Table, order: seq<Id>, now: int)
    requires forall id :: id in order ==> id in t.byId
    ensures |ActiveOf(t, order, now)| == |order| ==> forall id :: id in order ==> !Expired(t.byId[id], now)
    ensures |ActiveOf(t, order, now)| < |order| ==> exists id :: id in order && Expired(t.byId[id], now)
  {
    if order != [] {
      AllActiveIsAll(t, order[1..], now);
      ReasonIffExpired(t.byId[order[0]], now);
    }
  }

  /** A commit makes room: fewer than `maxSessions` sessions remain. */
  lemma CommitMakesRoom(t: Table, c: Config, now: int)
    requires Valid(t, c)
    ensures |RemovedAll(t, RevokedByCommit(t, c, now)).order| < c.maxSessions
  {
    var revoked := RevokedByCommit(t, c, now);
    var active := ActiveOf(t, t.order, now);
    RemovedAllIsConsistent(t, revoked);
    AllActiveIsAll(t, t.order, now);
    if |t.order| == c.maxSessions {
      if |active| < |t.order| {
        var id :| id in t.order && Expired(t.byId[id], now);
        RemovedAllShrinks(t, revoked, id);
      } else {
        assert revoked[|revoked| - 1] == Oldest(t, active);
        RemovedAllShrinks(t, revoked, Oldest(t, active));
      }
    }
  }

  lemma {:induction false} FirstFreeIsFree(draws: seq<nat>, used: set<nat>)
    ensures FirstFree(draws, used).Some? ==>
              FirstFree(draws, used).value in draws && FirstFree(draws, used).value !in used
  {
    if draws != [] {
      FirstFreeIsFree(draws[1..], used);
    }
  }

  lemma InsertedIsConsistent(t: Table, s: Session)
    requires Consistent(t) && s.id !in t.byId && s.digest !in t.byDigest
    ensures Consistent(Inserted(t, s))
  {
    var v := Inserted(t, s);
    forall id | id in v.byId
      ensures Filed(v, id)
    {
      if id != s.id {
        assert Filed(t, id);
      }
    }
    forall d | d in v.byDigest
      ensures LeadsBack(v, d)
    {
      if d != s.digest {
        assert LeadsBack(t, d);
      }
    }
  }

  lemma {:induction false} RemovedAllDigests(t: Table, ids: seq<Id>)
    ensures RemovedAll(t, ids).byDigest.Keys <= t.byDigest.Keys
    decreases ids
  {
    if ids != [] {
      RemovedAllDigests(Removed(t, ids[0]), ids[1..]);
    }
  }

  lemma CommitContents(t: Table, c: Config, s: Session, now: int)
    requires Listed(t)
    ensures Committed(t, c, s, now).table.byId == (t.byId - Elements(RevokedByCommit(t, c, now)))[s.id := s]
    ensures Committed(t, c, s, now).table.generation == t.generation
  {
    RemovedAllContents(t, RevokedByCommit(t, c, now));
  }

  lemma CommitIsConsistent(t: Table, c: Config, s: Session, now: int)
    requires Valid(t, c) && s.id !in t.byId && s.digest !in t.byDigest
    ensures Consistent(Committed(t, c, s, now).table) && |Committed(t, c, s, now).table.order| <= c.maxSessions
  {
    var revoked := RevokedByCommit(t, c, now);
    var rest := RemovedAll(t, revoked);
    CommitMakesRoom(t, c, now);
    RemovedAllIsConsistent(t, revoked);
    RemovedAllContents(t, revoked);
    RemovedAllDigests(t, revoked);
    assert s.id !in rest.byId && s.digest !in rest.byDigest;
    InsertedIsConsistent(rest, s);
    assert Committed(t, c, s, now).table == Inserted(rest, s);
  }

  lemma CommitIsValid(t: Table, c: Config, s: Session, now: int)
    requires Valid(t, c) && s.id !in t.byId && s.digest !in t.byDigest && Deadlines(s, c)
    ensures Valid(Committed(t.(generation := t.generation + 1), c, s.(generation := t.generation + 1), now).table, c)
  {
    var counted := t.(generation := t.generation + 1);
    var latest := s.(generation := t.generation + 1);
    CountedIsValid(t, c);
    CommitIsConsistent(counted, c, latest, now);
    CommitContents(counted, c, latest, now);
    var v := Committed(counted, c, latest, now).table;
    forall id | id in v.byId
      ensures Dated(v, c, id)
    {
      if id != s.id {
        assert Dated(t, c, id);
      }
    }
    forall a, b | a in v.byId && b in v.byId
      ensures Apart(v, a, b)
    {
      if a != s.id && b != s.id {
        assert Apart(t, a, b);
      } else if a != b {
        assert Dated(t, c, if a == s.id then b else a);
      }
    }
  }

  lemma CountedIsValid(t: Table, c: Config)
    requires Valid(t, c)
    ensures Valid(t.(generation := t.generation + 1), c)
  {
    CountedIsConsistent(t);
    FewerIsValid(t, c, t.(generation := t.generation + 1));
  }

  lemma CountedIsConsistent(t: Table)
    requires Consistent(t)
    ensures Consistent(t.(generation := t.generation + 1))
  {
    var v := t.(generation := t.generation + 1);
    forall id | id in v.byId
      ensures Filed(v, id)
    {
      assert Filed(t, id);
    }
    forall d | d in v.byDigest
      ensures LeadsBack(v, d)
    {
      assert LeadsBack(t, d);
    }
  }

  lemma GuardedIsValid(t: Table, c: Config, id: Id, clock: Option<int>)
    requires Valid(t, c)
    ensures Valid(Guarded(t, id, clock).table, c)
  {
    RemovedIsConsistent(t, id);
    FewerIsValid(t, c, Removed(t, id));
  }

  lemma DrawnIsNew(t: Table, c: Config, op: Op)
    requires ValidConfig(c) && op.Establish? && Drawn(t, c, op).Some?
    ensures var s := Drawn(t, c, op).value;
            s.id !in t.byId && s.digest !in t.byDigest && s.generation == t.generation + 1 && Deadlines(s, c)
  {
    FirstFreeIsFree(FirstEight(op.digests), t.byDigest.Keys);
    FirstFreeIsFree(FirstEight(op.ids), t.byId.Keys);
  }

  lemma EstablishIsValid(t: Table, c: Config, op: Op)
    requires Valid(t, c) && op.Establish?
    ensures Valid(Established(t, c, op).table, c)
  {
    CountedIsValid(t, c);
    if Drawn(t, c, op).Some? && op.commitClock.Some? {
      DrawnIsNew(t, c, op);
      CommitIsValid(t, c, Drawn(t, c, op).value, op.commitClock.value);
    }
  }

  lemma ClearIsValid(t: Table, c: Config)
    requires Valid(t, c)
    ensures Valid(RemovedAll(t, t.order), c)
  {
    RemovedAllIsConsistent(t, t.order);
    RemovedAllContents(t, t.order);
    FewerIsValid(t, c, RemovedAll(t, t.order));
  }

  lemma TouchIsValid(r: Result, c: Config, id: Id, touchClock: Option<int>)
    requires Valid(r.table, c)
    ensures Valid(TouchAfter(r, c, id, touchClock).table, c)
  {
    if r.answer == Yes && id in r.table.byId && touchClock.Some? {
      var s := r.table.byId[id];
      assert Filed(r.table, id) && Dated(r.table, c, id);
      UpdatedIsValid(r.table, c, id,
        s.(lastSeen := touchClock.value, idleExpiresAt := Min(s.absoluteExpiresAt, touchClock.value + c.idle)));
    }
  }

  lemma RefreshIsValid(t: Table, c: Config, op: Op)
    requires Valid(t, c) && op.Refresh?
    ensures Valid(Refreshed(t, op).table, c)
  {
    GuardedIsValid(t, c, op.id, op.clock);
    if op.id in t.byId {
      assert Filed(t, op.id) && Dated(t, c, op.id);
      UpdatedIsValid(t, c, op.id, t.byId[op.id].(upstreamExpiresAt := op.upstream));
    }
  }

  lemma LogOutIsValid(t: Table, c: Config, id: Id)
    requires Valid(t, c)
    ensures Valid(Removed(t, id), c)
  {
    RemovedIsConsistent(t, id);
    FewerIsValid(t, c, Removed(t, id));
  }

  /** After every operation the two maps are a bijection, the table is within its limit, generations are unique, and
      no session's idle deadline is later than its absolute one. */
  lemma StepIsValid(t: Table, c: Config, op: Op)
    requires Valid(t, c)
    ensures Valid(Step(t, c, op).table, c)
  {
    match op
    case Establish(_, _, _, _, _, _, _, _) => EstablishIsValid(t, c, op);
    case IsActive(id, _, clock) => GuardedIsValid(t, c, id, clock);
    case TouchAuthority(id, _, clock, touchClock) =>
      GuardedIsValid(t, c, id, clock);
      TouchIsValid(Guarded(t, id, clock), c, id, touchClock);
    case Touch(id, clock, touchClock) =>
      GuardedIsValid(t, c, id, clock);
      TouchIsValid(Guarded(t, id, clock), c, id, touchClock);
    case AuthenticateCookie(digest, clock) =>
      if digest in t.byDigest { GuardedIsValid(t, c, t.byDigest[digest], clock); }
    case Check(id, clock) => GuardedIsValid(t, c, id, clock);
    case Refresh(_, _, _, _, _, _) => RefreshIsValid(t, c, op);
    case LogOut(id) => LogOutIsValid(t, c, id);
    case SweepOne(id, clock) => GuardedIsValid(t, c, id, clock);
    case ChangePassword => ClearIsValid(t, c);
  }

  lemma CommitRevokes(t: Table, c: Config, now: int, id: Id)
    requires Valid(t, c) && id in t.byId && !Expired(t.byId[id], now)
    ensures id in RevokedByCommit(t, c, now)
       <==> |ActiveOf(t, t.order, now)| == c.maxSessions && id == Oldest(t, ActiveOf(t, t.order, now))
  {
    assert id !in ExpiredOf(t, t.order, now);
  }

  lemma OldestIffNoneBefore(t: Table, ids: seq<Id>, id: Id)
    requires id in ids && forall other :: other in ids ==> other in t.byId && t.byId[other].id == other
    ensures id == Oldest(t, ids) <==> !exists other :: other in ids && Before(t.byId[other], t.byId[id])
  {
    OldestIsLeast(t, ids);
  }

  /** Exactly what a commit keeps: the new session, and every other one that has not expired, except, when those
      fill the table, the one least recently seen (then created first, then smallest). */
  lemma CommitKeepsExactly(t: Table, c: Config, s: Session, now: int, id: Id)
    requires Valid(t, c) && s.id !in t.byId && s.digest !in t.byDigest && id != s.id
    ensures id in Committed(t, c, s, now).table.byId
            <==> id in t.byId && !Expired(t.byId[id], now)
                 && (|ActiveOf(t, t.order, now)| == c.maxSessions ==>
                       exists other :: other in ActiveOf(t, t.order, now) && Before(t.byId[other], t.byId[id]))
    ensures id in Committed(t, c, s, now).table.byId ==> Committed(t, c, s, now).table.byId[id] == t.byId[id]
  {
    var active := ActiveOf(t, t.order, now);
    CommitContents(t, c, s, now);
    if id in t.byId && !Expired(t.byId[id], now) {
      CommitRevokes(t, c, now, id);
      assert id in active;
      forall other | other in active
        ensures t.byId[other].id == other
      {
        assert Filed(t, other);
      }
      OldestIffNoneBefore(t, active, id);
    } else if id in t.byId {
      assert id in ExpiredOf(t, t.order, now);
    }
  }

  // ---------------------------------------------------------------- how the table moves

  /** The same authority, whose creation time and absolute deadline stay as they were. */
  ghost predicate SameAuthority(a: Session, b: Session) {
    && a.generation == b.generation && a.createdAt == b.createdAt && a.absoluteExpiresAt == b.absoluteExpiresAt
    && a.digest == b.digest && a.mode == b.mode && a.identity == b.identity
  }

  /** Every stored session was there before with the same authority or has a generation never used before, and
      exactly the sessions that left are reported as revoked. */
  ghost predicate Moves(t: Table, r: Result) {
    && t.generation <= r.table.generation
    && (forall id :: id in r.table.byId && id in t.byId ==> SameAuthority(t.byId[id], r.table.byId[id]))
    && (forall id :: id in r.table.byId && id !in t.byId ==> r.table.byId[id].generation > t.generation)
    && (forall id :: id in t.byId ==> (id in r.revoked <==> id !in r.table.byId))
  }

  lemma GuardedMoves(t: Table, id: Id, clock: Option<int>)
    ensures Moves(t, Guarded(t, id, clock))
  {
  }

  lemma CommitMoves(t: Table, c: Config, s: Session, now: int)
    requires Listed(t) && s.id !in t.byId && s.generation == t.generation + 1
    ensures Moves(t, Committed(t.(generation := t.generation + 1), c, s, now))
  {
    CommitContents(t.(generation := t.generation + 1), c, s, now);
  }

  lemma CountedMoves(t: Table, generation: nat)
    requires t.generation <= generation
    ensures Moves(t, Result(t.(generation := generation), Threw, []))
  {
  }

  lemma EstablishMoves(t: Table, c: Config, op: Op)
    requires Valid(t, c) && op.Establish?
    ensures Moves(t, Established(t, c, op))
  {
    CountedMoves(t, t.generation);
    CountedMoves(t, t.generation + 1);
    if Established(t, c, op).answer == Yes {
      DrawnIsNew(t, c, op);
      CommitMoves(t, c, Drawn(t, c, op).value, op.commitClock.value);
    }
  }

  lemma TouchMoves(t: Table, r: Result, c: Config, id: Id, touchClock: Option<int>)
    requires Moves(t, r)
    ensures Moves(t, TouchAfter(r, c, id, touchClock))
  {
  }

  lemma RefreshMoves(t: Table, op: Op)
    requires op.Refresh?
    ensures Moves(t, Refreshed(t, op))
  {
    GuardedMoves(t, op.id, op.clock);
  }

  lemma ClearMoves(t: Table)
    requires Consistent(t)
    ensures Moves(t, Result(RemovedAll(t, t.order), Yes, t.order))
  {
    RemovedAllContents(t, t.order);
  }

  lemma StepMoves(t: Table, c: Config, op: Op)
    requires Valid(t, c)
    ensures Moves(t, Step(t, c, op))
  {
    match op
    case Establish(_, _, _, _, _, _, _, _) => EstablishMoves(t, c, op);
    case IsActive(id, _, clock) => GuardedMoves(t, id, clock);
    case TouchAuthority(id, _, clock, touchClock) =>
      GuardedMoves(t, id, clock);
      TouchMoves(t, Guarded(t, id, clock), c, id, touchClock);
    case Touch(id, clock, touchClock) =>
      GuardedMoves(t, id, clock);
      TouchMoves(t, Guarded(t, id, clock), c, id, touchClock);
    case AuthenticateCookie(digest, clock) => if digest in t.byDigest { GuardedMoves(t, t.byDigest[digest], clock); }
    case Check(id, clock) => GuardedMoves(t, id, clock);
    case Refresh(_, _, _, _, _, _) => RefreshMoves(t, op);
    case LogOut(id) =>
    case SweepOne(id, clock) => GuardedMoves(t, id, clock);
    case ChangePassword => ClearMoves(t);
  }

  // ---------------------------------------------------------------- runs

  ghost predicate Reaches(c: Config, from: Table, ops: seq<Op>, to: Table)
    requires Valid(from, c)
    decreases ops
  {
    if ops == [] then from == to
    else
      StepIsValid(from, c, ops[0]);
      Reaches(c, Step(from, c, ops[0]).table, ops[1..], to)
  }

  /** The authority is in the table with its own generation. */
  predicate Holds(t: Table, id: Id, generation: nat) {
    id in t.byId && t.byId[id].generation == generation
  }

  /** No operation brings back an authority that was issued and is not held. */
  lemma GoneStaysGone(t: Table, c: Config, op: Op, id: Id, generation: nat)
    requires Valid(t, c) && generation <= t.generation && !Holds(t, id, generation)
    ensures !Holds(Step(t, c, op).table, id, generation)
    ensures generation <= Step(t, c, op).table.generation
  {
    StepMoves(t, c, op);
  }

  lemma {:induction false} GoneForGood(c: Config, from: Table, ops: seq<Op>, to: Table, id: Id, generation: nat)
    requires Valid(from, c) && Reaches(c, from, ops, to)
    requires generation <= from.generation && !Holds(from, id, generation)
    ensures Valid(to, c) && !Holds(to, id, generation)
    decreases ops
  {
    if ops != [] {
      StepIsValid(from, c, ops[0]);
      GoneStaysGone(from, c, ops[0], id, generation);
      GoneForGood(c, Step(from, c, ops[0]).table, ops[1..], to, id, generation);
    }
  }

  /** Revocation latches: an issued authority that is once found inactive is found inactive ever after, whatever
      happens in between and whatever the clocks say, even if its random id is drawn again. */
  lemma RevocationLatches(c: Config, t: Table, id: Id, generation: nat, clock: Option<int>, ops: seq<Op>, later: Table,
                          laterClock: Option<int>)
    requires Valid(t, c) && generation <= t.generation
    requires Step(t, c, IsActive(id, generation, clock)).answer == No
    requires Valid(Step(t, c, IsActive(id, generation, clock)).table, c)
    requires Reaches(c, Step(t, c, IsActive(id, generation, clock)).table, ops, later)
    ensures Listed(later) && Step(later, c, IsActive(id, generation, laterClock)).answer == No
  {
    StepIsValid(t, c, IsActive(id, generation, clock));
    GoneForGood(c, Step(t, c, IsActive(id, generation, clock)).table, ops, later, id, generation);
  }

  /** An exception of the clock is not an answer and does not latch: the very same authority can be active when the
      clock works again.  (WebSocketAuthIndex reads the exception as "inactive".) */
  lemma ClockFailureDoesNotLatch(t: Table, c: Config, id: Id, generation: nat, now: int)
    requires Valid(t, c) && Holds(t, id, generation) && !Expired(t.byId[id], now)
    ensures Step(t, c, IsActive(id, generation, None)) == Result(t, Threw, [])
    ensures Step(t, c, IsActive(id, generation, Some(now))).answer == Yes
  {
    ReasonIffExpired(t.byId[id], now);
  }

  /** As long as an authority is held its absolute deadline and its creation time do not move. */
  lemma AbsoluteDeadlineIsFixed(t: Table, c: Config, op: Op, id: Id, generation: nat)
    requires Valid(t, c) && generation <= t.generation
    requires Holds(t, id, generation) && Holds(Step(t, c, op).table, id, generation)
    ensures Step(t, c, op).table.byId[id].absoluteExpiresAt == t.byId[id].absoluteExpiresAt
    ensures Step(t, c, op).table.byId[id].createdAt == t.byId[id].createdAt
  {
    StepMoves(t, c, op);
  }

  /** Every session that leaves the table is reported to the revocation observers, and none that stays. */
  lemma RevokedAreExactlyTheRemoved(t: Table, c: Config, op: Op, id: Id)
    requires Valid(t, c) && id in t.byId
    ensures id in Step(t, c, op).revoked <==> id !in Step(t, c, op).table.byId
  {
    StepMoves(t, c, op);
  }

  /** Every reachable table is valid. */
  lemma {:induction false} ReachableIsValid(c: Config, from: Table, ops: seq<Op>, to: Table)
    requires Valid(from, c) && Reaches(c, from, ops, to)
    ensures Valid(to, c)
    decreases ops
  {
    if ops != [] {
      StepIsValid(from, c, ops[0]);
      ReachableIsValid(c, Step(from, c, ops[0]).table, ops[1..], to);
    }
  }

  lemma EmptyIsValid(c: Config)
    requires ValidConfig(c)
    ensures Valid(EMPTY, c)
  {
  }

  // ---------------------------------------------------------------- the class

  /** A stored session; removal empties its digest. */
  class Stored {
    const id: Id
    const generation: nat
    const mode: Mode
    const identity: nat
    const createdAt: int
    const absoluteExpiresAt: int
    var lastSeen: int
    var idleExpiresAt: int
    var upstreamExpiresAt: Option<int>
    var digest: Option<Digest>

    constructor (s: Session)
      ensures digest.Some? && View() == s
    {
      id, generation, mode, identity := s.id, s.generation, s.mode, s.identity;
      createdAt, absoluteExpiresAt := s.createdAt, s.absoluteExpiresAt;
      lastSeen, idleExpiresAt := s.lastSeen, s.idleExpiresAt;
      upstreamExpiresAt, digest := s.upstreamExpiresAt, Some(s.digest);
    }

    function View(): Session
      requires digest.Some?
      reads this
    {
      Session(id, generation, mode, identity, createdAt, lastSeen, idleExpiresAt, absoluteExpiresAt, upstreamExpiresAt,
              digest.value)
    }
  }

  lemma {:induction false} ExpiredScanExtends(t: Table, order: seq<Id>, id: Id, now: int)
    requires id in t.byId && forall x :: x in order ==> x in t.byId
    ensures ExpiredOf(t, order + [id], now)
            == ExpiredOf(t, order, now) + if ExpiredReasonAt(t.byId[id], now).Some? then [id] else []
  {
    if order != [] {
      assert (order + [id])[1..] == order[1..] + [id];
      ExpiredScanExtends(t, order[1..], id, now);
    }
  }

  lemma {:induction false} ActiveScanExtends(t: Table, order: seq<Id>, id: Id, now: int)
    requires id in t.byId && forall x :: x in order ==> x in t.byId
    ensures ActiveOf(t, order + [id], now)
            == ActiveOf(t, order, now) + if ExpiredReasonAt(t.byId[id], now).Some? then [] else [id]
  {
    if order != [] {
      assert (order + [id])[1..] == order[1..] + [id];
      ActiveScanExtends(t, order[1..], id, now);
    }
  }

  lemma ScanExtends(t: Table, order: seq<Id>, k: nat, now: int)
    requires k < |order| && forall x :: x in order ==> x in t.byId
    ensures ExpiredOf(t, order[..k + 1], now)
            == ExpiredOf(t, order[..k], now) + if ExpiredReasonAt(t.byId[order[k]], now).Some? then [order[k]] else []
    ensures ActiveOf(t, order[..k + 1], now)
            == ActiveOf(t, order[..k], now) + if ExpiredReasonAt(t.byId[order[k]], now).Some? then [] else [order[k]]
  {
    assert order[..k + 1] == order[..k] + [order[k]];
    ExpiredScanExtends(t, order[..k], order[k], now);
    ActiveScanExtends(t, order[..k], order[k], now);
  }

  /** What a commit revokes, in terms of the two lists of its scan. */
  lemma PlanIs(t: Table, c: Config, now: int, active: seq<Id>)
    requires Listed(t) && active == ActiveOf(t, t.order, now)
    ensures forall i :: i in active ==> i in t.byId
    ensures |active| < c.maxSessions || active == [] ==> RevokedByCommit(t, c, now) == ExpiredOf(t, t.order, now)
    ensures |active| >= c.maxSessions && active != [] ==>
              RevokedByCommit(t, c, now) == ExpiredOf(t, t.order, now) + [Oldest(t, active)]
  {
    assert ExpiredOf(t, t.order, now) + [] == ExpiredOf(t, t.order, now);
  }

  class AuthService {
    const config: Config
    var order: seq<Id>
    var byId: map<Id, Stored>
    var byDigest: map<Digest, Stored>
    var generation: nat

    /** The digest leads to a stored object that has it. */
    ghost predicate Linked(d: Digest)
      requires d in byDigest
      reads this, byDigest[d]
    {
      byDigest[d].id in byId && byId[byDigest[d].id] == byDigest[d] && byDigest[d].digest == Some(d)
    }

    /** Both maps hold the same objects, each under its own id and digest. */
    ghost predicate Shape()
      reads this, byId.Values, byDigest.Values
    {
      && (forall i :: i in order ==> i in byId)
      && (forall i :: i in byId ==> byId[i].id == i && byId[i].digest.Some?)
      && (forall d {:trigger Linked(d)} :: d in byDigest ==> Linked(d))
    }

    ghost function ById(): map<Id, Session>
      requires forall i :: i in byId ==> byId[i].digest.Some?
      reads this, byId.Values
    {
      map i | i in byId :: byId[i].View()
    }

    ghost function ByDigest(): map<Digest, Id>
      reads this
    {
      map d | d in byDigest :: byDigest[d].id
    }

    ghost function Model(): Table
      requires Shape()
      reads this, byId.Values, byDigest.Values
    {
      Table(order, ById(), ByDigest(), generation)
    }

    constructor (config: Config)
      requires ValidConfig(config)
      ensures this.config == config && Shape() && Model() == EMPTY
    {
      this.config := config;
      order, byId, byDigest, generation := [], map[], map[], 0;
    }

    method Remove(s: Stored)
      requires Shape() && s.id in byId && byId[s.id] == s
      modifies this, s
      ensures Shape() && Model() == Removed(old(Model()), s.id)
      ensures byId == old(byId) - {s.id} && byDigest.Keys <= old(byDigest.Keys)
    {
      ghost var d := s.digest.value;
      order := Without(order, s.id);
      byId := byId - {s.id};
      byDigest := byDigest - {s.digest.value};
      forall e | e in byDigest
        ensures byDigest[e] != s && byDigest[e].id in byId && byDigest[e].digest == Some(e)
      {
        assert old(Linked(e));
      }
      s.digest := None;
      forall e | e in byDigest
        ensures Linked(e)
      {
        assert old(Linked(e));
      }
      assert ById() == old(ById()) - {s.id};
      assert ByDigest() == old(ByDigest()) - {d};
    }

    /** Looks a session up, and revokes it if it has expired; `revoked` goes to the observers. */
    method Guard(id: Id, clock: Option<int>) returns (answer: Answer, revoked: seq<Id>)
      requires Shape()
      modifies this, byId.Values
      ensures Shape() && byId.Values <= old(byId.Values)
      ensures Result(Model(), answer, revoked) == Guarded(old(Model()), id, clock)
    {
      revoked := [];
      if id !in byId {
        answer := No;
        return;
      }
      var s := byId[id];
      if clock.None? {
        answer := Threw;
        return;
      }
      if ExpiredReasonAt(s.View(), clock.value).Some? {
        Remove(s);
        answer, revoked := No, [id];
      } else {
        answer := Yes;
      }
    }

    method IsActiveAuthority(id: Id, generation: nat, clock: Option<int>) returns (answer: Answer, revoked: seq<Id>)
      requires Shape() && Listed(Model())
      modifies this, byId.Values
      ensures Shape() && byId.Values <= old(byId.Values)
      ensures Result(Model(), answer, revoked) == Step(old(Model()), config, IsActive(id, generation, clock))
    {
      if id !in byId || byId[id].generation != generation {
        answer, revoked := No, [];
      } else {
        answer, revoked := Guard(id, clock);
      }
    }

    method TouchStored(id: Id, now: int)
      requires Shape() && id in byId
      modifies byId[id]
      ensures Shape() && Model() == Touched(old(Model()), config, id, now)
    {
      var s := byId[id];
      s.lastSeen := now;
      s.idleExpiresAt := Min(s.absoluteExpiresAt, now + config.idle);
      forall d | d in byDigest
        ensures Linked(d)
      {
        assert old(Linked(d));
      }
      assert ById() == old(ById())[id := s.View()];
    }

    method TouchSession(id: Id, clock: Option<int>, touchClock: Option<int>) returns (answer: Answer, revoked: seq<Id>)
      requires Shape()
      modifies this, byId.Values
      ensures Shape() && byId.Values <= old(byId.Values)
      ensures Result(Model(), answer, revoked) == TouchAfter(Guarded(old(Model()), id, clock), config, id, touchClock)
    {
      answer, revoked := Guard(id, clock);
      if answer == Yes {
        if touchClock.None? {
          answer := Threw;
        } else {
          TouchStored(id, touchClock.value);
        }
      }
    }

    /** Sorts the stored sessions into expired and active ones. */
    method Classify(now: int, ghost t: Table) returns (expired: seq<Id>, active: seq<Id>)
      requires Shape() && t == Model()
      ensures expired == ExpiredOf(t, t.order, now) && active == ActiveOf(t, t.order, now)
    {
      expired, active := [], [];
      for k := 0 to |order|
        invariant expired == ExpiredOf(t, order[..k], now) && active == ActiveOf(t, order[..k], now)
      {
        var id := order[k];
        ScanExtends(t, order, k, now);
        assert t.byId[id] == byId[id].View();
        if ExpiredReasonAt(byId[id].View(), now).Some? {
          expired := expired + [id];
        } else {
          active := active + [id];
        }
      }
      assert order[..|order|] == order;
    }

    method PickOldest(active: seq<Id>, ghost t: Table) returns (oldest: Id)
      requires Shape() && t == Model() && active != [] && forall i :: i in active ==> i in t.byId
      ensures oldest == Oldest(t, active)
    {
      oldest := active[|active| - 1];
      for k := |active| - 1 downto 0
        invariant oldest in active && oldest == Oldest(t, active[k..])
      {
        assert active[k..][1..] == active[k + 1..];
        assert active[k] in t.byId && oldest in t.byId;
        if !Before(byId[oldest].View(), byId[active[k]].View()) {
          oldest := active[k];
        }
      }
      assert active[0..] == active;
    }

    method Insert(s: Session)
      requires Shape() && s.id !in byId && s.digest !in byDigest
      modifies this
      ensures Shape() && Model() == Inserted(old(Model()), s)
      ensures fresh(byId.Values - old(byId.Values))
    {
      ghost var before := Model();
      var stored := new Stored(s);
      assert forall i :: i in byId ==> byId[i] != stored;
      order := Added(order, s.id);
      byId := byId[s.id := stored];
      byDigest := byDigest[s.digest := stored];
      forall d | d in byDigest
        ensures Linked(d)
      {
        assert d == s.digest || old(Linked(d));
      }
      assert ById() == before.byId[s.id := s];
      assert ByDigest() == before.byDigest[s.digest := s.id];
    }

    /** The sessions that the commit at `now` revokes. */
    method PlanCommit(now: int, ghost t: Table) returns (revoked: seq<Id>)
      requires Shape() && t == Model() && Listed(t)
      ensures revoked == RevokedByCommit(t, config, now)
    {
      var expired, active := Classify(now, t);
      PlanIs(t, config, now, active);
      if |active| < config.maxSessions || active == [] {
        return expired;
      }
      var oldest := PickOldest(active, t);
      revoked := expired + [oldest];
    }

    /** `#commitSession` after the collision checks: classify, evict, insert, report. */
    method Commit(s: Session, now: int) returns (revoked: seq<Id>)
      requires Shape() && Listed(Model()) && s.id !in byId && s.digest !in byDigest
      modifies this, byId.Values
      ensures Shape()
      ensures Result(Model(), Yes, revoked) == Committed(old(Model()), config, s, now)
    {
      revoked := PlanCommit(now, Model());
      RemoveEach(revoked);
      Insert(s);
    }

    method RemoveEach(ids: seq<Id>)
      requires Shape()
      modifies this, byId.Values
      ensures Shape() && byId.Keys <= old(byId.Keys) && byDigest.Keys <= old(byDigest.Keys)
      ensures byId.Values <= old(byId.Values)
      ensures Model() == RemovedAll(old(Model()), ids)
      decreases ids
    {
      if ids != [] {
        if ids[0] in byId {
          Remove(byId[ids[0]]);
        }
        RemoveEach(ids[1..]);
      }
    }
  }
}
