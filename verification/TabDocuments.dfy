/** The tab document of apps/server/src/tab-store.ts: how each mutation builds the next document, and the schema
    of packages/shared/src/tabs.ts that every next document must pass. */
module TabDocuments {
  import opened Collections

  type Id = nat

  datatype DesiredState = Active | Stopped

  datatype Name = Numbered(n: nat) | Custom(text: nat)

  /** A name argument, after the display-name schema has judged it. */
  datatype NameInput = Omitted | Accepted(name: Name) | Refused

  /** Timestamps are milliseconds. */
  datatype TabRecord = TabRecord(
    id: Id, name: Name, position: int, createdAt: int, lastActivityAt: int, desired: DesiredState)

  datatype Document = Document(revision: nat, tabs: seq<TabRecord>)

  datatype Mutation =
    | Create(id: Id, name: NameInput, now: int)
    | EnsureInitialTab(id: Id, now: int)
    | Rename(id: Id, name: NameInput)
    | Reorder(revision: int, ids: seq<Id>)
    | SetDesiredState(id: Id, state: DesiredState)
    | Remove(id: Id)
    | FlushActivity(ids: seq<Id>, now: int)

  datatype Outcome = Rejected | Unchanged | Next(document: Document)

  // ---------------------------------------------------------------- the schema

  predicate PositionsMatch(tabs: seq<TabRecord>) {
    forall i :: 0 <= i < |tabs| ==> tabs[i].position == i
  }

  function Ids(tabs: seq<TabRecord>): (ids: seq<Id>)
    ensures |ids| == |tabs| && forall i :: 0 <= i < |tabs| ==> ids[i] == tabs[i].id
  {
    seq(|tabs|, i requires 0 <= i < |tabs| => tabs[i].id)
  }

  predicate UniqueIds(tabs: seq<TabRecord>) {
    forall i, j :: 0 <= i < j < |tabs| ==> tabs[i].id != tabs[j].id
  }

  predicate Wellformed(d: Document) {
    d.revision <= MAX_SAFE_INTEGER && UniqueIds(d.tabs) && PositionsMatch(d.tabs)
  }

  function Parsed(d: Document): Outcome {
    if Wellformed(d) then Next(d) else Rejected
  }

  // ---------------------------------------------------------------- the mutations

  predicate Has(d: Document, id: Id) {
    exists i :: 0 <= i < |d.tabs| && d.tabs[i].id == id
  }

  function StructuralDocument(current: Document, tabs: seq<TabRecord>): Document {
    Document(current.revision + 1, tabs)
  }

  function Updated(tabs: seq<TabRecord>, id: Id, change: TabRecord -> TabRecord): (r: seq<TabRecord>)
    ensures |r| == |tabs|
    ensures forall i :: 0 <= i < |tabs| ==> r[i] == if tabs[i].id == id then change(tabs[i]) else tabs[i]
  {
    seq(|tabs|, i requires 0 <= i < |tabs| => if tabs[i].id == id then change(tabs[i]) else tabs[i])
  }

  function Flushed(tabs: seq<TabRecord>, ids: seq<Id>, now: int): (r: seq<TabRecord>)
    ensures |r| == |tabs|
    ensures forall i :: 0 <= i < |tabs| ==>
              r[i] == if tabs[i].id in ids then tabs[i].(lastActivityAt := now) else tabs[i]
  {
    seq(|tabs|, i requires 0 <= i < |tabs| => if tabs[i].id in ids then tabs[i].(lastActivityAt := now) else tabs[i])
  }

  function Filtered(tabs: seq<TabRecord>, id: Id): seq<TabRecord> {
    if tabs == [] then []
    else (if tabs[0].id != id then [tabs[0]] else []) + Filtered(tabs[1..], id)
  }

  function Renumbered(tabs: seq<TabRecord>): (r: seq<TabRecord>)
    ensures |r| == |tabs| && forall i :: 0 <= i < |tabs| ==> r[i] == tabs[i].(position := i)
  {
    seq(|tabs|, i requires 0 <= i < |tabs| => tabs[i].(position := i))
  }

  function RecordOf(tabs: seq<TabRecord>, id: Id): (r: TabRecord)
    requires exists i :: 0 <= i < |tabs| && tabs[i].id == id
    ensures r.id == id && r in tabs
  {
    if tabs[0].id == id then tabs[0] else RecordOf(tabs[1..], id)
  }

  function Reordered(tabs: seq<TabRecord>, ids: seq<Id>): (r: seq<TabRecord>)
    requires forall k :: 0 <= k < |ids| ==> exists i :: 0 <= i < |tabs| && tabs[i].id == ids[k]
    ensures |r| == |ids|
    ensures forall k :: 0 <= k < |ids| ==> r[k] == RecordOf(tabs, ids[k]).(position := k)
  {
    seq(|ids|, k requires 0 <= k < |ids| => RecordOf(tabs, ids[k]).(position := k))
  }

  function NewTab(id: Id, name: Name, position: int, now: int): TabRecord {
    TabRecord(id, name, position, now, now, Active)
  }

  /** The three checks and the membership test of `reorder`. */
  predicate ReorderAllowed(current: Document, revision: int, ids: seq<Id>) {
    && revision == current.revision
    && |ids| == |current.tabs|
    && |Elements(ids)| == |current.tabs|
    && forall k :: 0 <= k < |ids| ==> Has(current, ids[k])
  }

  /** What a mutation does to the current document, before any I/O. */
  function Build(current: Document, m: Mutation, sessionMaxCount: nat): Outcome {
    match m
    case Create(id, name, now) =>
      if |current.tabs| >= sessionMaxCount || name.Refused? then Rejected
      else
        var chosen := if name.Omitted? then Numbered(|current.tabs| + 1) else name.name;
        Parsed(StructuralDocument(current, current.tabs + [NewTab(id, chosen, |current.tabs|, now)]))
    case EnsureInitialTab(id, now) =>
      if |current.tabs| > 0 then Unchanged
      else if |current.tabs| >= sessionMaxCount then Rejected
      else Parsed(StructuralDocument(current, [NewTab(id, Numbered(1), 0, now)]))
    case Rename(id, name) =>
      if !Has(current, id) || !name.Accepted? then Rejected
      else Parsed(StructuralDocument(current, Updated(current.tabs, id, (t: TabRecord) => t.(name := m.name.name))))
    case Reorder(revision, ids) =>
      if !ReorderAllowed(current, revision, ids) then Rejected
      else Parsed(StructuralDocument(current, Reordered(current.tabs, ids)))
    case SetDesiredState(id, state) =>
      if !Has(current, id) then Rejected
      else Parsed(StructuralDocument(current, Updated(current.tabs, id, (t: TabRecord) => t.(desired := state))))
    case Remove(id) =>
      if !Has(current, id) then Rejected
      else Parsed(StructuralDocument(current, Renumbered(Filtered(current.tabs, id))))
    case FlushActivity(ids, now) =>
      if !exists i :: 0 <= i < |current.tabs| && current.tabs[i].id in ids then Unchanged
      else Parsed(current.(tabs := Flushed(current.tabs, ids, now)))
  }

  // ---------------------------------------------------------------- lemmas

  lemma {:induction false} FilteredIds(tabs: seq<TabRecord>, id: Id)
    ensures Ids(Filtered(tabs, id)) == Without(Ids(tabs), id)
    ensures |Filtered(tabs, id)| <= |tabs|
  {
    if tabs != [] {
      FilteredIds(tabs[1..], id);
      assert Ids(tabs)[1..] == Ids(tabs[1..]);
      assert Ids(Filtered(tabs, id)) == (if tabs[0].id != id then [tabs[0].id] else []) + Ids(Filtered(tabs[1..], id));
    }
  }

  lemma UniqueIdsAreDistinct(tabs: seq<TabRecord>)
    ensures UniqueIds(tabs) <==> Distinct(Ids(tabs))
  {
    var ids := Ids(tabs);
    if Distinct(ids) {
      forall i, j | 0 <= i < j < |tabs|
        ensures tabs[i].id != tabs[j].id
      {
        assert ids[i] != ids[j];
      }
    }
  }

  lemma RemovalKeepsIdsUnique(tabs: seq<TabRecord>, id: Id)
    requires UniqueIds(tabs)
    ensures UniqueIds(Renumbered(Filtered(tabs, id)))
  {
    UniqueIdsAreDistinct(tabs);
    FilteredIds(tabs, id);
    WithoutDistinct(Ids(tabs), id);
    assert Ids(Renumbered(Filtered(tabs, id))) == Ids(Filtered(tabs, id));
    UniqueIdsAreDistinct(Renumbered(Filtered(tabs, id)));
  }

  /** Pigeonhole: as many distinct ids as there are tabs, all of them tabs, are all the tabs. */
  lemma AllowedReorderIsPermutation(current: Document, revision: int, ids: seq<Id>)
    requires Wellformed(current) && ReorderAllowed(current, revision, ids)
    ensures Distinct(ids) && Elements(ids) == Elements(Ids(current.tabs))
  {
    var own := Ids(current.tabs);
    UniqueIdsAreDistinct(current.tabs);
    DistinctSize(own);
    FullSizeDistinct(ids);
    forall x | x in Elements(ids)
      ensures x in Elements(own)
    {
      var k :| 0 <= k < |ids| && ids[k] == x;
      var i :| 0 <= i < |current.tabs| && current.tabs[i].id == ids[k];
      assert own[i] == x;
    }
    assert Elements(own) == Elements(ids) + (Elements(own) - Elements(ids));
  }

  /** `reorder` is accepted exactly for a permutation of the current ids under the current revision. */
  lemma ReorderAllowedIffPermutation(current: Document, revision: int, ids: seq<Id>)
    requires Wellformed(current)
    ensures ReorderAllowed(current, revision, ids)
       <==> revision == current.revision && Distinct(ids) && Elements(ids) == Elements(Ids(current.tabs))
  {
    var own := Ids(current.tabs);
    UniqueIdsAreDistinct(current.tabs);
    DistinctSize(own);
    if ReorderAllowed(current, revision, ids) {
      AllowedReorderIsPermutation(current, revision, ids);
    } else if revision == current.revision && Distinct(ids) && Elements(ids) == Elements(own) {
      DistinctSize(ids);
      forall k | 0 <= k < |ids|
        ensures Has(current, ids[k])
      {
        assert ids[k] in Elements(own);
        var i :| 0 <= i < |own| && own[i] == ids[k];
        assert current.tabs[i].id == ids[k];
      }
    }
  }

  lemma ReorderedIsWellformed(current: Document, revision: int, ids: seq<Id>)
    requires Wellformed(current) && ReorderAllowed(current, revision, ids)
    ensures UniqueIds(Reordered(current.tabs, ids)) && PositionsMatch(Reordered(current.tabs, ids))
  {
    AllowedReorderIsPermutation(current, revision, ids);
    var tabs := Reordered(current.tabs, ids);
    assert Ids(tabs) == ids;
    UniqueIdsAreDistinct(tabs);
  }

  /** An accepted reorder has the requested ids in the requested order and every record unchanged but for
      its position. */
  lemma ReorderKeepsRecords(current: Document, revision: int, ids: seq<Id>, i: nat)
    requires Wellformed(current) && ReorderAllowed(current, revision, ids) && i < |current.tabs|
    ensures Ids(Reordered(current.tabs, ids)) == ids
    ensures exists k :: 0 <= k < |ids| && Reordered(current.tabs, ids)[k] == current.tabs[i].(position := k)
  {
    AllowedReorderIsPermutation(current, revision, ids);
    assert Ids(Reordered(current.tabs, ids)) == ids;
    assert Ids(current.tabs)[i] in Elements(ids);
    var k :| 0 <= k < |ids| && ids[k] == current.tabs[i].id;
    assert RecordOf(current.tabs, ids[k]) == current.tabs[i];
  }

  /** The documented errors of each mutation. */
  predicate Refusal(current: Document, m: Mutation, sessionMaxCount: nat) {
    match m
    case Create(id, name, _) => |current.tabs| >= sessionMaxCount || name.Refused? || Has(current, id)
    case EnsureInitialTab(_, _) => |current.tabs| == 0 == sessionMaxCount
    case Rename(id, name) => !Has(current, id) || !name.Accepted?
    case Reorder(revision, ids) => !ReorderAllowed(current, revision, ids)
    case SetDesiredState(id, _) => !Has(current, id)
    case Remove(id) => !Has(current, id)
    case FlushActivity(_, _) => false
  }

  predicate Structural(m: Mutation) {
    !m.FlushActivity?
  }

  /** The mutation is refused exactly for its documented errors; otherwise the next document passes the schema,
      respects the limit and carries the right revision. */
  ghost predicate Sound(current: Document, m: Mutation, max: nat) {
    var out := Build(current, m, max);
    && (out.Rejected? <==> Refusal(current, m, max))
    && (out.Next? ==>
          && Wellformed(out.document) && |out.document.tabs| <= max
          && out.document.revision == current.revision + if Structural(m) then 1 else 0)
  }

  lemma CreateIsSound(current: Document, id: Id, name: NameInput, now: int, max: nat)
    requires Wellformed(current) && |current.tabs| <= max && current.revision < MAX_SAFE_INTEGER
    ensures Sound(current, Create(id, name, now), max)
  {
    if |current.tabs| < max && !name.Refused? {
      var chosen := if name.Omitted? then Numbered(|current.tabs| + 1) else name.name;
      var tabs := current.tabs + [NewTab(id, chosen, |current.tabs|, now)];
      assert tabs[|current.tabs|].id == id;
      if Has(current, id) {
        var i :| 0 <= i < |current.tabs| && current.tabs[i].id == id;
        assert tabs[i].id == tabs[|current.tabs|].id;
      }
    }
  }

  lemma ReorderIsSound(current: Document, revision: int, ids: seq<Id>, max: nat)
    requires Wellformed(current) && |current.tabs| <= max && current.revision < MAX_SAFE_INTEGER
    ensures Sound(current, Reorder(revision, ids), max)
  {
    if ReorderAllowed(current, revision, ids) {
      ReorderedIsWellformed(current, revision, ids);
    }
  }

  lemma RemoveIsSound(current: Document, id: Id, max: nat)
    requires Wellformed(current) && |current.tabs| <= max && current.revision < MAX_SAFE_INTEGER
    ensures Sound(current, Remove(id), max)
  {
    RemovalKeepsIdsUnique(current.tabs, id);
    FilteredIds(current.tabs, id);
  }

  lemma {:induction false} FilteredDrops(tabs: seq<TabRecord>, id: Id, p: nat)
    requires UniqueIds(tabs) && p <= |tabs| && (p < |tabs| ==> tabs[p].id == id)
    requires p == |tabs| ==> forall i :: 0 <= i < |tabs| ==> tabs[i].id != id
    ensures Filtered(tabs, id) == tabs[..p] + if p < |tabs| then tabs[p + 1..] else []
  {
    if tabs != [] {
      var rest := tabs[1..];
      assert forall i :: 0 <= i < |rest| ==> rest[i] == tabs[i + 1];
      FilteredDrops(rest, id, if p == 0 then |rest| else p - 1);
    }
  }

  /** A removal takes out its own record, whatever its place, and only moves the others up. */
  lemma RemovalKeepsRecords(current: Document, p: nat, max: nat)
    requires Wellformed(current) && |current.tabs| <= max && current.revision < MAX_SAFE_INTEGER && p < |current.tabs|
    ensures Build(current, Remove(current.tabs[p].id), max)
            == Next(Document(current.revision + 1, Renumbered(current.tabs[..p] + current.tabs[p + 1..])))
  {
    RemoveIsSound(current, current.tabs[p].id, max);
    FilteredDrops(current.tabs, current.tabs[p].id, p);
  }

  lemma UpdateIsWellformed(current: Document, id: Id, change: TabRecord -> TabRecord)
    requires Wellformed(current) && current.revision < MAX_SAFE_INTEGER
    requires forall t: TabRecord :: change(t).id == t.id && change(t).position == t.position
    ensures Wellformed(StructuralDocument(current, Updated(current.tabs, id, change)))
  {
  }

  /** Every mutation keeps ids unique, positions equal to indices and the count within the limit without help from
      the schema: it is refused exactly for its documented errors.  Structural documents raise the revision by
      exactly one, activity documents leave it. */
  lemma BuildIsSound(current: Document, m: Mutation, max: nat)
    requires Wellformed(current) && |current.tabs| <= max && current.revision < MAX_SAFE_INTEGER
    ensures Sound(current, m, max)
  {
    match m
    case Create(id, name, now) => CreateIsSound(current, id, name, now, max);
    case EnsureInitialTab(id, now) =>
    case Rename(id, name) =>
      if name.Accepted? {
        UpdateIsWellformed(current, id, (t: TabRecord) => t.(name := m.name.name));
      }
    case Reorder(revision, ids) => ReorderIsSound(current, revision, ids, max);
    case SetDesiredState(id, state) => UpdateIsWellformed(current, id, (t: TabRecord) => t.(desired := state));
    case Remove(id) => RemoveIsSound(current, id, max);
    case FlushActivity(ids, now) => assert Wellformed(current.(tabs := Flushed(current.tabs, ids, now)));
  }

  /** An activity flush changes nothing but the activity times of its ids. */
  lemma FlushTouchesOnlyActivity(current: Document, ids: seq<Id>, now: int, max: nat)
    requires Build(current, FlushActivity(ids, now), max).Next?
    ensures var next := Build(current, FlushActivity(ids, now), max).document;
            && next.revision == current.revision && |next.tabs| == |current.tabs|
            && forall i :: 0 <= i < |next.tabs| ==>
                 && next.tabs[i].(lastActivityAt := 0) == current.tabs[i].(lastActivityAt := 0)
                 && next.tabs[i].lastActivityAt
                    == if current.tabs[i].id in ids then now else current.tabs[i].lastActivityAt
  {
  }

  // ---------------------------------------------------------------- runs of committed mutations

  /** The document after mutations run one after the other; a refused one changes nothing. */
  function After(d: Document, ms: seq<Mutation>, max: nat): Document
    decreases ms
  {
    if ms == [] then d
    else
      var out := Build(d, ms[0], max);
      After(if out.Next? then out.document else d, ms[1..], max)
  }

  function StructuralCommits(d: Document, ms: seq<Mutation>, max: nat): nat
    decreases ms
  {
    if ms == [] then 0
    else
      var out := Build(d, ms[0], max);
      (if out.Next? && Structural(ms[0]) then 1 else 0)
      + StructuralCommits(if out.Next? then out.document else d, ms[1..], max)
  }

  /** The revision counts structural commits. */
  lemma {:induction false} RevisionCountsCommits(d: Document, ms: seq<Mutation>, max: nat)
    requires Wellformed(d) && |d.tabs| <= max && d.revision + |ms| <= MAX_SAFE_INTEGER
    ensures Wellformed(After(d, ms, max)) && |After(d, ms, max).tabs| <= max
    ensures After(d, ms, max).revision == d.revision + StructuralCommits(d, ms, max)
    decreases ms
  {
    if ms != [] {
      BuildIsSound(d, ms[0], max);
      var out := Build(d, ms[0], max);
      RevisionCountsCommits(if out.Next? then out.document else d, ms[1..], max);
    }
  }

  /** A reorder that was prepared from a snapshot is accepted later only when no structural commit came between:
      neither the set of tabs nor their order, names or states have changed, only activity times. */
  lemma AcceptedReorderSawLatestStructure(d: Document, ms: seq<Mutation>, ids: seq<Id>, max: nat)
    requires Wellformed(d) && |d.tabs| <= max && d.revision + |ms| <= MAX_SAFE_INTEGER
    requires !Build(After(d, ms, max), Reorder(d.revision, ids), max).Rejected?
    ensures StructuralCommits(d, ms, max) == 0
    ensures Ids(After(d, ms, max).tabs) == Ids(d.tabs)
  {
    RevisionCountsCommits(d, ms, max);
    ActivityOnlyKeepsIds(d, ms, max);
  }

  lemma {:induction false} ActivityOnlyKeepsIds(d: Document, ms: seq<Mutation>, max: nat)
    requires StructuralCommits(d, ms, max) == 0
    ensures Ids(After(d, ms, max).tabs) == Ids(d.tabs)
    decreases ms
  {
    if ms != [] {
      var out := Build(d, ms[0], max);
      ActivityOnlyKeepsIds(if out.Next? then out.document else d, ms[1..], max);
    }
  }

  // ---------------------------------------------------------------- desired states

  /** The desired state the document stores for a tab. */
  function DesiredIn(d: Document, id: Id): Option<DesiredState> {
    if Has(d, id) then Some(RecordOf(d.tabs, id).desired) else None
  }

  /** What a mutation makes of it. */
  function DesiredAfter(prior: Option<DesiredState>, m: Mutation, id: Id): Option<DesiredState> {
    match m
    case SetDesiredState(t, state) => if id == t then Some(state) else prior
    case Remove(t) => if id == t then None else prior
    case Create(t, _, _) => if id == t then Some(Active) else prior
    case EnsureInitialTab(t, _) => if id == t then Some(Active) else prior
    case _ => prior
  }

  lemma DesiredIs(d: Document, id: Id, i: nat)
    requires UniqueIds(d.tabs) && i < |d.tabs| && d.tabs[i].id == id
    ensures DesiredIn(d, id) == Some(d.tabs[i].desired)
  {
    var tab := RecordOf(d.tabs, id);
    var k :| 0 <= k < |d.tabs| && d.tabs[k] == tab;
    assert k == i;
  }

  /** Records that agree on ids and on the desired states of all but one id make documents that do. */
  lemma SameDesired(d: Document, e: Document, id: Id)
    requires UniqueIds(d.tabs) && UniqueIds(e.tabs)
    requires forall i {:trigger d.tabs[i]} :: 0 <= i < |d.tabs| && d.tabs[i].id == id ==> Mirrored(d.tabs[i], e.tabs)
    requires forall i {:trigger e.tabs[i]} :: 0 <= i < |e.tabs| && e.tabs[i].id == id ==> Mirrored(e.tabs[i], d.tabs)
    ensures DesiredIn(d, id) == DesiredIn(e, id)
  {
    if Has(d, id) {
      var i :| 0 <= i < |d.tabs| && d.tabs[i].id == id;
      assert Mirrored(d.tabs[i], e.tabs);
      var k :| 0 <= k < |e.tabs| && e.tabs[k].id == d.tabs[i].id && e.tabs[k].desired == d.tabs[i].desired;
      DesiredIs(d, id, i);
      DesiredIs(e, id, k);
    }
  }

  ghost predicate Mirrored(t: TabRecord, tabs: seq<TabRecord>) {
    exists k :: 0 <= k < |tabs| && tabs[k].id == t.id && tabs[k].desired == t.desired
  }

  lemma ReorderKeepsDesired(current: Document, revision: int, ids: seq<Id>, id: Id)
    requires Wellformed(current) && ReorderAllowed(current, revision, ids)
    ensures DesiredIn(StructuralDocument(current, Reordered(current.tabs, ids)), id) == DesiredIn(current, id)
  {
    var next := StructuralDocument(current, Reordered(current.tabs, ids));
    ReorderedIsWellformed(current, revision, ids);
    forall i | 0 <= i < |current.tabs| && current.tabs[i].id == id
      ensures Mirrored(current.tabs[i], next.tabs)
    {
      ReorderKeepsRecords(current, revision, ids, i);
      var k :| 0 <= k < |ids| && Reordered(current.tabs, ids)[k] == current.tabs[i].(position := k);
      assert next.tabs[k].id == id;
    }
    forall i | 0 <= i < |next.tabs| && next.tabs[i].id == id
      ensures Mirrored(next.tabs[i], current.tabs)
    {
      var tab := RecordOf(current.tabs, ids[i]);
      var k :| 0 <= k < |current.tabs| && current.tabs[k] == tab;
      assert current.tabs[k].id == next.tabs[i].id;
    }
    SameDesired(next, current, id);
  }

  lemma DroppedAt(tabs: seq<TabRecord>, p: nat)
    requires p < |tabs|
    ensures var r := Renumbered(tabs[..p] + tabs[p + 1..]);
            && |r| == |tabs| - 1
            && forall i :: 0 <= i < |r| ==> r[i] == tabs[if i < p then i else i + 1].(position := i)
  {
  }

  lemma RemoveSetsDesired(current: Document, gone: Id, max: nat, id: Id)
    requires Wellformed(current) && Build(current, Remove(gone), max).Next?
    ensures DesiredIn(Build(current, Remove(gone), max).document, id)
            == DesiredAfter(DesiredIn(current, id), Remove(gone), id)
  {
    var p :| 0 <= p < |current.tabs| && current.tabs[p].id == gone;
    var next := Build(current, Remove(gone), max).document;
    FilteredDrops(current.tabs, gone, p);
    DroppedAt(current.tabs, p);
    if id != gone {
      forall i | 0 <= i < |current.tabs| && current.tabs[i].id == id
        ensures Mirrored(current.tabs[i], next.tabs)
      {
        var k := if i < p then i else i - 1;
        assert next.tabs[k].id == id;
      }
      SameDesired(next, current, id);
    }
  }

  lemma AppendSetsDesired(current: Document, tab: TabRecord, id: Id)
    requires Wellformed(current) && UniqueIds(current.tabs + [tab])
    ensures DesiredIn(StructuralDocument(current, current.tabs + [tab]), id)
            == if id == tab.id then Some(tab.desired) else DesiredIn(current, id)
    ensures DesiredIn(current, tab.id).None?
  {
    var next := StructuralDocument(current, current.tabs + [tab]);
    assert next.tabs[|current.tabs|] == tab;
    assert forall i :: 0 <= i < |current.tabs| ==> next.tabs[i] == current.tabs[i];
    if id == tab.id {
      DesiredIs(next, id, |current.tabs|);
    } else {
      SameDesired(next, current, id);
    }
  }

  lemma UpdateSetsDesired(current: Document, next: Document, to: Id, state: DesiredState, id: Id)
    requires UniqueIds(current.tabs) && |next.tabs| == |current.tabs| && Has(current, to)
    requires forall i :: 0 <= i < |next.tabs| ==>
               next.tabs[i].id == current.tabs[i].id
               && next.tabs[i].desired == if current.tabs[i].id == to then state else current.tabs[i].desired
    ensures DesiredIn(next, id) == if id == to then Some(state) else DesiredIn(current, id)
  {
    if Has(current, id) {
      var i :| 0 <= i < |current.tabs| && current.tabs[i].id == id;
      assert next.tabs[i].id == id;
      DesiredIs(next, id, i);
      DesiredIs(current, id, i);
    }
  }

  lemma UpdateKeepsDesired(current: Document, next: Document, id: Id)
    requires UniqueIds(current.tabs) && |next.tabs| == |current.tabs|
    requires forall i :: 0 <= i < |next.tabs| ==>
               next.tabs[i].id == current.tabs[i].id && next.tabs[i].desired == current.tabs[i].desired
    ensures DesiredIn(next, id) == DesiredIn(current, id)
  {
    assert UniqueIds(next.tabs);
    SameDesired(next, current, id);
  }

  /** Every mutation stores the desired states it names and leaves the others; a tab it creates was not there, and one
      it sets or removes was. */
  lemma BuildSetsDesired(current: Document, m: Mutation, max: nat, id: Id)
    requires Wellformed(current) && Build(current, m, max).Next?
    ensures DesiredIn(Build(current, m, max).document, id) == DesiredAfter(DesiredIn(current, id), m, id)
    ensures match m
            case Create(t, _, _) => DesiredIn(current, t).None?
            case EnsureInitialTab(t, _) => DesiredIn(current, t).None?
            case SetDesiredState(t, _) => DesiredIn(current, t).Some?
            case Remove(t) => DesiredIn(current, t).Some?
            case _ => true
  {
    var next := Build(current, m, max).document;
    match m
    case Create(t, name, now) =>
      var chosen := if name.Omitted? then Numbered(|current.tabs| + 1) else name.name;
      AppendSetsDesired(current, NewTab(t, chosen, |current.tabs|, now), id);
    case EnsureInitialTab(t, now) =>
      assert current.tabs + [NewTab(t, Numbered(1), 0, now)] == [NewTab(t, Numbered(1), 0, now)];
      AppendSetsDesired(current, NewTab(t, Numbered(1), 0, now), id);
    case Rename(_, _) => UpdateKeepsDesired(current, next, id);
    case Reorder(revision, ids) => ReorderKeepsDesired(current, revision, ids, id);
    case SetDesiredState(t, state) => UpdateSetsDesired(current, next, t, state, id);
    case Remove(t) => RemoveSetsDesired(current, t, max, id);
    case FlushActivity(_, _) => UpdateKeepsDesired(current, next, id);
  }
}
