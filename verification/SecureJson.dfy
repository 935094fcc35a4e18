/** `preflightJson` and `serializeJson` of apps/server/src/secure-json-file.ts, proved against the recursive
    specification. */
module SecureJson {
  import opened Collections
  import opened JsonText
  import opened JsonPreflight
  import opened JsonTraversal

  // ---------------------------------------------------------------- limits

  ghost function Total(g: Heap, root: Value, what: Measure): nat {
    CostOf(g, root, Left(0), what)
  }

  lemma {:induction false} OverLimit(g: Heap, root: Value, spent: nat, what: Measure)
    requires Limit(what) < spent <= Total(g, root, what)
    ensures !Accepts(g, root)
  {
    assert CostOf(g, root, MAX_SERIALIZATION_DEPTH, what) > Limit(what);
  }

  /** The cost of the current item has not been counted yet. */
  lemma {:induction false} CurrentCost(g: Heap, root: Value, phase: Phase, item: Work, counted: nat, total: nat,
                                       what: Measure)
    requires Counts(g, phase, counted, total, what) && Current(g, root, phase, item)
    requires phase.Before? ==> total == CostOf(g, item.value, Left(item.depth), what)
    ensures counted + CostOf(g, item.value, Left(item.depth), what) <= total
  {
    if phase.Within? {
      PoppedRest(g, phase.frames, what);
    }
  }

  lemma {:induction false} OwnCostIsPart(g: Heap, v: Value, depth: nat, what: Measure)
    requires depth <= MAX_SERIALIZATION_DEPTH
    ensures (if v.Ref? then OwnCost(g(v.id), what) else LeafCost(v, what)) <= CostOf(g, v, Left(depth), what)
  {
  }

  /** On top of the stack lies the current item, or the exit of an object whose children are all done. */
  lemma {:induction false} TopIsCurrent(g: Heap, root: Value, phase: Phase, item: Work, work: seq<Work>,
                                        clones: seq<Clone>, snapshot: Option<Cell>, ancestors: set<Id>)
    requires Inv(g, root, phase, work + [item], clones, snapshot, ancestors)
    ensures item.Visit? ==> Current(g, root, phase, item)
    ensures item.Exit? ==> phase.Within?
    ensures phase.Within? ==>
              phase.frames != [] && Inside(g, root, clones, snapshot, phase.frames) && ancestors == Ids(phase.frames)
  {
    assert Last(work + [item]) == item;
    if phase.Within? {
      TopOfStack(phase.frames);
    }
  }

  // ---------------------------------------------------------------- the loops over properties

  method PushElements(slots: seq<Slot>, clone: nat, depth: nat) returns (ok: bool, pushed: seq<Work>)
    ensures ok <==> AllData(slots)
    ensures ok ==> pushed == Pushed(clone, ElementKids(slots), 0, depth)
  {
    pushed := [];
    for index := |slots| downto 0
      invariant forall i :: index <= i < |slots| ==> IsData(slots[i])
      invariant AllData(slots) ==> pushed == Pushed(clone, ElementKids(slots), index, depth)
    {
      var s := slots[index];
      if !s.Element? || !s.enumerable || s.value.None? {
        return false, [];
      }
      if AllData(slots) {
        ElementAt(slots, index);
      }
      pushed := pushed + [Visit(s.value.value, Some(Place(clone, index, [])), depth)];
    }
    ok := true;
  }

  function Prepended(entries: seq<Child>, rest: Option<seq<Child>>): Option<seq<Child>> {
    if rest.None? then None else Some(entries + rest.value)
  }

  lemma {:induction false} PrependedNothing(rest: Option<seq<Child>>)
    ensures Prepended([], rest) == rest
  {
    assert rest.Some? ==> [] + rest.value == rest.value;
  }

  lemma {:induction false} PrependedOne(entries: seq<Child>, properties: seq<Property>, k: nat)
    requires k < |properties|
    ensures var p, rest := properties[k], Entries(properties[k + 1..]);
            Prepended(entries, Entries(properties[k..]))
            == if !p.enumerable then Prepended(entries, rest)
               else if p.symbol || p.value.None? then None
               else Prepended(entries + [Child(p.name, p.value.value)], rest)
  {
    var p, rest := properties[k], Entries(properties[k + 1..]);
    assert properties[k..][1..] == properties[k + 1..];
    if p.enumerable && !p.symbol && p.value.Some? && rest.Some? {
      var c := Child(p.name, p.value.value);
      assert entries + ([c] + rest.value) == entries + [c] + rest.value;
    }
  }

  method CollectEntries(properties: seq<Property>) returns (ok: bool, entries: seq<Child>)
    ensures ok <==> Entries(properties).Some?
    ensures ok ==> entries == Entries(properties).value
  {
    entries := [];
    assert properties[0..] == properties;
    PrependedNothing(Entries(properties));
    for k := 0 to |properties|
      invariant Entries(properties) == Prepended(entries, Entries(properties[k..]))
    {
      assert properties[k..][1..] == properties[k + 1..];
      PrependedOne(entries, properties, k);
      var p := properties[k];
      if p.enumerable {
        if p.symbol || p.value.None? {
          return false, [];
        }
        entries := entries + [Child(p.name, p.value.value)];
      }
    }
    assert properties[|properties|..] == [];
    ok := true;
  }

  /** Pushes the entries from the last to the first, counting the quoted names and colons. */
  method PushEntries(kids: seq<Child>, clone: nat, depth: nat, bytesBefore: nat)
    returns (ok: bool, pushed: seq<Work>, bytes: nat)
    ensures ok ==> pushed == Pushed(clone, kids, 0, depth) && bytes == bytesBefore + NameBytes(kids)
    ensures !ok ==> bytesBefore + NameBytes(kids) > MAX_SECURE_JSON_BYTES
    ensures ok && bytesBefore <= MAX_SECURE_JSON_BYTES ==> bytes <= MAX_SECURE_JSON_BYTES
  {
    pushed, bytes := [], bytesBefore;
    assert kids[|kids|..] == [] && kids[0..] == kids;
    for index := |kids| downto 0
      invariant pushed == Pushed(clone, kids, index, depth)
      invariant bytes == bytesBefore + NameBytes(kids[index..])
      invariant bytesBefore <= MAX_SECURE_JSON_BYTES ==> bytes <= MAX_SECURE_JSON_BYTES
    {
      assert kids[index..][1..] == kids[index + 1..];
      var length := JsonStringByteLength(kids[index].name);
      bytes := bytes + length + 1;
      if bytes > MAX_SECURE_JSON_BYTES {
        NameBytesSuffix(kids, index);
        return false, [], bytes;
      }
      pushed := pushed + [Visit(kids[index].value, Some(Place(clone, index, kids[index].name)), depth)];
    }
    ok := true;
  }

  lemma {:induction false} NameBytesSuffix(kids: seq<Child>, k: nat)
    requires k <= |kids|
    ensures NameBytes(kids[k..]) <= NameBytes(kids)
  {
    if k == 0 {
      assert kids[0..] == kids;
    } else {
      NameBytesSuffix(kids[1..], k - 1);
      assert kids[1..][k - 1..] == kids[k..];
    }
  }

  /** Everything the traversal does with an object before it turns to the children. */
  method Open(n: Node, clone: nat, depth: nat, bytesBefore: nat)
    returns (ok: bool, length: nat, pushed: seq<Work>, bytes: nat)
    requires bytesBefore <= MAX_SECURE_JSON_BYTES
    ensures ok ==> Children(n).Some?
    ensures ok ==> length == |Children(n).value| && pushed == Pushed(clone, Children(n).value, 0, depth)
    ensures ok ==> bytes == bytesBefore + OwnCost(n, Bytes) <= MAX_SECURE_JSON_BYTES
    ensures !ok ==> Children(n).None? || bytesBefore + OwnCost(n, Bytes) > MAX_SECURE_JSON_BYTES
  {
    ok, length, pushed, bytes := false, 0, [], bytesBefore;
    match n
    case ArrayNode(slots, extras) =>
      length := |slots|;
      if length > MAX_SERIALIZATION_NODES || EnumerableSymbol(extras)
         || EnumerableSlots(slots) + EnumerableProperties(extras) != length {
        return;
      }
      bytes := bytes + 2 + Commas(length);
      if bytes > MAX_SECURE_JSON_BYTES {
        return;
      }
      ok, pushed := PushElements(slots, clone, depth);
    case ObjectNode(plain, properties) =>
      if !plain {
        return;
      }
      var kids;
      ok, kids := CollectEntries(properties);
      if !ok {
        return;
      }
      length := |kids|;
      bytes := bytes + 2 + Commas(length);
      if bytes > MAX_SECURE_JSON_BYTES {
        ok := false;
        return;
      }
      ok, pushed, bytes := PushEntries(kids, clone, depth, bytes);
  }

  method LeafBytes(v: Value) returns (ok: bool, bytes: nat)
    requires !v.Ref?
    ensures ok <==> v.Plain?
    ensures ok ==> bytes <= PrimitiveBytes(v.p) && (bytes == PrimitiveBytes(v.p) || bytes > MAX_SECURE_JSON_BYTES)
  {
    ok, bytes := true, 0;
    match v
    case Plain(p) => {
      match p
      case Null => bytes := 4;
      case Bool(b) => bytes := if b then 4 else 5;
      case Number(text) => bytes := |text|;
      case Text(units) => bytes := JsonStringByteLength(units);
    }
    case NotFinite => ok := false;
    case Foreign => ok := false;
  }

  // ---------------------------------------------------------------- the traversal

  /** The variables of the loop. */
  datatype Traversal = Traversal(
    work: seq<Work>, clones: seq<Clone>, snapshot: Option<Cell>, ancestors: set<Id>, nodes: nat, keys: nat, bytes: nat)

  ghost function Counted(t: Traversal, what: Measure): nat {
    match what
    case Nodes => t.nodes
    case Keys => t.keys
    case Bytes => t.bytes
  }

  ghost predicate CountedAt(g: Heap, root: Value, phase: Phase, t: Traversal, what: Measure) {
    Counts(g, phase, Counted(t, what), Total(g, root, what), what)
  }

  ghost predicate WithinLimits(t: Traversal) {
    t.nodes <= MAX_SERIALIZATION_NODES && t.keys <= MAX_SERIALIZATION_KEYS && t.bytes <= MAX_SECURE_JSON_BYTES
  }

  ghost predicate Sound(g: Heap, root: Value, phase: Phase, t: Traversal) {
    && Inv(g, root, phase, t.work, t.clones, t.snapshot, t.ancestors)
    && (forall what {:trigger CountedAt(g, root, phase, t, what)} :: CountedAt(g, root, phase, t, what))
    && WithinLimits(t)
  }

  /** The popped item is the current one; `t` is the traversal without it. */
  ghost predicate Popped(g: Heap, root: Value, phase: Phase, t: Traversal, item: Work) {
    && Sound(g, root, phase, t.(work := t.work + [item])) && item.Visit? && Current(g, root, phase, item)
  }

  lemma {:induction false} PoppedCounts(g: Heap, root: Value, phase: Phase, t: Traversal, item: Work, what: Measure)
    requires Popped(g, root, phase, t, item)
    ensures Counts(g, phase, Counted(t, what), Total(g, root, what), what)
    ensures phase.Before? ==> Total(g, root, what) == CostOf(g, item.value, Left(item.depth), what)
    ensures Counted(t, what) + CostOf(g, item.value, Left(item.depth), what) <= Total(g, root, what)
  {
    assert CountedAt(g, root, phase, t.(work := t.work + [item]), what);
    CurrentCost(g, root, phase, item, Counted(t, what), Total(g, root, what), what);
  }

  lemma {:induction false} PoppedRejects(g: Heap, root: Value, phase: Phase, t: Traversal, item: Work)
    requires Popped(g, root, phase, t, item) && Unfold(g, item.value, Left(item.depth)).None?
    ensures !Accepts(g, root)
  {
    TopIsCurrent(g, root, phase, item, t.work, t.clones, t.snapshot, t.ancestors);
    CurrentNone(g, root, phase, item, t.clones, t.snapshot);
  }

  /** What the item costs on its own does not fit into a limit. */
  lemma {:induction false} PoppedIsTooMuch(g: Heap, root: Value, phase: Phase, t: Traversal, item: Work, what: Measure)
    requires Popped(g, root, phase, t, item) && item.depth <= MAX_SERIALIZATION_DEPTH
    requires Counted(t, what)
             + (if item.value.Ref? then OwnCost(g(item.value.id), what) else LeafCost(item.value, what)) > Limit(what)
    ensures !Accepts(g, root)
  {
    PoppedCounts(g, root, phase, t, item, what);
    OwnCostIsPart(g, item.value, item.depth, what);
    OverLimit(g, root, Counted(t, what) + CostOf(g, item.value, Left(item.depth), what), what);
  }

  lemma {:induction false} LeafKeepsSound(g: Heap, root: Value, phase: Phase, t: Traversal, item: Work, v: Traversal)
    requires Popped(g, root, phase, t, item) && item.value.Plain? && item.depth <= MAX_SERIALIZATION_DEPTH
    requires v.work == t.work && v.clones == Assigned(t.clones, item.place, Prim(item.value.p))
             && v.ancestors == t.ancestors
    requires v.snapshot == if item.place.None? then Some(Prim(item.value.p)) else t.snapshot
    requires v.nodes == t.nodes + 1 && v.keys == t.keys && v.bytes == t.bytes + PrimitiveBytes(item.value.p)
             && WithinLimits(v)
    ensures Sound(g, root, NextPhase(phase), v)
  {
    VisitLeaf(g, root, phase, item, t.work, t.clones, t.snapshot, t.ancestors);
    forall what: Measure
      ensures CountedAt(g, root, NextPhase(phase), v, what)
    {
      PoppedCounts(g, root, phase, t, item, what);
      VisitLeafCounts(g, root, phase, item, Counted(t, what), Total(g, root, what), what);
    }
  }

  /** A null, boolean, number or string: count it and store it. */
  method VisitValue(g: Heap, root: Value, t: Traversal, item: Work, ghost phase: Phase) returns (ok: bool, v: Traversal)
    requires Popped(g, root, phase, t, item) && !item.value.Ref? && item.depth <= MAX_SERIALIZATION_DEPTH
    requires t.nodes < MAX_SERIALIZATION_NODES
    ensures ok ==> v.nodes == t.nodes + 1 && Sound(g, root, NextPhase(phase), v)
    ensures !ok ==> !Accepts(g, root)
  {
    v := t;
    var amount;
    ok, amount := LeafBytes(item.value);
    if !ok {
      PoppedRejects(g, root, phase, t, item);
      return;
    }
    v := v.(nodes := t.nodes + 1, bytes := t.bytes + amount);
    if v.bytes > MAX_SECURE_JSON_BYTES {
      PoppedIsTooMuch(g, root, phase, t, item, Bytes);
      ok := false;
      return;
    }
    var cell := Prim(item.value.p);
    v := v.(clones := Assigned(t.clones, item.place, cell),
            snapshot := if item.place.None? then Some(cell) else t.snapshot);
    LeafKeepsSound(g, root, phase, t, item, v);
  }

  ghost function NewFrame(g: Heap, id: Id, clone: nat): Frame
    requires Children(g(id)).Some?
  {
    Frame(clone, id, g(id).ArrayNode?, Children(g(id)).value, 0)
  }

  lemma {:induction false} ObjectKeepsSound(g: Heap, root: Value, phase: Phase, t: Traversal, item: Work,
                                            kids: seq<Child>, v: Traversal)
    requires Popped(g, root, phase, t, item) && item.value.Ref? && item.depth <= MAX_SERIALIZATION_DEPTH
    requires item.value.id !in t.ancestors && Children(g(item.value.id)) == Some(kids)
    requires v.work == t.work + [Exit(item.value.id)] + Pushed(|t.clones|, kids, 0, item.depth + 1)
    requires v.clones
             == Assigned(t.clones, item.place, At(|t.clones|)) + [NewClone(g(item.value.id).ArrayNode?, |kids|)]
    requires v.snapshot == if item.place.None? then Some(At(|t.clones|)) else t.snapshot
    requires v.ancestors == t.ancestors + {item.value.id} && WithinLimits(v)
    requires forall what :: Counted(v, what) == Counted(t, what) + OwnCost(g(item.value.id), what)
    ensures Sound(g, root, OpenPhase(phase, NewFrame(g, item.value.id, |t.clones|)), v)
  {
    var f := NewFrame(g, item.value.id, |t.clones|);
    VisitObject(g, root, phase, item, t.work, t.clones, t.snapshot, t.ancestors, kids);
    forall what: Measure
      ensures CountedAt(g, root, OpenPhase(phase, f), v, what)
    {
      PoppedCounts(g, root, phase, t, item, what);
      VisitObjectCounts(g, root, phase, item, Counted(t, what), Total(g, root, what), f, what);
    }
  }

  lemma {:induction false} RevisitRejects(g: Heap, root: Value, phase: Phase, t: Traversal, item: Work)
    requires Popped(g, root, phase, t, item) && item.value.Ref? && item.value.id in t.ancestors
    ensures !Accepts(g, root)
  {
    TopIsCurrent(g, root, phase, item, t.work, t.clones, t.snapshot, t.ancestors);
    CycleNone(g, root, phase.frames, t.clones, t.snapshot, item.value.id);
  }

  /** An object or array: reject it on its own path, otherwise create its clone and push its children. */
  method VisitContainer(g: Heap, root: Value, t: Traversal, item: Work, ghost phase: Phase)
    returns (ok: bool, v: Traversal, ghost next: Phase)
    requires Popped(g, root, phase, t, item) && item.value.Ref? && item.depth <= MAX_SERIALIZATION_DEPTH
    requires t.nodes < MAX_SERIALIZATION_NODES
    ensures ok ==> v.nodes == t.nodes + 1 && Sound(g, root, next, v)
    ensures !ok ==> !Accepts(g, root)
  {
    next := phase;
    var id := item.value.id;
    if id in t.ancestors {
      RevisitRejects(g, root, phase, t, item);
      return false, t, phase;
    }
    ok, v := OpenContainer(g, t, item);
    if ok {
      ObjectKeepsSound(g, root, phase, t, item, Children(g(id)).value, v);
      next := OpenPhase(phase, NewFrame(g, id, |t.clones|));
    } else {
      ContainerRejects(g, root, phase, t, item, id);
    }
  }

  method OpenContainer(g: Heap, t: Traversal, item: Work) returns (ok: bool, v: Traversal)
    requires item.Visit? && item.value.Ref? && t.bytes <= MAX_SECURE_JSON_BYTES && t.nodes < MAX_SERIALIZATION_NODES
    ensures ok ==> Children(g(item.value.id)).Some?
    ensures ok ==>
              var id, kids := item.value.id, Children(g(item.value.id)).value;
              && v.work == t.work + [Exit(id)] + Pushed(|t.clones|, kids, 0, item.depth + 1)
              && v.clones == Assigned(t.clones, item.place, At(|t.clones|)) + [NewClone(g(id).ArrayNode?, |kids|)]
              && v.snapshot == (if item.place.None? then Some(At(|t.clones|)) else t.snapshot)
              && v.ancestors == t.ancestors + {id}
              && v.nodes == t.nodes + 1 && v.keys == t.keys + OwnKeys(g(id)) && v.bytes == t.bytes + BranchBytes(g(id))
              && WithinLimits(v)
    ensures !ok ==>
              var n := g(item.value.id);
              || Children(n).None? || t.bytes + BranchBytes(n) > MAX_SECURE_JSON_BYTES
              || t.keys + OwnKeys(n) > MAX_SERIALIZATION_KEYS
  {
    var id := item.value.id;
    var keys := t.keys + OwnKeys(g(id));
    if keys > MAX_SERIALIZATION_KEYS {
      return false, t;
    }
    var length, pushed, bytes;
    ok, length, pushed, bytes := Open(g(id), |t.clones|, item.depth + 1, t.bytes);
    if !ok {
      return false, t;
    }
    v := Traversal(t.work + [Exit(id)] + pushed,
                   Assigned(t.clones, item.place, At(|t.clones|)) + [NewClone(g(id).ArrayNode?, length)],
                   if item.place.None? then Some(At(|t.clones|)) else t.snapshot,
                   t.ancestors + {id}, t.nodes + 1, keys, bytes);
  }

  lemma {:induction false} ContainerRejects(g: Heap, root: Value, phase: Phase, t: Traversal, item: Work, id: Id)
    requires Popped(g, root, phase, t, item) && item.value == Ref(id) && item.depth <= MAX_SERIALIZATION_DEPTH
    requires Children(g(id)).None? || t.bytes + BranchBytes(g(id)) > MAX_SECURE_JSON_BYTES
             || t.keys + OwnKeys(g(id)) > MAX_SERIALIZATION_KEYS
    ensures !Accepts(g, root)
  {
    if Children(g(id)).None? {
      PoppedRejects(g, root, phase, t, item);
    } else if t.bytes + BranchBytes(g(id)) > MAX_SECURE_JSON_BYTES {
      PoppedIsTooMuch(g, root, phase, t, item, Bytes);
    } else {
      PoppedIsTooMuch(g, root, phase, t, item, Keys);
    }
  }

  method Leave(g: Heap, root: Value, t: Traversal, item: Work, ghost phase: Phase)
    returns (v: Traversal, ghost next: Phase)
    requires Sound(g, root, phase, t.(work := t.work + [item])) && item.Exit?
    ensures v == t.(ancestors := t.ancestors - {item.id}) && Sound(g, root, next, v)
  {
    v := t.(ancestors := t.ancestors - {item.id});
    TopIsCurrent(g, root, phase, item, t.work, t.clones, t.snapshot, t.ancestors);
    LeaveObject(g, root, phase.frames, item, t.work, t.clones, t.snapshot, t.ancestors);
    next := ClosedPhase(phase.frames);
    forall what: Measure
      ensures CountedAt(g, root, next, v, what)
    {
      assert CountedAt(g, root, phase, t.(work := t.work + [item]), what);
      LeaveObjectCounts(g, phase.frames, Counted(t, what), Total(g, root, what), what);
    }
  }

  /** One `value` item. */
  method VisitItem(g: Heap, root: Value, t: Traversal, item: Work, ghost phase: Phase)
    returns (ok: bool, v: Traversal, ghost next: Phase)
    requires Popped(g, root, phase, t, item)
    ensures ok ==> v.nodes == t.nodes + 1 && Sound(g, root, next, v)
    ensures !ok ==> !Accepts(g, root)
  {
    if t.nodes + 1 > MAX_SERIALIZATION_NODES || item.depth > MAX_SERIALIZATION_DEPTH {
      if item.depth > MAX_SERIALIZATION_DEPTH {
        PoppedRejects(g, root, phase, t, item);
      } else {
        PoppedIsTooMuch(g, root, phase, t, item, Nodes);
      }
      return false, t, phase;
    }
    if item.value.Ref? {
      ok, v, next := VisitContainer(g, root, t, item, phase);
    } else {
      next := NextPhase(phase);
      ok, v := VisitValue(g, root, t, item, phase);
    }
  }

  lemma {:induction false} IsPopped(g: Heap, root: Value, phase: Phase, t: Traversal, item: Work)
    requires Sound(g, root, phase, t.(work := t.work + [item])) && item.Visit?
    ensures Popped(g, root, phase, t, item)
  {
    TopIsCurrent(g, root, phase, item, t.work, t.clones, t.snapshot, t.ancestors);
  }

  lemma {:induction false} AtTheStart(g: Heap, root: Value, t: Traversal)
    requires t == Traversal([Visit(root, None, 0)], [], None, {}, 0, 0, 0)
    ensures Sound(g, root, Before, t)
  {
    forall what: Measure
      ensures CountedAt(g, root, Before, t, what)
    {
    }
  }

  lemma {:induction false} AtTheEnd(g: Heap, root: Value, phase: Phase, t: Traversal)
    requires Sound(g, root, phase, t) && t.work == []
    ensures Accepts(g, root) && Finished(g, root, t.clones, t.snapshot)
  {
    if phase.Within? {
      TopOfStack(phase.frames);
    }
    forall what: Measure
      ensures CostOf(g, root, MAX_SERIALIZATION_DEPTH, what) <= Limit(what)
    {
      assert CountedAt(g, root, phase, t, what);
    }
  }

  /** Terminates on every graph, cyclic or not; accepts exactly the graphs that unfold to a tree within the limits; and
      then the clones spell that tree.  No clone is shared and none is an original object. */
  method Preflight(g: Heap, root: Value) returns (accepted: bool, clones: seq<Clone>, snapshot: Option<Cell>)
    ensures accepted <==> Accepts(g, root)
    ensures accepted ==> Finished(g, root, clones, snapshot)
  {
    var t := Traversal([Visit(root, None, 0)], [], None, {}, 0, 0, 0);
    ghost var phase := Before;
    AtTheStart(g, root, t);
    while t.work != []
      invariant Sound(g, root, phase, t)
      decreases MAX_SERIALIZATION_NODES - t.nodes, |t.work|
    {
      var item := Last(t.work);
      var popped := t.(work := Front(t.work));
      assert popped.(work := popped.work + [item]) == t;
      if item.Exit? {
        t, phase := Leave(g, root, popped, item, phase);
      } else {
        IsPopped(g, root, phase, popped, item);
        var ok;
        ok, t, phase := VisitItem(g, root, popped, item, phase);
        if !ok {
          return false, [], None;
        }
      }
    }
    AtTheEnd(g, root, phase, t);
    accepted, clones, snapshot := true, t.clones, t.snapshot;
  }

  // ---------------------------------------------------------------- the text

  /** What JSON.stringify finds below a cell; clones that come before `from` would be ancestors. */
  function ReadOut(clones: seq<Clone>, cell: Cell, from: nat): Option<Json>
    decreases if from < |clones| then |clones| - from else 0, 0
  {
    match cell
    case Prim(p) => Some(Leaf(p))
    case At(c) =>
      if c < from || c >= |clones| then None
      else
        var members := ReadMembers(clones, clones[c], 0, c + 1);
        if members.None? then None else Some(Branch(clones[c].ListClone?, members.value))
  }

  function CloneSize(c: Clone): nat {
    if c.ListClone? then |c.cells| else |c.entries|
  }

  function ReadMembers(clones: seq<Clone>, c: Clone, i: nat, from: nat): Option<seq<Member>>
    decreases if from < |clones| then |clones| - from else 0, if i < CloneSize(c) then CloneSize(c) - i else 0
  {
    if i >= CloneSize(c) then Some([])
    else if CellAt(c, i).None? then None
    else
      var first, rest := ReadOut(clones, CellAt(c, i).value, from), ReadMembers(clones, c, i + 1, from);
      if first.None? || rest.None? then None
      else Some([Member(if c.ListClone? then [] else c.entries[i].name, first.value)] + rest.value)
  }

  /** Cells that spell a tree are read out as that tree. */
  lemma {:induction false} SpelledIsRead(clones: seq<Clone>, cell: Cell, t: Json, lo: nat, hi: nat)
    requires Represents(clones, cell, t, lo, hi)
    ensures ReadOut(clones, cell, lo) == Some(t)
    decreases t
  {
    if t.Branch? {
      SpelledMembersAreRead(clones, cell.clone, t.list, t.members, 0, hi);
      assert t.members[0..] == t.members;
    }
  }

  lemma {:induction false} SpelledMembersAreRead(clones: seq<Clone>, c: nat, list: bool, members: seq<Member>, i: nat,
                                                 hi: nat)
    requires c < hi <= |clones| && Whole(clones[c], list, members) && i <= |members|
    requires forall k | 0 <= k < |members| ::
               RepresentsMember(clones, CellAt(clones[c], k), members[k].value, c + 1, hi)
    ensures ReadMembers(clones, clones[c], i, c + 1) == Some(members[i..])
    decreases members, |members| - i
  {
    if i < |members| {
      assert RepresentsMember(clones, CellAt(clones[c], i), members[i].value, c + 1, hi);
      SpelledIsRead(clones, CellAt(clones[c], i).value, members[i].value, c + 1, hi);
      SpelledMembersAreRead(clones, c, list, members, i + 1, hi);
      assert members[i..] == [members[i]] + members[i + 1..];
    }
  }

  ghost function TextOf(g: Heap, root: Value): seq<Byte>
    requires Accepts(g, root)
  {
    Utf8(Print(Unfold(g, root, MAX_SERIALIZATION_DEPTH).value))
  }

  /** The bytes that the traversal counts are the bytes of the text, so the size check after encoding never fires. */
  lemma {:induction false} LateSizeCheckNeverFires(g: Heap, root: Value)
    requires Accepts(g, root)
    ensures |TextOf(g, root)| == CostOf(g, root, MAX_SERIALIZATION_DEPTH, Bytes) <= MAX_SECURE_JSON_BYTES
    ensures CostOf(g, root, MAX_SERIALIZATION_DEPTH, Nodes) == TreeNodes(Unfold(g, root, MAX_SERIALIZATION_DEPTH).value)
  {
    CostIsTreeSize(g, root, MAX_SERIALIZATION_DEPTH);
    PrintedBytes(Unfold(g, root, MAX_SERIALIZATION_DEPTH).value);
  }

  lemma {:induction false} SnapshotReads(g: Heap, root: Value, clones: seq<Clone>, snapshot: Option<Cell>)
    requires Finished(g, root, clones, snapshot)
    ensures ReadOut(clones, snapshot.value, 0) == Unfold(g, root, MAX_SERIALIZATION_DEPTH)
  {
    SpelledIsRead(clones, snapshot.value, Unfold(g, root, Left(0)).value, 0, |clones|);
  }

  /** `serializeJson`: the encoded text of the tree, or an exception, which every caller maps to the same error. */
  method SerializeJson(g: Heap, root: Value) returns (r: Option<seq<Byte>>)
    ensures r == if Accepts(g, root) then Some(TextOf(g, root)) else None
    ensures r.Some? ==> |r.value| <= MAX_SECURE_JSON_BYTES
  {
    var accepted, clones, snapshot := Preflight(g, root);
    if !accepted {
      return None;
    }
    SnapshotReads(g, root, clones, snapshot);
    var tree := ReadOut(clones, snapshot.value, 0);
    var bytes := Utf8(Print(tree.value));
    LateSizeCheckNeverFires(g, root);
    r := if |bytes| > MAX_SECURE_JSON_BYTES then None else Some(bytes);
  }

  // ---------------------------------------------------------------- what acceptance means for the graph

  ghost predicate Refers(g: Heap, a: Id, b: Id) {
    Children(g(a)).Some? && exists i :: 0 <= i < |Children(g(a)).value| && Children(g(a)).value[i].value == Ref(b)
  }

  ghost predicate Chain(g: Heap, ids: seq<Id>) {
    forall i :: 0 <= i < |ids| - 1 ==> Refers(g, ids[i], ids[i + 1])
  }

  lemma {:induction false} ReferredIsSmaller(g: Heap, a: Id, b: Id, left: int)
    requires Unfold(g, Ref(a), left).Some? && Refers(g, a, b)
    ensures Unfold(g, Ref(b), left - 1).Some?
    ensures TreeNodes(Unfold(g, Ref(b), left - 1).value) < TreeNodes(Unfold(g, Ref(a), left).value)
  {
    var i :| 0 <= i < |Children(g(a)).value| && Children(g(a)).value[i].value == Ref(b);
    ChildIsSmaller(g, a, left, i);
  }

  lemma {:induction false} ChainShrinks(g: Heap, ids: seq<Id>, left: int, k: nat)
    requires Chain(g, ids) && k < |ids| && Unfold(g, Ref(ids[0]), left).Some?
    ensures k <= left && Unfold(g, Ref(ids[k]), left - k).Some?
    ensures k > 0 ==> TreeNodes(Unfold(g, Ref(ids[k]), left - k).value) < TreeNodes(Unfold(g, Ref(ids[0]), left).value)
  {
    if k > 0 {
      ChainShrinks(g, ids, left, k - 1);
      ReferredIsSmaller(g, ids[k - 1], ids[k], left - (k - 1));
    }
  }

  /** No chain of references from an accepted root meets an object twice or is longer than the depth limit allows. */
  lemma {:induction false} AcceptedIsAcyclic(g: Heap, ids: seq<Id>, left: int)
    requires ids != [] && Chain(g, ids) && Unfold(g, Ref(ids[0]), left).Some?
    ensures Distinct(ids) && |ids| <= left + 1
  {
    ChainShrinks(g, ids, left, |ids| - 1);
    forall i, j | 0 <= i < j < |ids|
      ensures ids[i] != ids[j]
    {
      ChainShrinks(g, ids, left, i);
      ChainShrinks(g, ids[i..], left - i, j - i);
      if ids[i] == ids[j] {
        UnfoldMonotone(g, Ref(ids[j]), left - j, left - i);
        assert false;
      }
    }
  }
}
