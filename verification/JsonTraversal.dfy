/** The loop of `preflightJson`: a stack of work items instead of recursion, and clones that refer to each other by
    identity instead of a tree.  The clones made so far are the sequence `clones`; a clone is its position there. */
module JsonTraversal {
  import opened Collections
  import opened JsonText
  import opened JsonPreflight

  datatype Cell = Prim(p: Primitive) | At(clone: nat)
  datatype Entry = Entry(name: seq<Unit>, cell: Cell)

  /** An array clone is created with its length; an object clone gets its properties one by one. */
  datatype Clone = ListClone(cells: seq<Option<Cell>>) | RecordClone(entries: seq<Entry>)

  /** Where a value goes: under which key of which clone. */
  datatype Place = Place(clone: nat, index: nat, name: seq<Unit>)

  datatype Work = Visit(value: Value, place: Option<Place>, depth: nat) | Exit(id: Id)

  // ---------------------------------------------------------------- clones

  function CellAt(c: Clone, i: nat): Option<Cell> {
    if c.ListClone? then (if i < |c.cells| then c.cells[i] else None)
    else if i < |c.entries| then Some(c.entries[i].cell) else None
  }

  /** `assign`: own keys are distinct, so a property defined on an object clone is a new one and comes last. */
  function Stored(c: Clone, index: nat, name: seq<Unit>, cell: Cell): Clone {
    if c.ListClone? then (if index < |c.cells| then c.(cells := c.cells[index := Some(cell)]) else c)
    else c.(entries := c.entries + [Entry(name, cell)])
  }

  function Assigned(clones: seq<Clone>, place: Option<Place>, cell: Cell): seq<Clone> {
    if place.None? || place.value.clone >= |clones| then clones
    else
      var p := place.value;
      clones[p.clone := Stored(clones[p.clone], p.index, p.name, cell)]
  }

  function NewClone(list: bool, length: nat): Clone {
    if list then ListClone(seq(length, _ => None)) else RecordClone([])
  }

  /** The clone holds exactly its first `n` children. */
  ghost predicate Shaped(c: Clone, list: bool, kids: seq<Child>, n: nat) {
    if list then c.ListClone? && |c.cells| == |kids| && forall i :: 0 <= i < |kids| ==> (c.cells[i].Some? <==> i < n)
    else c.RecordClone? && |c.entries| == n <= |kids| && forall i :: 0 <= i < n ==> c.entries[i].name == kids[i].name
  }

  ghost predicate Whole(c: Clone, list: bool, members: seq<Member>) {
    if list then c.ListClone? && |c.cells| == |members| && forall i :: 0 <= i < |members| ==> members[i].name == []
    else
      && c.RecordClone? && |c.entries| == |members|
      && forall i :: 0 <= i < |members| ==> c.entries[i].name == members[i].name
  }

  /** The cell, with the clones `lo..hi` it leads to, spells the tree; every clone leads to later ones only. */
  ghost predicate Represents(clones: seq<Clone>, cell: Cell, t: Json, lo: nat, hi: nat)
    decreases t, 0
  {
    hi <= |clones|
    && match t
       case Leaf(p) => cell == Prim(p)
       case Branch(list, members) =>
         && cell.At? && lo <= cell.clone < hi && Whole(clones[cell.clone], list, members)
         && forall i | 0 <= i < |members| ::
              RepresentsMember(clones, CellAt(clones[cell.clone], i), members[i].value, cell.clone + 1, hi)
  }

  ghost predicate RepresentsMember(clones: seq<Clone>, cell: Option<Cell>, t: Json, lo: nat, hi: nat)
    decreases t, 1
  {
    cell.Some? && Represents(clones, cell.value, t, lo, hi)
  }

  lemma {:induction false} RepresentsStable(clones: seq<Clone>, later: seq<Clone>, cell: Cell, t: Json, lo: nat,
                                            hi: nat, lo': nat, hi': nat)
    requires Represents(clones, cell, t, lo, hi)
    requires lo' <= lo && hi <= hi' <= |later| && forall i :: lo <= i < hi ==> later[i] == clones[i]
    ensures Represents(later, cell, t, lo', hi')
    decreases t
  {
    if t.Branch? {
      var c := cell.clone;
      forall i | 0 <= i < |t.members|
        ensures RepresentsMember(later, CellAt(later[c], i), t.members[i].value, c + 1, hi')
      {
        assert RepresentsMember(clones, CellAt(clones[c], i), t.members[i].value, c + 1, hi);
        RepresentsStable(clones, later, CellAt(clones[c], i).value, t.members[i].value, c + 1, hi, c + 1, hi');
      }
    }
  }

  // ---------------------------------------------------------------- the stack

  /** An object on the path from the root: its clone, its children, and how many of them have been popped. */
  datatype Frame = Frame(clone: nat, id: Id, list: bool, kids: seq<Child>, next: nat)

  function Last<T>(s: seq<T>): T
    requires s != []
  {
    s[|s| - 1]
  }

  function Front<T>(s: seq<T>): seq<T>
    requires s != []
  {
    s[..|s| - 1]
  }

  /** The children from `from` on, the first of them on top. */
  function Pushed(clone: nat, kids: seq<Child>, from: nat, depth: nat): seq<Work>
    decreases |kids| - from
  {
    if from >= |kids| then []
    else
      Pushed(clone, kids, from + 1, depth)
      + [Visit(kids[from].value, Some(Place(clone, from, kids[from].name)), depth)]
  }

  function Stack(frames: seq<Frame>): seq<Work> {
    if frames == [] then []
    else
      var f := Last(frames);
      Stack(Front(frames)) + [Exit(f.id)] + Pushed(f.clone, f.kids, f.next, |frames|)
  }

  function Ids(frames: seq<Frame>): set<Id> {
    if frames == [] then {} else Ids(Front(frames)) + {Last(frames).id}
  }

  ghost predicate DistinctIds(frames: seq<Frame>) {
    frames == [] || (DistinctIds(Front(frames)) && Last(frames).id !in Ids(Front(frames)))
  }

  function Advanced(frames: seq<Frame>): seq<Frame>
    requires frames != []
  {
    Front(frames) + [Last(frames).(next := Last(frames).next + 1)]
  }

  lemma {:induction false} LastOf<T>(s: seq<T>, x: T)
    ensures Last(s + [x]) == x && Front(s + [x]) == s
  {
  }

  lemma {:induction false} ChildOnTop(frames: seq<Frame>, f: Frame)
    requires frames != [] && f == Last(frames) && f.next < |f.kids|
    ensures Stack(frames)
            == Stack(Advanced(frames))
            + [Visit(f.kids[f.next].value, Some(Place(f.clone, f.next, f.kids[f.next].name)), |frames|)]
  {
    var rest := Pushed(f.clone, f.kids, f.next + 1, |frames|);
    var item := Visit(f.kids[f.next].value, Some(Place(f.clone, f.next, f.kids[f.next].name)), |frames|);
    assert Front(Advanced(frames)) == Front(frames);
    assert Stack(Advanced(frames)) == Stack(Front(frames)) + [Exit(f.id)] + rest;
    assert Pushed(f.clone, f.kids, f.next, |frames|) == rest + [item];
  }

  /** What lies on top of the stack. */
  lemma {:induction false} TopOfStack(frames: seq<Frame>)
    requires frames != []
    ensures Stack(frames) != []
    ensures var f := Last(frames);
            if f.next < |f.kids| then
              && Last(Stack(frames))
                 == Visit(f.kids[f.next].value, Some(Place(f.clone, f.next, f.kids[f.next].name)), |frames|)
              && Front(Stack(frames)) == Stack(Advanced(frames))
            else Last(Stack(frames)) == Exit(f.id) && Front(Stack(frames)) == Stack(Front(frames))
  {
    var f := Last(frames);
    if f.next < |f.kids| {
      ChildOnTop(frames, f);
      LastOf(Stack(Advanced(frames)),
             Visit(f.kids[f.next].value, Some(Place(f.clone, f.next, f.kids[f.next].name)), |frames|));
    } else {
      assert Stack(frames) == Stack(Front(frames)) + [Exit(f.id)];
      LastOf(Stack(Front(frames)), Exit(f.id));
    }
  }

  // ---------------------------------------------------------------- the invariant

  ghost predicate Opened(g: Heap, clones: seq<Clone>, f: Frame) {
    && f.clone < |clones| && Children(g(f.id)) == Some(f.kids) && f.list == g(f.id).ArrayNode? && f.next <= |f.kids|
    && Shaped(clones[f.clone], f.list, f.kids, f.next)
  }

  function Left(depth: nat): int {
    MAX_SERIALIZATION_DEPTH - depth
  }

  /** Child `i` has a tree, and its clones up to `hi` spell it. */
  ghost predicate KidDone(g: Heap, clones: seq<Clone>, f: Frame, depth: nat, i: nat, hi: nat) {
    && f.clone < |clones| && i < |f.kids| && Unfold(g, f.kids[i].value, Left(depth)).Some?
    && RepresentsMember(clones, CellAt(clones[f.clone], i), Unfold(g, f.kids[i].value, Left(depth)).value, f.clone + 1,
                        hi)
  }

  ghost predicate Done(g: Heap, clones: seq<Clone>, f: Frame, depth: nat, n: nat, hi: nat) {
    forall i | 0 <= i < n :: KidDone(g, clones, f, depth, i, hi)
  }

  /** The frames lead from the root to the object `id`, whose clone is `clone`. */
  ghost predicate Path(g: Heap, root: Value, clones: seq<Clone>, snapshot: Option<Cell>, frames: seq<Frame>, id: Id,
                       clone: nat) {
    if frames == [] then root == Ref(id) && snapshot == Some(At(clone)) && clone == 0
    else
      var f := Last(frames);
      && Opened(g, clones, f) && 1 <= f.next && f.kids[f.next - 1].value == Ref(id)
      && CellAt(clones[f.clone], f.next - 1) == Some(At(clone)) && f.clone < clone
      && Done(g, clones, f, |frames|, f.next - 1, clone)
      && Path(g, root, clones, snapshot, Front(frames), f.id, f.clone)
  }

  ghost predicate Inside(g: Heap, root: Value, clones: seq<Clone>, snapshot: Option<Cell>, frames: seq<Frame>)
    requires frames != []
  {
    var f := Last(frames);
    && |frames| <= MAX_SERIALIZATION_DEPTH + 1
    && Opened(g, clones, f) && Done(g, clones, f, |frames|, f.next, |clones|)
    && Path(g, root, clones, snapshot, Front(frames), f.id, f.clone)
  }

  /** The cost of what is still on the stack. */
  function Rest(g: Heap, frames: seq<Frame>, what: Measure): nat {
    if frames == [] then 0
    else
      var f := Last(frames);
      Rest(g, Front(frames), what) + if f.next > |f.kids| then 0 else CostAll(g, f.kids[f.next..], Left(|frames|), what)
  }

  datatype Phase = Before | Within(frames: seq<Frame>) | Over

  ghost predicate Finished(g: Heap, root: Value, clones: seq<Clone>, snapshot: Option<Cell>) {
    && Unfold(g, root, Left(0)).Some? && snapshot.Some?
    && Represents(clones, snapshot.value, Unfold(g, root, Left(0)).value, 0, |clones|)
  }

  ghost predicate Inv(g: Heap, root: Value, phase: Phase, work: seq<Work>, clones: seq<Clone>, snapshot: Option<Cell>,
                      ancestors: set<Id>) {
    match phase
    case Before => work == [Visit(root, None, 0)] && clones == [] && ancestors == {}
    case Within(frames) =>
      && frames != [] && work == Stack(frames) && ancestors == Ids(frames) && DistinctIds(frames)
      && Inside(g, root, clones, snapshot, frames)
    case Over => work == [] && Finished(g, root, clones, snapshot)
  }

  /** What has been counted and what is still on the stack add up to `total`. */
  ghost predicate Counts(g: Heap, phase: Phase, counted: nat, total: nat, what: Measure) {
    match phase
    case Before => counted == 0
    case Within(frames) => counted + Rest(g, frames, what) == total
    case Over => counted == total
  }

  /** The item to visit is the next one: the root, or the next child of the innermost open object. */
  ghost predicate Current(g: Heap, root: Value, phase: Phase, item: Work) {
    match phase
    case Before => item == Visit(root, None, 0)
    case Within(frames) =>
      && frames != [] && Last(frames).next < |Last(frames).kids|
      && (var f := Last(frames);
          item == Visit(f.kids[f.next].value, Some(Place(f.clone, f.next, f.kids[f.next].name)), |frames|))
    case Over => false
  }

  // ---------------------------------------------------------------- rejecting

  /** If an object on the path has no tree then neither has the root. */
  lemma {:induction false} PathNone(g: Heap, root: Value, clones: seq<Clone>, snapshot: Option<Cell>,
                                    frames: seq<Frame>, id: Id, clone: nat)
    requires Path(g, root, clones, snapshot, frames, id, clone)
    requires Unfold(g, Ref(id), Left(|frames|)).None?
    ensures Unfold(g, root, Left(0)).None?
    decreases |frames|
  {
    if frames != [] {
      var f := Last(frames);
      UnfoldAllEach(g, f.kids, Left(|frames|));
      PathNone(g, root, clones, snapshot, Front(frames), f.id, f.clone);
    }
  }

  lemma {:induction false} CurrentNone(g: Heap, root: Value, phase: Phase, item: Work, clones: seq<Clone>,
                                       snapshot: Option<Cell>)
    requires Current(g, root, phase, item) && (phase.Within? ==> Inside(g, root, clones, snapshot, phase.frames))
    requires Unfold(g, item.value, Left(item.depth)).None?
    ensures !Accepts(g, root)
  {
    if phase.Within? {
      var f := Last(phase.frames);
      UnfoldAllEach(g, f.kids, Left(|phase.frames|));
      PathNone(g, root, clones, snapshot, Front(phase.frames), f.id, f.clone);
    }
  }

  /** Along the path trees get smaller. */
  lemma {:induction false} PathSmaller(g: Heap, root: Value, clones: seq<Clone>, snapshot: Option<Cell>,
                                       frames: seq<Frame>, id: Id, clone: nat, ancestor: Id) returns (left: int)
    requires Path(g, root, clones, snapshot, frames, id, clone) && ancestor in Ids(frames)
    requires Unfold(g, Ref(id), Left(|frames|)).Some? && Unfold(g, root, Left(0)).Some?
    ensures left > Left(|frames|) && Unfold(g, Ref(ancestor), left).Some?
    ensures TreeNodes(Unfold(g, Ref(id), Left(|frames|)).value) < TreeNodes(Unfold(g, Ref(ancestor), left).value)
    decreases |frames|
  {
    var f := Last(frames);
    if Unfold(g, Ref(f.id), Left(|frames| - 1)).None? {
      PathNone(g, root, clones, snapshot, Front(frames), f.id, f.clone);
    }
    ChildIsSmaller(g, f.id, Left(|frames| - 1), f.next - 1);
    if f.id == ancestor {
      left := Left(|frames| - 1);
    } else {
      left := PathSmaller(g, root, clones, snapshot, Front(frames), f.id, f.clone, ancestor);
    }
  }

  /** The next child of the innermost object is smaller than every object on the path. */
  lemma {:induction false} NextIsSmaller(g: Heap, root: Value, frames: seq<Frame>, clones: seq<Clone>,
                                         snapshot: Option<Cell>, a: Id) returns (left: int)
    requires frames != [] && Inside(g, root, clones, snapshot, frames) && Last(frames).next < |Last(frames).kids|
             && a in Ids(frames)
    requires Unfold(g, root, Left(0)).Some?
    ensures left > Left(|frames|) && Unfold(g, Ref(a), left).Some?
    ensures var kid := Last(frames).kids[Last(frames).next].value;
            && Unfold(g, kid, Left(|frames|)).Some?
            && TreeNodes(Unfold(g, kid, Left(|frames|)).value) < TreeNodes(Unfold(g, Ref(a), left).value)
  {
    var f := Last(frames);
    left := Left(|frames| - 1);
    if Unfold(g, Ref(f.id), left).None? {
      PathNone(g, root, clones, snapshot, Front(frames), f.id, f.clone);
    }
    ChildIsSmaller(g, f.id, left, f.next);
    if a != f.id {
      left := PathSmaller(g, root, clones, snapshot, Front(frames), f.id, f.clone, a);
    }
  }

  /** Meeting an ancestor again proves that the root has no tree of any size: `circular JSON` is not a limit of its
      own. */
  lemma {:induction false} CycleNone(g: Heap, root: Value, frames: seq<Frame>, clones: seq<Clone>,
                                     snapshot: Option<Cell>, a: Id)
    requires frames != [] && Inside(g, root, clones, snapshot, frames)
    requires Last(frames).next < |Last(frames).kids| && Last(frames).kids[Last(frames).next].value == Ref(a)
             && a in Ids(frames)
    ensures !Accepts(g, root)
  {
    if Unfold(g, root, Left(0)).Some? {
      var left := NextIsSmaller(g, root, frames, clones, snapshot, a);
      UnfoldMonotone(g, Ref(a), Left(|frames|), left);
      assert false;
    }
  }

  // ---------------------------------------------------------------- advancing

  /** After the current item has been visited as a leaf or as an object that is about to be opened. */
  function NextPhase(phase: Phase): Phase {
    if phase.Within? && phase.frames != [] then Within(Advanced(phase.frames)) else Over
  }

  function OpenPhase(phase: Phase, f: Frame): Phase {
    if phase.Within? && phase.frames != [] then Within(Advanced(phase.frames) + [f]) else Within([f])
  }

  function ClosedPhase(frames: seq<Frame>): Phase
    requires frames != []
  {
    if |frames| == 1 then Over else Within(Front(frames))
  }

  /** The path does not look at clones from `clone` on. */
  lemma {:induction false} PathStable(g: Heap, root: Value, clones: seq<Clone>, later: seq<Clone>,
                                      snapshot: Option<Cell>, frames: seq<Frame>, id: Id, clone: nat)
    requires Path(g, root, clones, snapshot, frames, id, clone)
    requires clone <= |clones| <= |later| && forall i :: 0 <= i < clone ==> later[i] == clones[i]
    ensures Path(g, root, later, snapshot, frames, id, clone)
    decreases |frames|
  {
    if frames != [] {
      var f := Last(frames);
      DoneStable(g, clones, later, f, f, |frames|, f.next - 1, clone, clone);
      PathStable(g, root, clones, later, snapshot, Front(frames), f.id, f.clone);
    }
  }

  /** Finished children stay finished when their clones stay and their cells stay. */
  lemma {:induction false} DoneStable(g: Heap, clones: seq<Clone>, later: seq<Clone>, f: Frame, f': Frame, depth: nat,
                                      n: nat, hi: nat, hi': nat)
    requires Done(g, clones, f, depth, n, hi) && f' == f.(next := f'.next) && f.clone < |clones|
    requires hi <= |clones| && hi <= hi' <= |later| && forall i :: f.clone < i < hi ==> later[i] == clones[i]
    requires f.clone < |later| && forall i :: 0 <= i < n ==> CellAt(later[f.clone], i) == CellAt(clones[f.clone], i)
    ensures Done(g, later, f', depth, n, hi')
  {
    forall i | 0 <= i < n
      ensures KidDone(g, later, f', depth, i, hi')
    {
      assert KidDone(g, clones, f, depth, i, hi);
      RepresentsStable(clones, later, CellAt(clones[f.clone], i).value, Unfold(g, f.kids[i].value, Left(depth)).value,
                       f.clone + 1, hi, f.clone + 1, hi');
    }
  }

  lemma {:induction false} StoredShape(c: Clone, list: bool, kids: seq<Child>, n: nat, cell: Cell)
    requires n < |kids| && Shaped(c, list, kids, n)
    ensures Shaped(Stored(c, n, kids[n].name, cell), list, kids, n + 1)
    ensures CellAt(Stored(c, n, kids[n].name, cell), n) == Some(cell)
    ensures forall i :: 0 <= i < n ==> CellAt(Stored(c, n, kids[n].name, cell), i) == CellAt(c, i)
  {
  }

  /** Storing the current child in its clone keeps everything finished so far. */
  lemma {:induction false} StoreKid(g: Heap, root: Value, clones: seq<Clone>, snapshot: Option<Cell>,
                                    frames: seq<Frame>, cell: Cell, extra: seq<Clone>)
    requires frames != [] && Inside(g, root, clones, snapshot, frames) && Last(frames).next < |Last(frames).kids|
    ensures var f := Last(frames);
            var later := Assigned(clones, Some(Place(f.clone, f.next, f.kids[f.next].name)), cell) + extra;
            && Opened(g, later, f.(next := f.next + 1))
            && CellAt(later[f.clone], f.next) == Some(cell)
            && Done(g, later, f.(next := f.next + 1), |frames|, f.next, |clones|)
            && Path(g, root, later, snapshot, Front(frames), f.id, f.clone)
  {
    var f := Last(frames);
    var later := Assigned(clones, Some(Place(f.clone, f.next, f.kids[f.next].name)), cell) + extra;
    StoredShape(clones[f.clone], f.list, f.kids, f.next, cell);
    DoneStable(g, clones, later, f, f.(next := f.next + 1), |frames|, f.next, |clones|, |clones|);
    PathStable(g, root, clones, later, snapshot, Front(frames), f.id, f.clone);
  }

  lemma {:induction false} AdvancedFrames(frames: seq<Frame>)
    requires frames != [] && DistinctIds(frames)
    ensures Front(Advanced(frames)) == Front(frames) && |Advanced(frames)| == |frames|
    ensures Ids(Advanced(frames)) == Ids(frames) && DistinctIds(Advanced(frames))
  {
  }

  /** The clones after the current child has been stored. */
  function AfterStore(clones: seq<Clone>, f: Frame, cell: Cell): seq<Clone>
    requires f.next < |f.kids|
  {
    Assigned(clones, Some(Place(f.clone, f.next, f.kids[f.next].name)), cell)
  }

  lemma {:induction false} DoneExtends(g: Heap, clones: seq<Clone>, f: Frame, depth: nat, n: nat, low: nat, hi: nat)
    requires Done(g, clones, f, depth, n, low) && low <= hi <= |clones| && KidDone(g, clones, f, depth, n, hi)
    ensures Done(g, clones, f, depth, n + 1, hi)
  {
    if f.clone < |clones| {
      forall i | 0 <= i < n
        ensures KidDone(g, clones, f, depth, i, hi)
      {
        assert KidDone(g, clones, f, depth, i, low);
        RepresentsStable(clones, clones, CellAt(clones[f.clone], i).value,
                         Unfold(g, f.kids[i].value, Left(depth)).value,
                         f.clone + 1, low, f.clone + 1, hi);
      }
    }
  }

  lemma {:induction false} LeafDone(g: Heap, clones: seq<Clone>, f: Frame, depth: nat, i: nat, p: Primitive)
    requires f.clone < |clones| && i < |f.kids| && f.kids[i].value == Plain(p) && depth <= MAX_SERIALIZATION_DEPTH
    requires CellAt(clones[f.clone], i) == Some(Prim(p))
    ensures KidDone(g, clones, f, depth, i, |clones|)
  {
  }

  lemma {:induction false} LeafInside(g: Heap, root: Value, clones: seq<Clone>, snapshot: Option<Cell>,
                                      frames: seq<Frame>, p: Primitive)
    requires frames != [] && Inside(g, root, clones, snapshot, frames)
    requires Last(frames).next < |Last(frames).kids| && Last(frames).kids[Last(frames).next].value == Plain(p)
    requires |frames| <= MAX_SERIALIZATION_DEPTH
    ensures Inside(g, root, AfterStore(clones, Last(frames), Prim(p)), snapshot, Advanced(frames))
  {
    var f := Last(frames);
    var later := AfterStore(clones, f, Prim(p));
    StoreKid(g, root, clones, snapshot, frames, Prim(p), []);
    assert later + [] == later;
    var f' := f.(next := f.next + 1);
    LastOf(Front(frames), f');
    LeafDone(g, later, f', |frames|, f.next, p);
    DoneExtends(g, later, f', |frames|, f.next, |clones|, |later|);
  }

  lemma {:induction false} VisitLeaf(g: Heap, root: Value, phase: Phase, item: Work, work: seq<Work>,
                                     clones: seq<Clone>, snapshot: Option<Cell>, ancestors: set<Id>)
    requires Inv(g, root, phase, work + [item], clones, snapshot, ancestors) && Current(g, root, phase, item)
    requires item.value.Plain? && item.depth <= MAX_SERIALIZATION_DEPTH
    ensures var cell := Prim(item.value.p);
            Inv(g, root, NextPhase(phase), work, Assigned(clones, item.place, cell),
                if item.place.None? then Some(cell) else snapshot, ancestors)
  {
    LastOf(work, item);
    if phase.Within? {
      TopOfStack(phase.frames);
      AdvancedFrames(phase.frames);
      LeafInside(g, root, clones, snapshot, phase.frames, item.value.p);
    }
  }

  lemma {:induction false} OpenedPath(g: Heap, root: Value, frames: seq<Frame>, clones: seq<Clone>,
                                      snapshot: Option<Cell>, id: Id, extra: seq<Clone>)
    requires frames != [] && Inside(g, root, clones, snapshot, frames)
    requires Last(frames).next < |Last(frames).kids| && Last(frames).kids[Last(frames).next].value == Ref(id)
    ensures Path(g, root, AfterStore(clones, Last(frames), At(|clones|)) + extra, snapshot, Advanced(frames), id,
                 |clones|)
  {
    StoreKid(g, root, clones, snapshot, frames, At(|clones|), extra);
    assert Front(Advanced(frames)) == Front(frames);
    assert Last(Advanced(frames)) == Last(frames).(next := Last(frames).next + 1);
  }

  lemma {:induction false} OpenedInside(g: Heap, root: Value, frames: seq<Frame>, clones: seq<Clone>,
                                        snapshot: Option<Cell>, id: Id, kids: seq<Child>)
    requires frames != [] && Inside(g, root, clones, snapshot, frames) && |frames| <= MAX_SERIALIZATION_DEPTH
    requires Last(frames).next < |Last(frames).kids| && Last(frames).kids[Last(frames).next].value == Ref(id)
    requires Children(g(id)) == Some(kids)
    ensures var n, list := |clones|, g(id).ArrayNode?;
            Inside(g, root, AfterStore(clones, Last(frames), At(n)) + [NewClone(list, |kids|)],
                   snapshot, Advanced(frames) + [Frame(n, id, list, kids, 0)])
  {
    var n, list := |clones|, g(id).ArrayNode?;
    var later := AfterStore(clones, Last(frames), At(n)) + [NewClone(list, |kids|)];
    OpenedPath(g, root, frames, clones, snapshot, id, [NewClone(list, |kids|)]);
    LastOf(Advanced(frames), Frame(n, id, list, kids, 0));
    assert later[n] == NewClone(list, |kids|);
  }

  lemma {:induction false} OpenedStack(frames: seq<Frame>, inner: Frame)
    requires frames != [] && DistinctIds(frames) && inner.id !in Ids(frames)
    ensures var stack := Advanced(frames) + [inner];
            && Stack(stack)
               == Stack(Advanced(frames)) + [Exit(inner.id)] + Pushed(inner.clone, inner.kids, inner.next, |frames| + 1)
            && Ids(stack) == Ids(frames) + {inner.id} && DistinctIds(stack)
  {
    AdvancedFrames(frames);
    assert Front(Advanced(frames) + [inner]) == Advanced(frames);
  }

  lemma {:induction false} VisitObject(g: Heap, root: Value, phase: Phase, item: Work, work: seq<Work>,
                                       clones: seq<Clone>, snapshot: Option<Cell>, ancestors: set<Id>, kids: seq<Child>)
    requires Inv(g, root, phase, work + [item], clones, snapshot, ancestors) && Current(g, root, phase, item)
    requires item.value.Ref? && item.depth <= MAX_SERIALIZATION_DEPTH && item.value.id !in ancestors
    requires Children(g(item.value.id)) == Some(kids)
    ensures var id, n := item.value.id, |clones|;
            var list := g(id).ArrayNode?;
            var f := Frame(n, id, list, kids, 0);
            Inv(g, root, OpenPhase(phase, f), work + [Exit(id)] + Pushed(n, kids, 0, item.depth + 1),
                Assigned(clones, item.place, At(n)) + [NewClone(list, |kids|)],
                if item.place.None? then Some(At(n)) else snapshot, ancestors + {id})
  {
    var id, n := item.value.id, |clones|;
    var inner := Frame(n, id, g(id).ArrayNode?, kids, 0);
    assert Front(work + [item]) == work;
    if phase.Within? {
      TopOfStack(phase.frames);
      OpenedInside(g, root, phase.frames, clones, snapshot, id, kids);
      OpenedStack(phase.frames, inner);
    } else {
      assert Front([inner]) == [];
      assert Stack([inner]) == [Exit(id)] + Pushed(n, kids, 0, 1);
    }
  }

  lemma {:induction false} ElementsAreNameless(g: Heap, f: Frame)
    requires Children(g(f.id)) == Some(f.kids)
    ensures g(f.id).ArrayNode? ==> forall i :: 0 <= i < |f.kids| ==> f.kids[i].name == []
  {
    if g(f.id).ArrayNode? {
      forall i | 0 <= i < |f.kids|
        ensures f.kids[i].name == []
      {
        ElementAt(g(f.id).slots, i);
      }
    }
  }

  /** All children of the innermost object are finished: so is the object. */
  lemma {:induction false} ObjectDone(g: Heap, clones: seq<Clone>, f: Frame, depth: nat, lo: nat)
    requires Opened(g, clones, f) && f.next == |f.kids| && Done(g, clones, f, depth + 1, f.next, |clones|)
             && lo <= f.clone
    requires depth <= MAX_SERIALIZATION_DEPTH
    ensures Unfold(g, Ref(f.id), Left(depth)).Some?
    ensures Represents(clones, At(f.clone), Unfold(g, Ref(f.id), Left(depth)).value, lo, |clones|)
  {
    forall i | 0 <= i < |f.kids|
      ensures Unfold(g, f.kids[i].value, Left(depth + 1)).Some?
    {
      assert KidDone(g, clones, f, depth + 1, i, |clones|);
    }
    UnfoldAllEach(g, f.kids, Left(depth + 1));
    var members := UnfoldAll(g, f.kids, Left(depth + 1)).value;
    ElementsAreNameless(g, f);
    forall i | 0 <= i < |members|
      ensures RepresentsMember(clones, CellAt(clones[f.clone], i), members[i].value, f.clone + 1, |clones|)
    {
      assert KidDone(g, clones, f, depth + 1, i, |clones|);
    }
  }

  lemma {:induction false} LeaveObject(g: Heap, root: Value, frames: seq<Frame>, item: Work, work: seq<Work>,
                                       clones: seq<Clone>, snapshot: Option<Cell>, ancestors: set<Id>)
    requires Inv(g, root, Within(frames), work + [item], clones, snapshot, ancestors) && item.Exit?
    ensures Inv(g, root, ClosedPhase(frames), work, clones, snapshot, ancestors - {item.id})
    ensures Last(frames).next == |Last(frames).kids|
  {
    var f := Last(frames);
    var depth := |frames| - 1;
    TopOfStack(frames);
    assert Front(work + [item]) == work;
    if depth == 0 {
      ObjectDone(g, clones, f, depth, 0);
    } else {
      var outer := Front(frames);
      var p := Last(outer);
      ObjectDone(g, clones, f, depth, p.clone + 1);
      DoneStable(g, clones, clones, p, p, depth, p.next - 1, f.clone, |clones|);
      assert KidDone(g, clones, p, depth, p.next - 1, |clones|);
      assert Done(g, clones, p, depth, p.next, |clones|);
    }
  }

  // ---------------------------------------------------------------- counting

  lemma {:induction false} PoppedRest(g: Heap, frames: seq<Frame>, what: Measure)
    requires frames != [] && Last(frames).next < |Last(frames).kids|
    ensures Rest(g, frames, what)
            == Rest(g, Advanced(frames), what)
            + CostOf(g, Last(frames).kids[Last(frames).next].value, Left(|frames|), what)
  {
    var f := Last(frames);
    assert Front(Advanced(frames)) == Front(frames);
    assert f.kids[f.next..][1..] == f.kids[f.next + 1..];
  }

  lemma {:induction false} PushedRest(g: Heap, frames: seq<Frame>, f: Frame, what: Measure)
    requires f.next == 0
    ensures Rest(g, frames + [f], what) == Rest(g, frames, what) + CostAll(g, f.kids, Left(|frames| + 1), what)
  {
    assert Front(frames + [f]) == frames;
    assert f.kids[0..] == f.kids;
  }

  lemma {:induction false} DoneRest(g: Heap, frames: seq<Frame>, what: Measure)
    requires frames != [] && Last(frames).next == |Last(frames).kids|
    ensures Rest(g, frames, what) == Rest(g, Front(frames), what)
  {
    assert Last(frames).kids[Last(frames).next..] == [];
  }

  lemma {:induction false} VisitLeafCounts(g: Heap, root: Value, phase: Phase, item: Work, counted: nat, total: nat,
                                           what: Measure)
    requires Counts(g, phase, counted, total, what) && Current(g, root, phase, item)
    requires item.value.Plain? && item.depth <= MAX_SERIALIZATION_DEPTH
    requires phase.Before? ==> total == CostOf(g, item.value, Left(item.depth), what)
    ensures Counts(g, NextPhase(phase), counted + LeafCost(item.value, what), total, what)
  {
    if phase.Within? {
      PoppedRest(g, phase.frames, what);
    }
  }

  lemma {:induction false} CostOfObject(g: Heap, id: Id, depth: nat, kids: seq<Child>, what: Measure)
    requires Children(g(id)) == Some(kids) && depth <= MAX_SERIALIZATION_DEPTH
    ensures CostOf(g, Ref(id), Left(depth), what) == OwnCost(g(id), what) + CostAll(g, kids, Left(depth + 1), what)
  {
  }

  lemma {:induction false} OpenBeforeCounts(g: Heap, none: seq<Frame>, id: Id, f: Frame, what: Measure)
    requires |none| == 0 && Children(g(id)) == Some(f.kids) && f.next == 0
    ensures OwnCost(g(id), what) + Rest(g, none + [f], what) == CostOf(g, Ref(id), Left(|none|), what)
  {
    CostOfObject(g, id, |none|, f.kids, what);
    PushedRest(g, none, f, what);
  }

  lemma {:induction false} OpenRootCounts(g: Heap, id: Id, depth: nat, f: Frame, what: Measure)
    requires depth == 0 && Children(g(id)) == Some(f.kids) && f.next == 0
    ensures OwnCost(g(id), what) + Rest(g, [f], what) == CostOf(g, Ref(id), Left(depth), what)
  {
    var none: seq<Frame> := seq(depth, _ => f);
    OpenBeforeCounts(g, none, id, f, what);
    assert none + [f] == [f];
  }

  lemma {:induction false} OpenWithinCounts(g: Heap, frames: seq<Frame>, id: Id, f: Frame, what: Measure)
    requires frames != [] && Last(frames).next < |Last(frames).kids|
             && Last(frames).kids[Last(frames).next].value == Ref(id)
    requires |frames| <= MAX_SERIALIZATION_DEPTH && Children(g(id)) == Some(f.kids) && f.next == 0
    ensures OwnCost(g(id), what) + Rest(g, Advanced(frames) + [f], what) == Rest(g, frames, what)
  {
    PoppedRest(g, frames, what);
    CostOfObject(g, id, |frames|, f.kids, what);
    PushedRest(g, Advanced(frames), f, what);
  }

  lemma {:induction false} VisitObjectCounts(g: Heap, root: Value, phase: Phase, item: Work, counted: nat, total: nat,
                                             f: Frame, what: Measure)
    requires Counts(g, phase, counted, total, what) && Current(g, root, phase, item)
    requires item.value.Ref? && item.depth <= MAX_SERIALIZATION_DEPTH && Children(g(item.value.id)) == Some(f.kids)
             && f.next == 0
    requires phase.Before? ==> total == CostOf(g, item.value, Left(item.depth), what)
    ensures Counts(g, OpenPhase(phase, f), counted + OwnCost(g(item.value.id), what), total, what)
  {
    if phase.Within? {
      OpenWithinCounts(g, phase.frames, item.value.id, f, what);
    } else {
      OpenRootCounts(g, item.value.id, item.depth, f, what);
    }
  }

  lemma {:induction false} LeaveObjectCounts(g: Heap, frames: seq<Frame>, counted: nat, total: nat, what: Measure)
    requires frames != [] && Counts(g, Within(frames), counted, total, what) && Last(frames).next == |Last(frames).kids|
    ensures Counts(g, ClosedPhase(frames), counted, total, what)
  {
    DoneRest(g, frames, what);
    assert |frames| == 1 ==> Front(frames) == [];
  }
}
