/** `preflightJson` and `serializeJson` of apps/server/src/secure-json-file.ts: an explicit-stack traversal of an
    arbitrary object graph, possibly cyclic, that clones the graph, counts its text and enforces limits.  It agrees
    exactly with unfolding the graph into a tree by recursion. */
module JsonPreflight {
  import opened Collections
  import opened JsonText

  const MAX_SERIALIZATION_DEPTH := 256
  const MAX_SERIALIZATION_KEYS := 100000
  const MAX_SERIALIZATION_NODES := 100000

  type Id = nat

  /** Foreign values are undefined, functions, symbols and big integers. */
  datatype Value = Plain(p: Primitive) | NotFinite | Foreign | Ref(id: Id)

  /** `value` is None for an accessor. */
  datatype Slot = Missing | Element(enumerable: bool, value: Option<Value>)
  datatype Property = Property(symbol: bool, name: seq<Unit>, enumerable: bool, value: Option<Value>)

  /** The extras of an array are its own properties other than its elements and its length. */
  datatype Node =
    | ArrayNode(slots: seq<Slot>, extras: seq<Property>)
    | ObjectNode(plain: bool, properties: seq<Property>)

  /** Any graph, cycles and sharing included. */
  type Heap = Id -> Node

  datatype Child = Child(name: seq<Unit>, value: Value)

  // ---------------------------------------------------------------- what a container offers

  function PresentSlots(slots: seq<Slot>): nat {
    if slots == [] then 0 else (if slots[0].Missing? then 0 else 1) + PresentSlots(slots[1..])
  }

  /** The length of `Reflect.ownKeys`; an array owns its length. */
  function OwnKeys(n: Node): nat {
    match n
    case ArrayNode(slots, extras) => PresentSlots(slots) + 1 + |extras|
    case ObjectNode(_, properties) => |properties|
  }

  predicate IsData(s: Slot) {
    s.Element? && s.enumerable && s.value.Some?
  }

  predicate AllData(slots: seq<Slot>) {
    forall i :: 0 <= i < |slots| ==> IsData(slots[i])
  }

  function EnumerableSlots(slots: seq<Slot>): (r: nat)
    ensures r <= |slots|
  {
    if slots == [] then 0 else (if slots[0].Element? && slots[0].enumerable then 1 else 0) + EnumerableSlots(slots[1..])
  }

  function EnumerableProperties(ps: seq<Property>): nat {
    if ps == [] then 0 else (if ps[0].enumerable then 1 else 0) + EnumerableProperties(ps[1..])
  }

  predicate EnumerableSymbol(ps: seq<Property>) {
    exists i :: 0 <= i < |ps| && ps[i].symbol && ps[i].enumerable
  }

  function ElementKids(slots: seq<Slot>): (r: seq<Child>)
    requires AllData(slots)
    ensures |r| == |slots|
  {
    if slots == [] then [] else [Child([], slots[0].value.value)] + ElementKids(slots[1..])
  }

  lemma {:induction false} ElementAt(slots: seq<Slot>, i: nat)
    requires AllData(slots) && i < |slots|
    ensures ElementKids(slots)[i] == Child([], slots[i].value.value)
  {
    if i > 0 {
      ElementAt(slots[1..], i - 1);
    }
  }

  function Entries(ps: seq<Property>): Option<seq<Child>> {
    if ps == [] then Some([])
    else if !ps[0].enumerable then Entries(ps[1..])
    else if ps[0].symbol || ps[0].value.None? then None
    else
      var rest := Entries(ps[1..]);
      if rest.None? then None else Some([Child(ps[0].name, ps[0].value.value)] + rest.value)
  }

  function Children(n: Node): Option<seq<Child>> {
    match n
    case ArrayNode(slots, extras) =>
      if |slots| <= MAX_SERIALIZATION_NODES && !EnumerableSymbol(extras)
         && EnumerableSlots(slots) + EnumerableProperties(extras) == |slots| && AllData(slots)
      then Some(ElementKids(slots)) else None
    case ObjectNode(plain, properties) => if plain then Entries(properties) else None
  }

  lemma {:induction false} AllDataAreEnumerable(slots: seq<Slot>)
    ensures AllData(slots) ==> EnumerableSlots(slots) == |slots|
  {
    if slots != [] {
      AllDataAreEnumerable(slots[1..]);
    }
  }

  lemma {:induction false} NoneEnumerable(ps: seq<Property>)
    ensures EnumerableProperties(ps) == 0 <==> forall i :: 0 <= i < |ps| ==> !ps[i].enumerable
  {
    if ps != [] {
      NoneEnumerable(ps[1..]);
      if EnumerableProperties(ps) == 0 {
        assert forall i :: 0 < i < |ps| ==> ps[i] == ps[1..][i - 1];
      }
    }
  }

  /** The count of enumerable keys accepts exactly the dense arrays of plain data with nothing else to enumerate. */
  lemma {:induction false} ArrayIsAcceptedIffDense(slots: seq<Slot>, extras: seq<Property>)
    ensures Children(ArrayNode(slots, extras)).Some?
            <==> |slots| <= MAX_SERIALIZATION_NODES && AllData(slots)
                 && forall i :: 0 <= i < |extras| ==> !extras[i].enumerable
  {
    AllDataAreEnumerable(slots);
    NoneEnumerable(extras);
  }

  // ---------------------------------------------------------------- the recursive specification

  /** The tree below a value, if it is plain JSON no more than `left` levels deep. */
  function Unfold(g: Heap, v: Value, left: int): Option<Json>
    decreases if left < 0 then 0 else left + 1, 0, v
  {
    if left < 0 then None
    else match v
      case Plain(p) => Some(Leaf(p))
      case NotFinite => None
      case Foreign => None
      case Ref(id) =>
        if Children(g(id)).None? then None
        else
          var members := UnfoldAll(g, Children(g(id)).value, left - 1);
          if members.None? then None else Some(Branch(g(id).ArrayNode?, members.value))
  }

  function UnfoldAll(g: Heap, kids: seq<Child>, left: int): Option<seq<Member>>
    decreases if left < 0 then 0 else left + 1, |kids|
  {
    if kids == [] then Some([])
    else
      var first, rest := Unfold(g, kids[0].value, left), UnfoldAll(g, kids[1..], left);
      if first.None? || rest.None? then None else Some([Member(kids[0].name, first.value)] + rest.value)
  }

  /** What the traversal counts. */
  datatype Measure = Nodes | Keys | Bytes

  function NameBytes(kids: seq<Child>): nat {
    if kids == [] then 0 else QuotedBytes(kids[0].name) + 1 + NameBytes(kids[1..])
  }

  function BranchBytes(n: Node): nat {
    var kids := Children(n);
    if kids.None? then 0 else 2 + Commas(|kids.value|) + if n.ArrayNode? then 0 else NameBytes(kids.value)
  }

  /** What a container adds on its own. */
  function OwnCost(n: Node, what: Measure): nat {
    match what
    case Nodes => 1
    case Keys => OwnKeys(n)
    case Bytes => BranchBytes(n)
  }

  function LeafCost(v: Value, what: Measure): nat {
    match what
    case Nodes => 1
    case Keys => 0
    case Bytes => if v.Plain? then PrimitiveBytes(v.p) else 0
  }

  /** The nodes, own keys or bytes of everything down to `left` levels below. */
  function CostOf(g: Heap, v: Value, left: int, what: Measure): nat
    decreases if left < 0 then 0 else left + 1, 0, v
  {
    if left < 0 then 0
    else if v.Ref? then
      OwnCost(g(v.id), what)
      + if Children(g(v.id)).None? then 0 else CostAll(g, Children(g(v.id)).value, left - 1, what)
    else LeafCost(v, what)
  }

  function CostAll(g: Heap, kids: seq<Child>, left: int, what: Measure): nat
    decreases if left < 0 then 0 else left + 1, |kids|
  {
    if kids == [] then 0 else CostOf(g, kids[0].value, left, what) + CostAll(g, kids[1..], left, what)
  }

  function Limit(what: Measure): nat {
    match what
    case Nodes => MAX_SERIALIZATION_NODES
    case Keys => MAX_SERIALIZATION_KEYS
    case Bytes => MAX_SECURE_JSON_BYTES
  }

  /** What the traversal is to accept. */
  ghost predicate Accepts(g: Heap, root: Value) {
    && Unfold(g, root, MAX_SERIALIZATION_DEPTH).Some?
    && forall what :: CostOf(g, root, MAX_SERIALIZATION_DEPTH, what) <= Limit(what)
  }

  lemma {:induction false} UnfoldAllEach(g: Heap, kids: seq<Child>, left: int)
    ensures UnfoldAll(g, kids, left).Some? <==> forall i :: 0 <= i < |kids| ==> Unfold(g, kids[i].value, left).Some?
    ensures UnfoldAll(g, kids, left).Some? ==>
              var ms := UnfoldAll(g, kids, left).value;
              |ms| == |kids| && forall i :: 0 <= i < |kids| ==>
                ms[i] == Member(kids[i].name, Unfold(g, kids[i].value, left).value)
    decreases |kids|
  {
    if kids != [] {
      UnfoldAllEach(g, kids[1..], left);
      forall i | 0 < i < |kids|
        ensures kids[i] == kids[1..][i - 1]
      {
      }
    }
  }

  /** A tree that fits into fewer levels is the same tree with more of them. */
  lemma {:induction false} UnfoldMonotone(g: Heap, v: Value, left: int, more: int)
    requires left <= more && Unfold(g, v, left).Some?
    ensures Unfold(g, v, more) == Unfold(g, v, left)
    decreases if left < 0 then 0 else left + 1, 0
  {
    if v.Ref? {
      UnfoldAllMonotone(g, Children(g(v.id)).value, left - 1, more - 1);
    }
  }

  lemma {:induction false} UnfoldAllMonotone(g: Heap, kids: seq<Child>, left: int, more: int)
    requires left <= more && UnfoldAll(g, kids, left).Some?
    ensures UnfoldAll(g, kids, more) == UnfoldAll(g, kids, left)
    decreases if left < 0 then 0 else left + 1, |kids|
  {
    if kids != [] {
      UnfoldMonotone(g, kids[0].value, left, more);
      UnfoldAllMonotone(g, kids[1..], left, more);
    }
  }

  /** The counted cost of an unfolded value is the size of its tree and the length of its encoded text. */
  lemma {:induction false} CostIsTreeSize(g: Heap, v: Value, left: int)
    requires Unfold(g, v, left).Some?
    ensures CostOf(g, v, left, Nodes) == TreeNodes(Unfold(g, v, left).value)
    ensures CostOf(g, v, left, Bytes) == TreeBytes(Unfold(g, v, left).value)
    decreases if left < 0 then 0 else left + 1, 0
  {
    if v.Ref? {
      var kids := Children(g(v.id)).value;
      UnfoldAllEach(g, kids, left - 1);
      CostIsTreeSizeAll(g, kids, left - 1);
      if g(v.id).ArrayNode? {
        ListBytes(g, kids, left - 1);
      } else {
        RecordBytes(g, kids, left - 1);
      }
    }
  }

  function ValueBytes(members: seq<Member>): nat {
    if members == [] then 0 else TreeBytes(members[0].value) + ValueBytes(members[1..])
  }

  lemma {:induction false} CostIsTreeSizeAll(g: Heap, kids: seq<Child>, left: int)
    requires UnfoldAll(g, kids, left).Some?
    ensures CostAll(g, kids, left, Nodes) == MemberNodes(UnfoldAll(g, kids, left).value)
    ensures CostAll(g, kids, left, Bytes) == ValueBytes(UnfoldAll(g, kids, left).value)
    decreases if left < 0 then 0 else left + 1, |kids|
  {
    if kids != [] {
      CostIsTreeSize(g, kids[0].value, left);
      CostIsTreeSizeAll(g, kids[1..], left);
    }
  }

  lemma {:induction false} ListBytes(g: Heap, kids: seq<Child>, left: int)
    requires UnfoldAll(g, kids, left).Some?
    ensures MemberBytes(true, UnfoldAll(g, kids, left).value) == ValueBytes(UnfoldAll(g, kids, left).value)
    decreases |kids|
  {
    if kids != [] {
      ListBytes(g, kids[1..], left);
    }
  }

  lemma {:induction false} RecordBytes(g: Heap, kids: seq<Child>, left: int)
    requires UnfoldAll(g, kids, left).Some?
    ensures MemberBytes(false, UnfoldAll(g, kids, left).value)
            == NameBytes(kids) + ValueBytes(UnfoldAll(g, kids, left).value)
    decreases |kids|
  {
    if kids != [] {
      RecordBytes(g, kids[1..], left);
    }
  }

  /** A value below a container is a smaller tree. */
  lemma {:induction false} ChildIsSmaller(g: Heap, id: Id, left: int, i: nat)
    requires Unfold(g, Ref(id), left).Some? && Children(g(id)).Some? && i < |Children(g(id)).value|
    ensures Unfold(g, Children(g(id)).value[i].value, left - 1).Some?
    ensures TreeNodes(Unfold(g, Children(g(id)).value[i].value, left - 1).value)
            < TreeNodes(Unfold(g, Ref(id), left).value)
  {
    UnfoldAllEach(g, Children(g(id)).value, left - 1);
    MemberIsSmaller(UnfoldAll(g, Children(g(id)).value, left - 1).value, i);
  }

  lemma {:induction false} MemberIsSmaller(members: seq<Member>, i: nat)
    requires i < |members|
    ensures TreeNodes(members[i].value) <= MemberNodes(members)
  {
    if i > 0 {
      MemberIsSmaller(members[1..], i - 1);
    }
  }
}
