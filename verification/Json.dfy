/** JSON-like values as Go holds them: scalars, lists, and maps that live on the
    heap. A Tree describes such a value; the `loc` of a map node says which heap
    object it is (use `()` when locations do not matter). */
module Json {

  datatype Tree<L> =
    | Scalar(text: string)
    | List(items: seq<Tree<L>>)
    | Object(loc: L, kids: map<string, Tree<L>>)

  datatype Value =
    | VScalar(text: string)
    | VList(elements: seq<Value>)
    | VMap(node: Node)

  /** A Go map[string]interface{}. */
  class Node {
    var entries: map<string, Value>

    constructor ()
      ensures entries == map[]
    {
      entries := map[];
    }
  }

  /** The value a tree describes, maps by reference. */
  ghost function ValueOf(t: Tree<Node>): Value {
    match t
    case Scalar(s) => VScalar(s)
    case List(items) => VList(seq(|items|, i requires 0 <= i < |items| => ValueOf(items[i])))
    case Object(n, _) => VMap(n)
  }

  ghost function EntriesOf(kids: map<string, Tree<Node>>): map<string, Value> {
    map k | k in kids :: ValueOf(kids[k])
  }

  /** The heap objects of a tree. */
  ghost function Locs(t: Tree<Node>): set<Node> {
    match t
    case Scalar(_) => {}
    case List(items) => set i, n | 0 <= i < |items| && n in Locs(items[i]) :: n
    case Object(l, kids) => {l} + set k, n | k in kids && n in Locs(kids[k]) :: n
  }

  /** The heap holds exactly what the tree says. */
  ghost predicate Matches(t: Tree<Node>)
    reads Locs(t)
  {
    match t
    case Scalar(_) => true
    case List(items) => forall i :: 0 <= i < |items| ==> Matches(items[i])
    case Object(l, kids) => l.entries == EntriesOf(kids) && forall k :: k in kids ==> Matches(kids[k])
  }

  /** No heap object occurs twice: the value is a tree, as decoded JSON is. */
  ghost predicate Separate(t: Tree<Node>) {
    match t
    case Scalar(_) => true
    case List(items) =>
      && (forall i :: 0 <= i < |items| ==> Separate(items[i]))
      && (forall i, j :: 0 <= i < j < |items| ==> Locs(items[i]) !! Locs(items[j]))
    case Object(l, kids) =>
      && (forall k :: k in kids ==> Separate(kids[k]) && l !in Locs(kids[k]))
      && (forall j, k :: j in kids && k in kids && j != k ==> Locs(kids[j]) !! Locs(kids[k]))
  }

  lemma {:induction false} LocsAreAllocated(t: Tree<Node>)
    ensures forall n :: n in Locs(t) ==> allocated(n)
  {
    match t
    case Scalar(_) =>
    case List(items) =>
      forall i | 0 <= i < |items| ensures forall n :: n in Locs(items[i]) ==> allocated(n) {
        LocsAreAllocated(items[i]);
      }
    case Object(l, kids) =>
      forall k | k in kids ensures forall n :: n in Locs(kids[k]) ==> allocated(n) {
        LocsAreAllocated(kids[k]);
      }
  }

  twostate lemma {:induction false} LocsWereAllocated(t: Tree<Node>)
    ensures forall n :: n in Locs(t) ==> old(allocated(n))
  {
    match t
    case Scalar(_) =>
    case List(items) =>
      forall i | 0 <= i < |items| ensures forall n :: n in Locs(items[i]) ==> old(allocated(n)) {
        LocsWereAllocated(items[i]);
      }
    case Object(l, kids) =>
      forall k | k in kids ensures forall n :: n in Locs(kids[k]) ==> old(allocated(n)) {
        LocsWereAllocated(kids[k]);
      }
  }

  /** A tree none of whose nodes was written still matches. */
  twostate lemma {:induction false} Unwritten(t: Tree<Node>)
    requires old(Matches(t)) && forall n: Node :: n in Locs(t) && old(allocated(n)) ==> n.entries == old(n.entries)
    ensures Matches(t)
  {
    LocsWereAllocated(t);
    match t
    case Scalar(_) =>
    case List(items) =>
      forall i | 0 <= i < |items| ensures Matches(items[i]) {
        assert Locs(items[i]) <= Locs(t);
        Unwritten(items[i]);
      }
    case Object(l, kids) =>
      assert l in Locs(t);
      forall k | k in kids ensures Matches(kids[k]) {
        assert Locs(kids[k]) <= Locs(t);
        Unwritten(kids[k]);
      }
  }

  ghost function LocsOfAll(kids: map<string, Tree<Node>>): set<Node> {
    set k, n | k in kids && n in Locs(kids[k]) :: n
  }

  /** The same for several trees. */
  twostate lemma KidsUnwritten(kids: map<string, Tree<Node>>)
    requires forall k :: k in kids ==> old(Matches(kids[k]))
    requires forall n: Node :: n in LocsOfAll(kids) && old(allocated(n)) ==> n.entries == old(n.entries)
    ensures forall k :: k in kids ==> Matches(kids[k])
  {
    forall k | k in kids ensures Matches(kids[k]) {
      assert Locs(kids[k]) <= LocsOfAll(kids);
      Unwritten(kids[k]);
    }
  }

  /** Node `n` holds exactly these entries, and each is as described. */
  ghost predicate HoldsKids(n: Node, kids: map<string, Tree<Node>>)
    reads n, LocsOfAll(kids)
  {
    n.entries == EntriesOf(kids) && forall k :: k in kids ==> Matches(kids[k])
  }

  ghost function LocsOfItems(items: seq<Tree<Node>>): set<Node> {
    set i, n | 0 <= i < |items| && n in Locs(items[i]) :: n
  }

  ghost predicate HoldsItems(items: seq<Tree<Node>>)
    reads LocsOfItems(items)
  {
    forall i :: 0 <= i < |items| ==> Matches(items[i])
  }

  twostate lemma ItemsUnwritten(items: seq<Tree<Node>>)
    requires old(HoldsItems(items))
    requires forall n: Node :: n in LocsOfItems(items) && old(allocated(n)) ==> n.entries == old(n.entries)
    ensures HoldsItems(items)
  {
    forall i | 0 <= i < |items| ensures Matches(items[i]) {
      assert Locs(items[i]) <= LocsOfItems(items);
      Unwritten(items[i]);
    }
  }

  lemma KidIsSeparate(n: Node, kids: map<string, Tree<Node>>, k: string)
    requires k in kids && Separate(Object(n, kids))
    ensures Separate(kids[k]) && n !in LocsOfAll(kids) && Locs(kids[k]) !! LocsOfAll(kids - {k})
    ensures Locs(kids[k]) <= LocsOfAll(kids) && Locs(Object(n, kids)) == {n} + LocsOfAll(kids)
  {
  }

  /** An entry updated behind its reference keeps the map's own entries. */
  lemma HoldsReplaced(n: Node, kids: map<string, Tree<Node>>, k: string, t: Tree<Node>)
    requires n.entries == EntriesOf(kids) && k in kids && ValueOf(t) == ValueOf(kids[k]) && Matches(t)
    requires forall j :: j in kids - {k} ==> Matches(kids[j])
    ensures HoldsKids(n, kids[k := t])
  {
    var after := kids[k := t];
    forall j | j in after ensures Matches(after[j]) {
      if j != k { assert j in kids - {k}; }
    }
    assert EntriesOf(after) == EntriesOf(kids);
  }

  lemma LocsOfAllShrink(a: map<string, Tree<Node>>, b: map<string, Tree<Node>>)
    requires a.Keys <= b.Keys && forall k :: k in a ==> Locs(a[k]) <= Locs(b[k])
    ensures LocsOfAll(a) <= LocsOfAll(b)
  {
  }
}
