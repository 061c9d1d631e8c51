/**
 Object graphs as `lib/serializer.js` meets them, the JSON trees it turns them into, and what it
 means for two graphs to be the same up to the identity of their objects.

 A heap maps references to cells.  A cell is an object or an array; its slots are its own
 enumerable properties in enumeration order.  An array may have holes and named properties, so its
 length is not the number of its slots.
 */
module ObjectGraph {
  import opened Decimals

  /** `Lit` is null, a boolean or a finite number, carried as its JSON text. */
  datatype Value = Undefined | Lit(text: string) | Str(s: string) | Ref(r: nat)

  datatype Slot = Slot(key: string, val: Value)

  datatype Kind = Object | Array(length: nat)

  datatype Cell = Cell(kind: Kind, slots: seq<Slot>)

  type Heap = map<nat, Cell>

  /** A JSON text, as the tree it denotes. */
  datatype Json = JLit(text: string) | JStr(s: string) | JNode(isArray: bool, slots: seq<JSlot>)

  datatype JSlot = JSlot(key: string, val: Json)

  const CIRCULAR := "CIRCULAR-"
  const ID_COUNT := "idCount"
  const PROTO := "__proto__"
  const HAS_OWN := "hasOwnProperty"

  predicate IsCircular(s: string) {
    CIRCULAR <= s
  }

  predicate NoIds(slots: seq<Slot>) {
    forall i :: 0 <= i < |slots| ==> slots[i].key != ID_COUNT
  }

  predicate HasKey(slots: seq<Slot>, key: string) {
    exists i :: 0 <= i < |slots| && slots[i].key == key
  }

  predicate IsObjectRef(h: Heap, x: Value) {
    x.Ref? && x.r in h && h[x.r].kind.Object?
  }

  /** Neither holes nor properties besides the elements: the keys are exactly the indices, in order. */
  predicate IsPlainArray(c: Cell) {
    c.kind == Array(|c.slots|) && forall i :: 0 <= i < |c.slots| ==> c.slots[i].key == Decimal(i)
  }

  // ----- reachability

  predicate Edge(h: Heap, a: nat, b: nat) {
    a in h && exists i :: 0 <= i < |h[a].slots| && h[a].slots[i].val == Ref(b)
  }

  ghost predicate IsPath(h: Heap, p: seq<nat>) {
    |p| > 0 && forall i :: 0 <= i < |p| - 1 ==> Edge(h, p[i], p[i + 1])
  }

  ghost predicate Reachable(h: Heap, root: nat, r: nat) {
    exists p :: IsPath(h, p) && p[0] == root && p[|p| - 1] == r
  }

  lemma {:induction false} ReachableRoot(h: Heap, root: nat)
    ensures Reachable(h, root, root)
  {
    var p := [root];
    assert IsPath(h, p) && p[0] == root && p[|p| - 1] == root;
  }

  lemma {:induction false} ReachableStep(h: Heap, root: nat, a: nat, b: nat)
    requires Reachable(h, root, a) && Edge(h, a, b)
    ensures Reachable(h, root, b)
  {
    var p :| IsPath(h, p) && p[0] == root && p[|p| - 1] == a;
    var q := p + [b];
    assert IsPath(h, q) && q[0] == root && q[|q| - 1] == b;
  }

  /** What a call of `serialize` may start from: in reach of the root there is no dangling reference, no property
      under the name that the serializer keeps for itself, and none whose assignment would set a prototype. */
  ghost predicate WellFormed(h: Heap, root: nat) {
    root in h && forall r :: Reachable(h, root, r) ==> r in h && WellFormedSlots(h, h[r].slots)
  }

  predicate WellFormedSlots(h: Heap, slots: seq<Slot>) {
    && NoIds(slots)
    && !HasKey(slots, PROTO)
    && forall i :: 0 <= i < |slots| && slots[i].val.Ref? ==> slots[i].val.r in h
  }

  ghost predicate EdgeClosed(h: Heap, s: set<nat>) {
    forall a, b :: a in s && Edge(h, a, b) ==> b in s
  }

  /** A set that holds the root and is closed under edges holds everything reachable. */
  lemma {:induction false} ReachableWithin(h: Heap, root: nat, r: nat, s: set<nat>)
    requires Reachable(h, root, r) && root in s && EdgeClosed(h, s)
    ensures r in s
  {
    var p :| IsPath(h, p) && p[0] == root && p[|p| - 1] == r;
    PathWithin(h, p, s, |p| - 1);
  }

  lemma {:induction false} PathWithin(h: Heap, p: seq<nat>, s: set<nat>, k: nat)
    requires IsPath(h, p) && p[0] in s && EdgeClosed(h, s) && k < |p|
    ensures p[k] in s
  {
    if k > 0 {
      PathWithin(h, p, s, k - 1);
      assert Edge(h, p[k - 1], p[k]);
    }
  }

  /** A heap without a bad cell anywhere is well formed from wherever one starts. */
  lemma {:induction false} WellFormedThroughout(h: Heap, root: nat)
    requires root in h && forall r :: r in h ==> WellFormedSlots(h, h[r].slots)
    ensures WellFormed(h, root)
  {
    forall r | Reachable(h, root, r)
      ensures r in h
    {
      assert EdgeClosed(h, h.Keys);
      ReachableWithin(h, root, r, h.Keys);
    }
  }

  // ----- sameness of graphs

  ghost predicate SameValue(rel: set<(nat, nat)>, v: Value, w: Value) {
    match v
    case Ref(a) => w.Ref? && (a, w.r) in rel
    case _ => v == w
  }

  ghost predicate SameCell(rel: set<(nat, nat)>, a: Cell, b: Cell) {
    && a.kind == b.kind
    && |a.slots| == |b.slots|
    && forall i :: 0 <= i < |a.slots| ==>
      a.slots[i].key == b.slots[i].key && SameValue(rel, a.slots[i].val, b.slots[i].val)
  }

  /** `rel` pairs the two roots, relates only cells of the same kind whose slots have the same keys
      in the same order and related values, and is one-to-one on objects.  So it keeps every field,
      the order of fields and of array elements, the sharing of objects and every cycle.  Arrays
      are compared by content: an array held by two fields may come back as two arrays. */
  ghost predicate IsIsomorphism(rel: set<(nat, nat)>, h: Heap, root: nat, h': Heap, root': nat) {
    && (root, root') in rel
    && (forall p :: p in rel ==> p.0 in h && p.1 in h' && SameCell(rel, h[p.0], h'[p.1]))
    && (forall p, q :: p in rel && q in rel && h[p.0].kind.Object? && h[q.0].kind.Object? ==>
      (p.0 == q.0 <==> p.1 == q.1))
  }

  ghost predicate Isomorphic(h: Heap, root: nat, h': Heap, root': nat) {
    exists rel :: IsIsomorphism(rel, h, root, h', root')
  }
}
