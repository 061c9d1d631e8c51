/**
 What `deserialize` makes of what `serialize` wrote, for every heap the serializer accepts.

 The two recursions are different: one numbers objects as it first meets them in a graph, the other
 numbers tree nodes as it rewrites them.  The lemmas of this module run both side by side and show
 that the `k`-th value cached by `serialize` comes back as the `k`-th node of the tree, in an object
 whose slots correspond, and that every back reference finds its object already in the cache.
 */
module SerializerSimulation {
  import opened Decimals
  import opened ObjectGraph
  import opened Serialize
  import opened Deserialize

  // ----- the nodes that carry an id, in preorder

  function NodeRefs(t: Json, lo: nat): (items: seq<nat>) {
    match t
    case JNode(isArray, slots) => (if isArray then [] else [lo]) + SlotRefs(slots, lo + 1)
    case _ => []
  }

  function SlotRefs(slots: seq<JSlot>, lo: nat): (items: seq<nat>) {
    if slots == [] then []
    else NodeRefs(slots[0].val, lo) + SlotRefs(slots[1..], lo + Count(slots[0].val))
  }

  ghost predicate Increasing(b: seq<nat>, lo: nat, n: nat) {
    && (forall i :: 0 <= i < |b| ==> lo <= b[i] < lo + n)
    && (forall i, j :: 0 <= i < j < |b| ==> b[i] < b[j])
  }

  lemma {:induction false} NodeRefsIncreasing(t: Json, lo: nat)
    ensures Increasing(NodeRefs(t, lo), lo, Count(t))
    decreases t
  {
    if t.JNode? { SlotRefsIncreasing(t.slots, lo + 1); }
  }

  lemma {:induction false} SlotRefsIncreasing(slots: seq<JSlot>, lo: nat)
    ensures Increasing(SlotRefs(slots, lo), lo, CountSlots(slots))
    decreases slots
  {
    if slots != [] {
      NodeRefsIncreasing(slots[0].val, lo);
      SlotRefsIncreasing(slots[1..], lo + Count(slots[0].val));
    }
  }

  // ----- correspondence of a source graph with a rebuilt one, through caches `c` and `b`

  /** `v` refers to the object rebuilt for the cached value `x`. */
  ghost predicate Linked(c: seq<Value>, b: seq<nat>, x: Value, v: Value) {
    exists j :: 0 <= j < |c| && j < |b| && c[j] == x && v == Ref(b[j])
  }

  ghost predicate MatchArray(h: Heap, r: nat, cells: Heap, v: Value, c: seq<Value>, b: seq<nat>)
    requires r in h && h[r].kind.Array?
    decreases 2
  {
    && v.Ref? && v.r in cells && cells[v.r].kind == h[r].kind
    && MatchSlots(h, Elements(h[r]), cells[v.r].slots, true, cells, c, b)
  }

  /** A field after the round trip.  A string that looks like a back reference is never kept. */
  ghost predicate MatchValue(h: Heap, x: Value, v: Value, elems: bool, cells: Heap, c: seq<Value>, b: seq<nat>)
    decreases if elems then 0 else 3
  {
    if elems then Linked(c, b, x, v)
    else match x
      case Str(s) => if IsCircular(s) then !v.Str? else v == x
      case Ref(r) => r in h && if h[r].kind.Array? then MatchArray(h, r, cells, v, c, b) else Linked(c, b, x, v)
      case _ => v == x
  }

  ghost predicate MatchSlots(h: Heap, slots: seq<Slot>, ss: seq<Slot>, elems: bool,
                             cells: Heap, c: seq<Value>, b: seq<nat>)
    decreases if elems then 1 else 4
  {
    && |slots| == |ss|
    && forall i :: 0 <= i < |slots| ==>
      ss[i].key == slots[i].key && MatchValue(h, slots[i].val, ss[i].val, elems, cells, c, b)
  }

  ghost predicate MatchObject(h: Heap, x: Value, q: nat, cells: Heap, c: seq<Value>, b: seq<nat>) {
    && (x.Ref? ==> x.r in h)
    && q in cells && cells[q].kind.Object?
    && MatchSlots(h, Entries(h, x), cells[q].slots, false, cells, c, b)
  }

  lemma {:induction false} LinkedMonotone(c: seq<Value>, b: seq<nat>, c': seq<Value>, b': seq<nat>, x: Value, v: Value)
    requires Linked(c, b, x, v) && c <= c' && b <= b'
    ensures Linked(c', b', x, v)
  {
    var j :| 0 <= j < |c| && j < |b| && c[j] == x && v == Ref(b[j]);
    assert c'[j] == x && v == Ref(b'[j]);
  }

  lemma {:induction false} MatchElementsMonotone(h: Heap, slots: seq<Slot>, ss: seq<Slot>, cells: Heap,
      c: seq<Value>, b: seq<nat>, cells': Heap, c': seq<Value>, b': seq<nat>)
    requires MatchSlots(h, slots, ss, true, cells, c, b) && c <= c' && b <= b'
    ensures MatchSlots(h, slots, ss, true, cells', c', b')
  {
    forall i | 0 <= i < |slots|
      ensures MatchValue(h, slots[i].val, ss[i].val, true, cells', c', b')
    {
      LinkedMonotone(c, b, c', b', slots[i].val, ss[i].val);
    }
  }

  lemma {:induction false} MatchValueMonotone(h: Heap, x: Value, v: Value, elems: bool, cells: Heap, c: seq<Value>,
      b: seq<nat>, cells': Heap, c': seq<Value>, b': seq<nat>)
    requires MatchValue(h, x, v, elems, cells, c, b) && c <= c' && b <= b' && Holds(cells', cells)
    ensures MatchValue(h, x, v, elems, cells', c', b')
  {
    if elems {
      LinkedMonotone(c, b, c', b', x, v);
    } else if x.Ref? && x.r in h {
      if h[x.r].kind.Array? {
        MatchElementsMonotone(h, Elements(h[x.r]), cells[v.r].slots, cells, c, b, cells', c', b');
      } else {
        LinkedMonotone(c, b, c', b', x, v);
      }
    }
  }

  lemma {:induction false} MatchSlotsMonotone(h: Heap, slots: seq<Slot>, ss: seq<Slot>, elems: bool, cells: Heap,
      c: seq<Value>, b: seq<nat>, cells': Heap, c': seq<Value>, b': seq<nat>)
    requires MatchSlots(h, slots, ss, elems, cells, c, b) && c <= c' && b <= b' && Holds(cells', cells)
    ensures MatchSlots(h, slots, ss, elems, cells', c', b')
  {
    forall i | 0 <= i < |slots|
      ensures MatchValue(h, slots[i].val, ss[i].val, elems, cells', c', b')
    {
      MatchValueMonotone(h, slots[i].val, ss[i].val, elems, cells, c, b, cells', c', b');
    }
  }

  /** The values cached from position `from` on have been rebuilt in `cells`. */
  ghost predicate Rebuilt(h: Heap, from: nat, cells: Heap, c: seq<Value>, b: seq<nat>) {
    |b| == |c| && forall k :: from <= k < |c| ==> MatchObject(h, c[k], b[k], cells, c, b)
  }

  lemma {:induction false} RebuiltMonotone(h: Heap, from: nat, cells: Heap, c: seq<Value>, b: seq<nat>, cells': Heap,
      c': seq<Value>, b': seq<nat>, k: nat)
    requires Rebuilt(h, from, cells, c, b) && c <= c' && b <= b' && Holds(cells', cells)
    requires from <= k < |c|
    ensures MatchObject(h, c'[k], b'[k], cells', c', b')
  {
    assert c'[k] == c[k] && b'[k] == b[k];
    assert MatchObject(h, c[k], b[k], cells, c, b);
    MatchSlotsMonotone(h, Entries(h, c[k]), cells[b[k]].slots, false, cells, c, b, cells', c', b');
  }

  /** The cache of `deserialize` holds, under each id given out so far, the object rebuilt for it. */
  ghost predicate Agree(dc: Cache, b: seq<nat>) {
    forall k {:trigger b[k]} :: 0 <= k < |b| ==> Decimal(k) in dc && dc[Decimal(k)] == b[k]
  }

  lemma {:induction false} AgreePush(dc: Cache, b: seq<nat>, q: nat)
    requires Agree(dc, b)
    ensures Agree(dc[Decimal(|b|) := q], b + [q])
  {
    var dc', b' := dc[Decimal(|b|) := q], b + [q];
    forall k | 0 <= k < |b'|
      ensures Decimal(k) in dc' && dc'[Decimal(k)] == b'[k]
    {
      if k < |b| {
        assert b'[k] == b[k];
        if Decimal(k) == Decimal(|b|) { DecimalInjective(k, |b|); }
      }
    }
  }

  /** A node without an id is cached under a key that is no number, and disturbs nothing. */
  lemma {:induction false} AgreeUndefined(dc: Cache, b: seq<nat>, q: nat)
    requires Agree(dc, b)
    ensures Agree(dc["undefined" := q], b)
  {
    forall k | 0 <= k < |b|
      ensures Decimal(k) in dc && dc["undefined" := q][Decimal(k)] == b[k]
    {
      var q' := b[k];
      assert !IsDigit("undefined"[0]);
    }
  }

  lemma {:induction false} ResolveBackReference(dc: Cache, b: seq<nat>, k: nat)
    requires Agree(dc, b) && k < |b|
    ensures Resolve(CIRCULAR + Decimal(k), dc) == Ref(b[k])
  {
    assert (CIRCULAR + Decimal(k))[|CIRCULAR|..] == Decimal(k);
  }

  lemma {:induction false} SerSlotsPrimitive(h: Heap, u: set<Value>, slots: seq<Slot>, elems: bool, c: seq<Value>)
    requires Closed(h, u) && SlotsLead(h, u, slots, elems) && NoIds(slots)
    ensures PrimitiveIdSlots(SerSlots(h, u, slots, elems, c).0)
    decreases Uncached(u, c), if elems then 0 else 1, |slots|, 2
  {
    if slots != [] {
      var (_, c1) := SerValue(h, u, slots[0].val, elems, c);
      UncachedMonotone(u, c, c1);
      SerValuePrimitive(h, u, slots[0].val, elems, c);
      SerSlotsPrimitive(h, u, slots[1..], elems, c1);
    }
  }

  lemma {:induction false} SerValuePrimitive(h: Heap, u: set<Value>, x: Value, elems: bool, c: seq<Value>)
    requires Closed(h, u) && Leads(h, u, x, elems)
    ensures PrimitiveIds(SerValue(h, u, x, elems, c).0)
    decreases Uncached(u, c), if elems then 0 else 1, 0, 1
  {
    if !elems && !x.Ref? {
    } else if !elems && h[x.r].kind.Array? {
      SerSlotsPrimitive(h, u, Elements(h[x.r]), true, c);
    } else {
      SerCachedPrimitive(h, u, x, c);
    }
  }

  lemma {:induction false} SerCachedPrimitive(h: Heap, u: set<Value>, x: Value, c: seq<Value>)
    requires Closed(h, u) && x in u
    ensures PrimitiveIds(SerCached(h, u, x, c).0)
    decreases Uncached(u, c), 0, 0, 0
  {
    if x !in c {
      UncachedPush(u, c, x);
      SerSlotsPrimitive(h, u, Entries(h, x), false, c + [x]);
      var (ts, c1) := SerSlots(h, u, Entries(h, x), false, c + [x]);
      assert ([JSlot(ID_COUNT, JLit(Decimal(|c|)))] + ts)[1..] == ts;
    }
  }

  // ----- the simulation

  lemma {:induction false} InflateCons(s: JSlot, rest: seq<JSlot>, lo: nat, dc: Cache)
    requires s.key != ID_COUNT
    ensures var (v, cells, dc1) := InflateValue(s.val, lo, dc);
      var (ss, cells2, dc2) := InflateSlots(rest, lo + Count(s.val), dc1);
      InflateSlots([s] + rest, lo, dc) == ([Slot(s.key, v)] + ss, cells + cells2, dc2)
  {
    assert ([s] + rest)[0] == s && ([s] + rest)[1..] == rest;
  }

  lemma {:induction false} RefsCons(s: JSlot, rest: seq<JSlot>, lo: nat, b: seq<nat>)
    ensures b + SlotRefs([s] + rest, lo) == (b + NodeRefs(s.val, lo)) + SlotRefs(rest, lo + Count(s.val))
  {
    assert ([s] + rest)[0] == s && ([s] + rest)[1..] == rest;
  }

  /** Two neighbouring parts of a tree, rebuilt into disjoint cells. */
  lemma {:induction false} Join(h: Heap, slots: seq<Slot>, elems: bool, from: nat, v: Value, cells1: Heap,
      c1: seq<Value>, b1: seq<nat>, ss: seq<Slot>, cells2: Heap, c2: seq<Value>, b2: seq<nat>)
    requires slots != [] && c1 <= c2 && b1 <= b2 && cells1.Keys !! cells2.Keys
    requires Rebuilt(h, from, cells1, c1, b1) && MatchValue(h, slots[0].val, v, elems, cells1, c1, b1)
    requires Rebuilt(h, |c1|, cells2, c2, b2) && MatchSlots(h, slots[1..], ss, elems, cells2, c2, b2)
    ensures Rebuilt(h, from, cells1 + cells2, c2, b2)
    ensures MatchSlots(h, slots, [Slot(slots[0].key, v)] + ss, elems, cells1 + cells2, c2, b2)
  {
    var cells := cells1 + cells2;
    forall k | from <= k < |c2|
      ensures MatchObject(h, c2[k], b2[k], cells, c2, b2)
    {
      if k < |c1| {
        RebuiltMonotone(h, from, cells1, c1, b1, cells, c2, b2, k);
      } else {
        RebuiltMonotone(h, |c1|, cells2, c2, b2, cells, c2, b2, k);
      }
    }
    MatchValueMonotone(h, slots[0].val, v, elems, cells1, c1, b1, cells, c2, b2);
    MatchSlotsMonotone(h, slots[1..], ss, elems, cells2, c2, b2, cells, c2, b2);
    forall i | 0 <= i < |slots|
      ensures var w := ([Slot(slots[0].key, v)] + ss)[i];
        w.key == slots[i].key && MatchValue(h, slots[i].val, w.val, elems, cells, c2, b2)
    {
      if i > 0 { assert slots[i] == slots[1..][i - 1]; }
    }
  }

  /** The cells below a node, once the node itself is added. */
  lemma {:induction false} Wrap(h: Heap, slots: seq<Slot>, ss: seq<Slot>, elems: bool, from: nat, cells: Heap,
      c: seq<Value>, b: seq<nat>, lo: nat, cell: Cell)
    requires lo !in cells && Rebuilt(h, from, cells, c, b) && MatchSlots(h, slots, ss, elems, cells, c, b)
    ensures Rebuilt(h, from, cells[lo := cell], c, b)
    ensures MatchSlots(h, slots, ss, elems, cells[lo := cell], c, b)
  {
    var cells' := cells[lo := cell];
    forall k | from <= k < |c|
      ensures MatchObject(h, c[k], b[k], cells', c, b)
    {
      RebuiltMonotone(h, from, cells, c, b, cells', c, b, k);
    }
    MatchSlotsMonotone(h, slots, ss, elems, cells, c, b, cells', c, b);
  }

  /** What an array of the source has become. */
  lemma {:induction false} WrapArray(h: Heap, r: nat, ss: seq<Slot>, from: nat, cells: Heap, c: seq<Value>,
      b: seq<nat>, lo: nat)
    requires r in h && h[r].kind.Array? && lo !in cells && Rebuilt(h, from, cells, c, b)
    requires MatchSlots(h, Elements(h[r]), ss, true, cells, c, b)
    ensures var cells' := cells[lo := Cell(h[r].kind, ss)];
      Rebuilt(h, from, cells', c, b) && MatchArray(h, r, cells', Ref(lo), c, b)
  {
    Wrap(h, Elements(h[r]), ss, true, from, cells, c, b, lo, Cell(h[r].kind, ss));
  }

  /** What a value has become at its first visit. */
  lemma {:induction false} WrapObject(h: Heap, x: Value, ss: seq<Slot>, k: nat, cells: Heap, c: seq<Value>,
      b: seq<nat>, lo: nat)
    requires (x.Ref? ==> x.r in h) && lo !in cells && k < |c| && Rebuilt(h, k + 1, cells, c, b)
    requires c[k] == x && b[k] == lo && MatchSlots(h, Entries(h, x), ss, false, cells, c, b)
    ensures Rebuilt(h, k, cells[lo := Cell(Object, ss)], c, b) && Linked(c, b, x, Ref(lo))
  {
    Wrap(h, Entries(h, x), ss, false, k + 1, cells, c, b, lo, Cell(Object, ss));
  }

  lemma {:induction false} SerSlotsKeys(h: Heap, u: set<Value>, slots: seq<Slot>, elems: bool, c: seq<Value>)
    requires Closed(h, u) && SlotsLead(h, u, slots, elems)
    ensures forall i :: 0 <= i < |slots| ==> SerSlots(h, u, slots, elems, c).0[i].key == slots[i].key
    decreases |slots|
  {
    if slots != [] {
      var (_, c1) := SerValue(h, u, slots[0].val, elems, c);
      SerSlotsKeys(h, u, slots[1..], elems, c1);
    }
  }

  lemma {:induction false} NoIdKey(ts: seq<JSlot>)
    requires forall i :: 0 <= i < |ts| ==> ts[i].key != ID_COUNT
    ensures CacheKey(ts) == "undefined"
  {
    if ts != [] { NoIdKey(ts[1..]); }
  }

  ghost predicate SimSlots(h: Heap, slots: seq<Slot>, elems: bool, from: nat, ts: seq<JSlot>, c: seq<Value>,
                           lo: nat, b: seq<nat>, dc: Cache) {
    var (ss, cells, dc') := InflateSlots(ts, lo, dc);
    GoodSlots(h, slots, ss, elems, from, cells, c, b + SlotRefs(ts, lo), dc')
  }

  ghost predicate GoodSlots(h: Heap, slots: seq<Slot>, ss: seq<Slot>, elems: bool, from: nat, cells: Heap,
                            c: seq<Value>, b: seq<nat>, dc: Cache) {
    Rebuilt(h, from, cells, c, b) && Agree(dc, b) && MatchSlots(h, slots, ss, elems, cells, c, b)
  }

  ghost predicate SimValue(h: Heap, x: Value, elems: bool, from: nat, t: Json, c: seq<Value>,
                           lo: nat, b: seq<nat>, dc: Cache) {
    var (v, cells, dc') := InflateValue(t, lo, dc);
    var b' := b + NodeRefs(t, lo);
    && Rebuilt(h, from, cells, c, b') && Agree(dc', b')
    && MatchValue(h, x, v, elems, cells, c, b')
  }

  lemma {:induction false} SimulateCons(h: Heap, slots: seq<Slot>, elems: bool, from: nat, t: Json, c1: seq<Value>,
      ts: seq<JSlot>, c2: seq<Value>, lo: nat, b: seq<nat>, dc: Cache)
    requires slots != [] && slots[0].key != ID_COUNT && PrimitiveIds(t) && PrimitiveIdSlots(ts) && c1 <= c2
    requires SimValue(h, slots[0].val, elems, from, t, c1, lo, b, dc)
    requires SimSlots(h, slots[1..], elems, |c1|, ts, c2, lo + Count(t), b + NodeRefs(t, lo), InflateValue(t, lo, dc).2)
    ensures SimSlots(h, slots, elems, from, [JSlot(slots[0].key, t)] + ts, c2, lo, b, dc)
  {
    var (v, cells1, dc1) := InflateValue(t, lo, dc);
    var b1, next := b + NodeRefs(t, lo), lo + Count(t);
    var (ss, cells2, dc2) := InflateSlots(ts, next, dc1);
    var all, b2 := [JSlot(slots[0].key, t)] + ts, b1 + SlotRefs(ts, next);
    assert InflateSlots(all, lo, dc) == ([Slot(slots[0].key, v)] + ss, cells1 + cells2, dc2) by {
      InflateCons(JSlot(slots[0].key, t), ts, lo, dc);
    }
    assert b2 == b + SlotRefs(all, lo) && b1 <= b2 by {
      RefsCons(JSlot(slots[0].key, t), ts, lo, b);
    }
    assert cells1.Keys !! cells2.Keys by {
      CellsDisjoint(t, ts, lo, dc);
    }
    assert GoodSlots(h, slots[1..], ss, elems, |c1|, cells2, c2, b2, dc2);
    assert Rebuilt(h, from, cells1, c1, b1) && MatchValue(h, slots[0].val, v, elems, cells1, c1, b1);
    Join(h, slots, elems, from, v, cells1, c1, b1, ss, cells2, c2, b2);
    SimulatedAs(h, slots, elems, from, all, c2, lo, b, dc,
                [Slot(slots[0].key, v)] + ss, cells1 + cells2, b2, dc2);
  }

  lemma {:induction false} SimulatedAs(h: Heap, slots: seq<Slot>, elems: bool, from: nat, ts: seq<JSlot>,
      c: seq<Value>, lo: nat, b: seq<nat>, dc: Cache, ss: seq<Slot>, cells: Heap, b': seq<nat>, dc': Cache)
    requires InflateSlots(ts, lo, dc) == (ss, cells, dc') && b' == b + SlotRefs(ts, lo)
    requires GoodSlots(h, slots, ss, elems, from, cells, c, b', dc')
    ensures SimSlots(h, slots, elems, from, ts, c, lo, b, dc)
  {
  }

  lemma {:induction false} CellsDisjoint(t: Json, ts: seq<JSlot>, lo: nat, dc: Cache)
    requires PrimitiveIds(t) && PrimitiveIdSlots(ts)
    ensures var (_, cells, dc1) := InflateValue(t, lo, dc);
      cells.Keys !! InflateSlots(ts, lo + Count(t), dc1).1.Keys
  {
    InflateValueKeys(t, lo, dc);
    InflateSlotsKeys(ts, lo + Count(t), InflateValue(t, lo, dc).2);
  }

  lemma {:induction false} SimulateArray(h: Heap, r: nat, from: nat, ts: seq<JSlot>, c: seq<Value>, lo: nat,
      b: seq<nat>, dc: Cache)
    requires r in h && h[r].kind.Array? && PrimitiveIdSlots(ts) && |ts| == |Elements(h[r])|
    requires forall i :: 0 <= i < |ts| ==> ts[i].key != ID_COUNT
    requires SimSlots(h, Elements(h[r]), true, from, ts, c, lo + 1, b, dc["undefined" := lo])
    ensures SimValue(h, Ref(r), false, from, JNode(true, ts), c, lo, b, dc)
  {
    NoIdKey(ts);
    var dc0 := dc["undefined" := lo];
    var (ss, cells, dc1) := InflateSlots(ts, lo + 1, dc0);
    InflateSlotsKeys(ts, lo + 1, dc0);
    WrapArray(h, r, ss, from, cells, c, b + SlotRefs(ts, lo + 1), lo);
    assert [] + SlotRefs(ts, lo + 1) == SlotRefs(ts, lo + 1);
    assert InflateValue(JNode(true, ts), lo, dc) == (Ref(lo), cells[lo := Cell(h[r].kind, ss)], dc1);
  }

  /** The `idCount` slot in front of an object: it names the cache entry and leaves no field behind. */
  lemma {:induction false} HeaderSkipped(id: nat, ts: seq<JSlot>, lo: nat, b: seq<nat>, dc: Cache)
    ensures var slots := [JSlot(ID_COUNT, JLit(Decimal(id)))] + ts;
      && CacheKey(slots) == Decimal(id)
      && InflateSlots(slots, lo + 1, dc[Decimal(id) := lo]) == InflateSlots(ts, lo + 1, dc[Decimal(id) := lo])
      && b + NodeRefs(JNode(false, slots), lo) == (b + [lo]) + SlotRefs(ts, lo + 1)
  {
    var slots := [JSlot(ID_COUNT, JLit(Decimal(id)))] + ts;
    assert slots[0] == JSlot(ID_COUNT, JLit(Decimal(id))) && slots[1..] == ts;
    assert NodeRefs(slots[0].val, lo + 1) == [];
    assert SlotRefs(slots, lo + 1) == SlotRefs(ts, lo + 1);
  }

  lemma {:induction false} SimulateFirst(h: Heap, x: Value, c: seq<Value>, ts: seq<JSlot>, c1: seq<Value>, lo: nat,
      b: seq<nat>, dc: Cache)
    requires (x.Ref? ==> x.r in h) && PrimitiveIdSlots(ts) && c + [x] <= c1 && |b| == |c|
    requires SimSlots(h, Entries(h, x), false, |c| + 1, ts, c1, lo + 1, b + [lo], dc[Decimal(|c|) := lo])
    ensures SimValue(h, x, true, |c|, JNode(false, [JSlot(ID_COUNT, JLit(Decimal(|c|)))] + ts), c1, lo, b, dc)
  {
    var dc0 := dc[Decimal(|c|) := lo];
    var (ss, cells, dc1) := InflateSlots(ts, lo + 1, dc0);
    InflateSlotsKeys(ts, lo + 1, dc0);
    HeaderSkipped(|c|, ts, lo, b, dc);
    var b1 := (b + [lo]) + SlotRefs(ts, lo + 1);
    assert c1[|c|] == x && b1[|c|] == lo;
    WrapObject(h, x, ss, |c|, cells, c1, b1, lo);
  }

  lemma {:induction false} SimulateSlots(h: Heap, u: set<Value>, slots: seq<Slot>, elems: bool, c: seq<Value>,
      lo: nat, b: seq<nat>, dc: Cache)
    requires Closed(h, u) && SlotsLead(h, u, slots, elems) && NoIds(slots)
    requires |b| == |c| && Agree(dc, b)
    ensures var (ts, c') := SerSlots(h, u, slots, elems, c);
      SimSlots(h, slots, elems, |c|, ts, c', lo, b, dc)
    decreases Uncached(u, c), if elems then 0 else 1, |slots|, 2
  {
    if slots == [] {
      assert b + [] == b;
    } else {
      var x, rest := slots[0].val, slots[1..];
      var (t, c1) := SerValue(h, u, x, elems, c);
      UncachedMonotone(u, c, c1);
      SimulateValue(h, u, x, elems, c, lo, b, dc);
      SimulateSlots(h, u, rest, elems, c1, lo + Count(t), b + NodeRefs(t, lo), InflateValue(t, lo, dc).2);
      SerValuePrimitive(h, u, x, elems, c);
      SerSlotsPrimitive(h, u, rest, elems, c1);
      var (ts, c2) := SerSlots(h, u, rest, elems, c1);
      SimulateCons(h, slots, elems, |c|, t, c1, ts, c2, lo, b, dc);
    }
  }

  lemma {:induction false} SimulateValue(h: Heap, u: set<Value>, x: Value, elems: bool, c: seq<Value>, lo: nat,
      b: seq<nat>, dc: Cache)
    requires Closed(h, u) && Leads(h, u, x, elems)
    requires |b| == |c| && Agree(dc, b)
    ensures var (t, c') := SerValue(h, u, x, elems, c);
      SimValue(h, x, elems, |c|, t, c', lo, b, dc)
    decreases Uncached(u, c), if elems then 0 else 1, 0, 1
  {
    if !elems && !x.Ref? {
      SimulateCopy(h, x, c, lo, b, dc);
    } else if !elems && h[x.r].kind.Array? {
      var slots := Elements(h[x.r]);
      AgreeUndefined(dc, b, lo);
      assert SlotsLead(h, u, slots, true);
      SimulateSlots(h, u, slots, true, c, lo + 1, b, dc["undefined" := lo]);
      ArrayFieldSimulated(h, u, x.r, c, lo, b, dc);
    } else {
      SimulateCached(h, u, x, c, lo, b, dc);
    }
  }

  lemma {:induction false} SimulateCopy(h: Heap, x: Value, c: seq<Value>, lo: nat, b: seq<nat>, dc: Cache)
    requires !x.Ref? && x != Undefined && |b| == |c| && Agree(dc, b)
    ensures SimValue(h, x, false, |c|, Copy(x), c, lo, b, dc)
  {
    assert b + [] == b;
  }

  lemma {:induction false} ArrayFieldSimulated(h: Heap, u: set<Value>, r: nat, c: seq<Value>, lo: nat, b: seq<nat>,
      dc: Cache)
    requires Closed(h, u) && Leads(h, u, Ref(r), false) && h[r].kind.Array?
    requires SlotsLead(h, u, Elements(h[r]), true)
    requires var (ts, c') := SerSlots(h, u, Elements(h[r]), true, c);
      SimSlots(h, Elements(h[r]), true, |c|, ts, c', lo + 1, b, dc["undefined" := lo])
    ensures var (t, c') := SerValue(h, u, Ref(r), false, c);
      SimValue(h, Ref(r), false, |c|, t, c', lo, b, dc)
  {
    var slots := Elements(h[r]);
    SerSlotsPrimitive(h, u, slots, true, c);
    SerSlotsKeys(h, u, slots, true, c);
    var (ts, c1) := SerSlots(h, u, slots, true, c);
    SimulateArray(h, r, |c|, ts, c1, lo, b, dc);
    assert SerValue(h, u, Ref(r), false, c) == (JNode(true, ts), c1);
  }

  lemma {:induction false} SimulateCached(h: Heap, u: set<Value>, x: Value, c: seq<Value>, lo: nat, b: seq<nat>,
      dc: Cache)
    requires Closed(h, u) && x in u
    requires |b| == |c| && Agree(dc, b)
    ensures var (t, c') := SerCached(h, u, x, c);
      SimValue(h, x, true, |c|, t, c', lo, b, dc)
    decreases Uncached(u, c), 0, 0, 0
  {
    if x in c {
      ResolveBackReference(dc, b, IndexOf(c, x));
      assert b + [] == b;
    } else {
      UncachedPush(u, c, x);
      AgreePush(dc, b, lo);
      SimulateSlots(h, u, Entries(h, x), false, c + [x], lo + 1, b + [lo], dc[Decimal(|b|) := lo]);
      FirstVisitSimulated(h, u, x, c, lo, b, dc);
    }
  }

  lemma {:induction false} FirstVisitSimulated(h: Heap, u: set<Value>, x: Value, c: seq<Value>, lo: nat, b: seq<nat>,
      dc: Cache)
    requires Closed(h, u) && x in u && x !in c && |b| == |c|
    requires var (ts, c') := SerSlots(h, u, Entries(h, x), false, c + [x]);
      SimSlots(h, Entries(h, x), false, |c| + 1, ts, c', lo + 1, b + [lo], dc[Decimal(|c|) := lo])
    ensures var (t, c') := SerCached(h, u, x, c);
      SimValue(h, x, true, |c|, t, c', lo, b, dc)
  {
    UncachedPush(u, c, x);
    SerSlotsPrimitive(h, u, Entries(h, x), false, c + [x]);
    var (ts, c1) := SerSlots(h, u, Entries(h, x), false, c + [x]);
    SimulateFirst(h, x, c, ts, c1, lo, b, dc);
  }
}
