/**
 When even the identity of arrays survives lib/serializer.js.

 The cache tests are made for objects and for the elements of arrays, not for the array that a field
 holds: an array held by two fields is written twice and comes back as two arrays.
 */
module ArraySharing {
  import opened Decimals
  import opened ObjectGraph
  import opened Serialize
  import opened Deserialize
  import opened SerializerSimulation
  import opened SerializerRoundTrip

  // ----- texts whose back references are the serializer's own

  ghost predicate TidyString(s: string) {
    IsCircular(s) ==> exists k: nat :: s == CIRCULAR + Decimal(k)
  }

  /** Every string is a field that does not look like a back reference, or a back reference to a number; and arrays
      carry no id. */
  ghost predicate Tidy(t: Json) {
    match t
    case JLit(_) => true
    case JStr(s) => TidyString(s)
    case JNode(isArray, slots) => (isArray ==> CacheKey(slots) == "undefined") && TidySlots(slots)
  }

  ghost predicate TidySlots(slots: seq<JSlot>) {
    slots != [] ==> Tidy(slots[0].val) && TidySlots(slots[1..])
  }

  predicate CleanSlots(slots: seq<Slot>) {
    forall i :: 0 <= i < |slots| && slots[i].val.Str? ==> !IsCircular(slots[i].val.s)
  }

  /** Nothing that is expanded in `u` has a field that looks like a back reference. */
  ghost predicate Clean(h: Heap, u: set<Value>) {
    Closed(h, u) && forall x :: x in u ==> CleanSlots(Entries(h, x))
  }

  lemma {:induction false} SlotsTidy(h: Heap, u: set<Value>, slots: seq<Slot>, elems: bool, c: seq<Value>)
    requires Clean(h, u) && SlotsLead(h, u, slots, elems) && (elems || CleanSlots(slots))
    ensures TidySlots(SerSlots(h, u, slots, elems, c).0)
    decreases Uncached(u, c), if elems then 0 else 1, |slots|, 2
  {
    if slots != [] {
      var (t, c1) := SerValue(h, u, slots[0].val, elems, c);
      UncachedMonotone(u, c, c1);
      ValueTidy(h, u, slots[0].val, elems, c);
      SlotsTidy(h, u, slots[1..], elems, c1);
      var (ts, _) := SerSlots(h, u, slots[1..], elems, c1);
      assert ([JSlot(slots[0].key, t)] + ts)[1..] == ts;
    }
  }

  lemma {:induction false} ValueTidy(h: Heap, u: set<Value>, x: Value, elems: bool, c: seq<Value>)
    requires Clean(h, u) && Leads(h, u, x, elems) && (elems || (x.Str? ==> !IsCircular(x.s)))
    ensures Tidy(SerValue(h, u, x, elems, c).0)
    decreases Uncached(u, c), if elems then 0 else 1, 0, 1
  {
    if !elems && !x.Ref? {
    } else if !elems && h[x.r].kind.Array? {
      SlotsTidy(h, u, Elements(h[x.r]), true, c);
      SerSlotsKeys(h, u, Elements(h[x.r]), true, c);
      NoIdKey(SerSlots(h, u, Elements(h[x.r]), true, c).0);
    } else {
      CachedTidy(h, u, x, c);
    }
  }

  lemma {:induction false} CachedTidy(h: Heap, u: set<Value>, x: Value, c: seq<Value>)
    requires Clean(h, u) && x in u
    ensures Tidy(SerCached(h, u, x, c).0)
    decreases Uncached(u, c), 0, 0, 0
  {
    if x in c {
      assert TidyString(CIRCULAR + Decimal(IndexOf(c, x)));
    } else {
      UncachedPush(u, c, x);
      SlotsTidy(h, u, Entries(h, x), false, c + [x]);
      var (ts, _) := SerSlots(h, u, Entries(h, x), false, c + [x]);
      assert ([JSlot(ID_COUNT, JLit(Decimal(|c|)))] + ts)[1..] == ts;
    }
  }

  lemma {:induction false} SupportedTidy(h: Heap, root: nat)
    requires WellFormed(h, root) && Supported(h, root)
    ensures Tidy(Serialized(h, root).0)
  {
    var u := Cacheable(h, root);
    CacheableClosed(h, root);
    forall x | x in u
      ensures CleanSlots(Entries(h, x))
    {
      SupportedCacheable(h, root, x);
      assert SupportedCell(h, x.r);
      forall i | 0 <= i < |Entries(h, x)| && Entries(h, x)[i].val.Str?
        ensures !IsCircular(Entries(h, x)[i].val.s)
      {
        var j :| 0 <= j < |h[x.r].slots| && h[x.r].slots[j] == Entries(h, x)[i];
        assert SupportedSlot(h, false, h[x.r].slots[j].val);
      }
    }
    CachedTidy(h, u, Ref(root), []);
  }

  // ----- every cell that is no target of back references is held by one slot only

  type Owners = map<nat, (nat, nat)>

  /** For each node below the root of a tree, the cell and the slot that hold it. */
  function NodeOwners(t: Json, lo: nat): (own: Owners)
    ensures forall q :: q in own ==> lo < q < lo + Count(t)
    decreases t, 0
  {
    match t
    case JNode(_, slots) => SlotOwners(slots, lo + 1, lo, 0)
    case _ => map[]
  }

  function SlotOwners(slots: seq<JSlot>, lo: nat, holder: nat, from: nat): (own: Owners)
    ensures forall q :: q in own ==> lo <= q < lo + CountSlots(slots)
    decreases slots, 1
  {
    if slots == [] then map[]
    else if slots[0].key == ID_COUNT then SlotOwners(slots[1..], lo + Count(slots[0].val), holder, from)
    else
      ValueOwners(slots[0].val, lo, holder, from) + SlotOwners(slots[1..], lo + Count(slots[0].val), holder, from + 1)
  }

  function ValueOwners(t: Json, lo: nat, holder: nat, i: nat): (own: Owners)
    ensures forall q :: q in own ==> lo <= q < lo + Count(t)
    decreases t, 1
  {
    if t.JNode? then NodeOwners(t, lo)[lo := (holder, i)] else map[]
  }

  predicate OwnedValue(objs: set<nat>, own: Owners, holder: nat, i: nat, v: Value) {
    v.Ref? && v.r !in objs ==> v.r in own && own[v.r] == (holder, i)
  }

  predicate OwnedSlots(objs: set<nat>, own: Owners, holder: nat, from: nat, ss: seq<Slot>) {
    forall i :: 0 <= i < |ss| ==> OwnedValue(objs, own, holder, from + i, ss[i].val)
  }

  predicate OwnedCells(objs: set<nat>, own: Owners, cells: Heap) {
    forall x :: x in cells ==> OwnedSlots(objs, own, x, 0, cells[x].slots)
  }

  lemma {:induction false} OwnedFurther(objs: set<nat>, own: Owners, cells: Heap, own': Owners)
    requires OwnedCells(objs, own, cells) && forall q :: q in own ==> q in own' && own'[q] == own[q]
    ensures OwnedCells(objs, own', cells)
  {
    forall x | x in cells
      ensures OwnedSlots(objs, own', x, 0, cells[x].slots)
    {
      assert OwnedSlots(objs, own, x, 0, cells[x].slots);
    }
  }

  /** Under a number the cache holds nothing but objects. */
  ghost predicate BindsObjects(objs: set<nat>, dc: Cache) {
    forall k: nat :: Decimal(k) in dc ==> dc[Decimal(k)] in objs
  }

  ghost predicate ObjectsIn(refs: seq<nat>, objs: set<nat>) {
    forall k :: 0 <= k < |refs| ==> refs[k] in objs
  }

  lemma {:induction false} ResolvesToObject(objs: set<nat>, s: string, dc: Cache)
    requires TidyString(s) && BindsObjects(objs, dc)
    ensures Resolve(s, dc).Ref? ==> Resolve(s, dc).r in objs
  {
    if IsCircular(s) {
      var k: nat :| s == CIRCULAR + Decimal(k);
      assert s[|CIRCULAR|..] == Decimal(k);
    }
  }

  lemma {:induction false} BindsFurther(objs: set<nat>, dc: Cache, t: Json, lo: nat)
    requires t.JNode? && Tidy(t) && BindsObjects(objs, dc) && ObjectsIn(NodeRefs(t, lo), objs)
    ensures BindsObjects(objs, dc[CacheKey(t.slots) := lo]) && ObjectsIn(SlotRefs(t.slots, lo + 1), objs)
  {
    var refs, below := NodeRefs(t, lo), SlotRefs(t.slots, lo + 1);
    if t.isArray {
      assert forall k: nat :: Decimal(k)[0] != "undefined"[0];
      assert [] + below == below;
    } else {
      assert refs[0] == lo && refs[1..] == below;
      assert forall k :: 0 <= k < |below| ==> below[k] == refs[k + 1];
    }
  }

  lemma {:induction false} NodeOwned(objs: set<nat>, t: Json, lo: nat, dc: Cache)
    requires t.JNode? && Tidy(t) && BindsObjects(objs, dc) && ObjectsIn(NodeRefs(t, lo), objs)
    ensures OwnedCells(objs, NodeOwners(t, lo), Inflate(t, lo, dc).0) && BindsObjects(objs, Inflate(t, lo, dc).1)
    decreases t, 0
  {
    BindsFurther(objs, dc, t, lo);
    SlotsOwned(objs, t.slots, lo + 1, dc[CacheKey(t.slots) := lo], lo, 0);
  }

  lemma {:induction false} ValueOwned(objs: set<nat>, t: Json, lo: nat, dc: Cache, holder: nat, i: nat)
    requires Tidy(t) && BindsObjects(objs, dc) && ObjectsIn(NodeRefs(t, lo), objs)
    ensures var (v, cells, dc1) := InflateValue(t, lo, dc);
      var own := ValueOwners(t, lo, holder, i);
      OwnedValue(objs, own, holder, i, v) && OwnedCells(objs, own, cells) && BindsObjects(objs, dc1)
    decreases t, 1
  {
    match t
    case JLit(_) =>
    case JStr(s) => ResolvesToObject(objs, s, dc);
    case JNode(_, _) =>
      NodeOwned(objs, t, lo, dc);
      OwnedFurther(objs, NodeOwners(t, lo), Inflate(t, lo, dc).0, ValueOwners(t, lo, holder, i));
  }

  lemma {:induction false} SlotsOwned(objs: set<nat>, slots: seq<JSlot>, lo: nat, dc: Cache, holder: nat, from: nat)
    requires TidySlots(slots) && BindsObjects(objs, dc) && ObjectsIn(SlotRefs(slots, lo), objs)
    ensures var (ss, cells, dc1) := InflateSlots(slots, lo, dc);
      var own := SlotOwners(slots, lo, holder, from);
      OwnedSlots(objs, own, holder, from, ss) && OwnedCells(objs, own, cells) && BindsObjects(objs, dc1)
    decreases slots, 2
  {
    if slots != [] {
      var s, rest, next := slots[0], slots[1..], lo + Count(slots[0].val);
      assert ObjectsIn(NodeRefs(s.val, lo), objs) && ObjectsIn(SlotRefs(rest, next), objs) by {
        RefsSplit(NodeRefs(s.val, lo), SlotRefs(rest, next), objs);
      }
      if s.key == ID_COUNT {
        SlotsOwned(objs, rest, next, dc, holder, from);
      } else {
        var (v, cells, dc1) := InflateValue(s.val, lo, dc);
        ValueOwned(objs, s.val, lo, dc, holder, from);
        SlotsOwned(objs, rest, next, dc1, holder, from + 1);
        var (ss, cells2, _) := InflateSlots(rest, next, dc1);
        OwnedJoin(objs, ValueOwners(s.val, lo, holder, from), SlotOwners(rest, next, holder, from + 1), next,
                  holder, from, Slot(s.key, v), cells, ss, cells2);
      }
    }
  }

  lemma {:induction false} RefsSplit(a: seq<nat>, b: seq<nat>, objs: set<nat>)
    requires ObjectsIn(a + b, objs)
    ensures ObjectsIn(a, objs) && ObjectsIn(b, objs)
  {
    assert forall k :: 0 <= k < |a| ==> a[k] == (a + b)[k];
    assert forall k :: 0 <= k < |b| ==> b[k] == (a + b)[|a| + k];
  }

  lemma {:induction false} OwnedJoin(objs: set<nat>, own1: Owners, own2: Owners, mid: nat, holder: nat, from: nat,
      s: Slot, cells1: Heap, ss: seq<Slot>, cells2: Heap)
    requires (forall q :: q in own1 ==> q < mid) && forall q :: q in own2 ==> mid <= q
    requires OwnedValue(objs, own1, holder, from, s.val) && OwnedCells(objs, own1, cells1)
    requires OwnedSlots(objs, own2, holder, from + 1, ss) && OwnedCells(objs, own2, cells2)
    ensures OwnedSlots(objs, own1 + own2, holder, from, [s] + ss)
    ensures OwnedCells(objs, own1 + own2, cells1 + cells2)
  {
    var own := own1 + own2;
    forall i | 0 <= i < |ss| + 1
      ensures OwnedValue(objs, own, holder, from + i, ([s] + ss)[i].val)
    {
      if i > 0 { assert OwnedValue(objs, own2, holder, from + 1 + (i - 1), ss[i - 1].val); }
    }
    OwnedFurther(objs, own1, cells1, own);
    OwnedFurther(objs, own2, cells2, own);
  }

  /** Slot `i` of `a` holds the cell `r`. */
  predicate HeldAt(h: Heap, a: nat, i: nat, r: nat) {
    a in h && i < |h[a].slots| && h[a].slots[i].val == Ref(r)
  }

  /** In the graph that comes back, no array is held by two slots. */
  lemma {:induction false} RebuiltHeldOnce(t: Json, q: nat, x: nat, i: nat, y: nat, j: nat)
    requires t.JNode? && Tidy(t) && q !in NodeRefs(t, 0)
    requires HeldAt(Inflated(t), x, i, q) && HeldAt(Inflated(t), y, j, q)
    ensures x == y && i == j
  {
    var objs := set k | k in NodeRefs(t, 0);
    NodeOwned(objs, t, 0, map[]);
    var cells, own := Inflated(t), NodeOwners(t, 0);
    assert OwnedValue(objs, own, x, 0 + i, cells[x].slots[i].val);
    assert OwnedValue(objs, own, y, 0 + j, cells[y].slots[j].val);
  }

  // ----- the theorem

  ghost predicate HeldOnce(h: Heap, root: nat, r: nat) {
    forall a, i: nat, b, j: nat ::
      Reachable(h, root, a) && HeldAt(h, a, i, r) && Reachable(h, root, b) && HeldAt(h, b, j, r) ==> a == b && i == j
  }

  ghost predicate ArraysHeldOnce(h: Heap, root: nat) {
    forall r :: r in h && h[r].kind.Array? ==> HeldOnce(h, root, r)
  }

  ghost predicate OneToOne(rel: set<(nat, nat)>) {
    forall p, q :: p in rel && q in rel ==> (p.0 == q.0 <==> p.1 == q.1)
  }

  ghost predicate RestoresSharing(h: Heap, root: nat)
    requires WellFormed(h, root)
  {
    var out := Outcome(h, root);
    && out.Text? && out.tree.JNode?
    && exists rel :: IsIsomorphism(rel, h, root, Inflated(out.tree), 0) && OneToOne(rel)
  }

  /** The facts about a supported graph, its text `t` and what came back. */
  ghost predicate CameBack(h: Heap, root: nat, c: seq<Value>, b: seq<nat>, t: Json) {
    && WellFormed(h, root) && Supported(h, root)
    && t.JNode? && Tidy(t) && b == NodeRefs(t, 0)
    && Described(h, root, c, b, Inflated(t)) && AllObjects(h, c)
  }

  lemma {:induction false} ComesBack(h: Heap, root: nat) returns (b: seq<nat>)
    requires WellFormed(h, root) && Supported(h, root)
    ensures var (t, c) := Serialized(h, root);
      CameBack(h, root, c, b, t)
  {
    b := Describe(h, root);
    SupportedTidy(h, root);
    CachesObjects(h, root, Serialized(h, root).1);
  }

  lemma {:induction false} CameBackHeldOnce(h: Heap, root: nat, c: seq<Value>, b: seq<nat>, t: Json, q: nat,
      j: nat, i: nat, k: nat, m: nat)
    requires CameBack(h, root, c, b, t) && j < |c| && k < |c|
    requires q in Inflated(t) && Inflated(t)[q].kind.Array?
    requires HeldAt(Inflated(t), b[j], i, q) && HeldAt(Inflated(t), b[k], m, q)
    ensures j == k && i == m
  {
    forall n | 0 <= n < |b|
      ensures b[n] != q
    {
      assert MatchObject(h, c[n], b[n], Inflated(t), c, b);
    }
    RebuiltHeldOnce(t, q, b[j], i, b[k], m);
  }

  /** Two arrays are paired because an object and the object rebuilt for it hold them in the same slot. */
  lemma {:induction false} ArrayPair(h: Heap, root: nat, c: seq<Value>, b: seq<nat>, t: Json, p: (nat, nat))
    returns (k: nat, i: nat)
    requires CameBack(h, root, c, b, t) && p in Pairing(h, c, b, Inflated(t)) && p.0 in h && h[p.0].kind.Array?
    ensures k < |c| && HeldAt(h, c[k].r, i, p.0) && HeldAt(Inflated(t), b[k], i, p.1)
    ensures Reachable(h, root, c[k].r)
  {
    var cells := Inflated(t);
    k, i := ArrayPlace(h, c, b, cells, p);
    assert c[k].Ref? && Reachable(h, root, c[k].r) && SupportedCell(h, c[k].r);
    SupportedEntries(h, c[k].r);
  }

  lemma {:induction false} ArrayPlace(h: Heap, c: seq<Value>, b: seq<nat>, cells: Heap, p: (nat, nat))
    returns (k: nat, i: nat)
    requires AllObjects(h, c) && Rebuilt(h, 0, cells, c, b) && p in Pairing(h, c, b, cells)
    requires p.0 in h && h[p.0].kind.Array?
    ensures k < |c| && i < |Slots(h, cells, c, b, k).0|
    ensures Slots(h, cells, c, b, k).0[i].val == Ref(p.0) && Slots(h, cells, c, b, k).1[i].val == Ref(p.1)
  {
    assert forall j :: 0 <= j < |c| ==> IsObjectRef(h, c[j]);
    k, i :| 0 <= k < |c| && 0 <= i < |Slots(h, cells, c, b, k).0|
      && Slots(h, cells, c, b, k).0[i].val == Ref(p.0) && Slots(h, cells, c, b, k).1[i].val == Ref(p.1);
  }

  lemma {:induction false} PairingOneToOne(h: Heap, root: nat, c: seq<Value>, b: seq<nat>, t: Json)
    requires CameBack(h, root, c, b, t) && ArraysHeldOnce(h, root)
    requires IsIsomorphism(Pairing(h, c, b, Inflated(t)), h, root, Inflated(t), 0)
    ensures OneToOne(Pairing(h, c, b, Inflated(t)))
  {
    var rel, cells := Pairing(h, c, b, Inflated(t)), Inflated(t);
    forall p, q | p in rel && q in rel
      ensures p.0 == q.0 <==> p.1 == q.1
    {
      assert SameCell(rel, h[p.0], cells[p.1]) && SameCell(rel, h[q.0], cells[q.1]);
      if h[p.0].kind.Array? && h[q.0].kind.Array? {
        var j, i := ArrayPair(h, root, c, b, t, p);
        var k, m := ArrayPair(h, root, c, b, t, q);
        if p.0 == q.0 {
          assert HeldOnce(h, root, p.0);
          assert c[j] == c[k];
        }
        if p.1 == q.1 {
          CameBackHeldOnce(h, root, c, b, t, p.1, j, i, k, m);
        }
      }
    }
  }

  /** Where an isomorphism takes an array that a reachable object holds. */
  lemma {:induction false} HeldArrayCameBack(h: Heap, root: nat, b: seq<nat>, rel: set<(nat, nat)>,
      a: nat, i: nat, r: nat)
    returns (k: nat, q: nat)
    requires WellFormed(h, root)
    requires var (t, c) := Serialized(h, root);
      CameBack(h, root, c, b, t) && IsIsomorphism(rel, h, root, Inflated(t), 0)
    requires r in h && h[r].kind.Array? && Reachable(h, root, a) && HeldAt(h, a, i, r)
    ensures var (t, c) := Serialized(h, root);
      && k < |c| && c[k] == Ref(a) && (r, q) in rel
      && q in Inflated(t) && Inflated(t)[q].kind.Array? && HeldAt(Inflated(t), b[k], i, q)
  {
    var (t, c) := Serialized(h, root);
    var cells := Inflated(t);
    assert SupportedCell(h, a) && SupportedSlot(h, h[a].kind.Array?, h[a].slots[i].val);
    ExpandsOnlyObjects(h, root);
    ExpandsOnce(h, root);
    assert IsExpanded(h, root, Ref(a));
    k :| 0 <= k < |c| && c[k] == Ref(a);
    AllFaithful(h, root, b, rel);
    FaithfulPaired(h, c, b, rel, k);
    assert SameCell(rel, h[a], cells[b[k]]);
    assert SameValue(rel, Ref(r), cells[b[k]].slots[i].val);
    q := cells[b[k]].slots[i].val.r;
    assert SameCell(rel, h[r], cells[q]);
  }

  lemma {:induction false} SharingKeptHeldOnce(h: Heap, root: nat, b: seq<nat>, rel: set<(nat, nat)>)
    requires WellFormed(h, root)
    requires var (t, c) := Serialized(h, root);
      CameBack(h, root, c, b, t) && IsIsomorphism(rel, h, root, Inflated(t), 0) && OneToOne(rel)
    ensures ArraysHeldOnce(h, root)
  {
    var (t, c) := Serialized(h, root);
    forall r, x, i: nat, y, j: nat | r in h && h[r].kind.Array?
        && Reachable(h, root, x) && HeldAt(h, x, i, r) && Reachable(h, root, y) && HeldAt(h, y, j, r)
      ensures x == y && i == j
    {
      var k, q := HeldArrayCameBack(h, root, b, rel, x, i, r);
      var m, q' := HeldArrayCameBack(h, root, b, rel, y, j, r);
      assert (r, q).1 == (r, q').1;
      CameBackHeldOnce(h, root, c, b, t, q, k, i, m, j);
    }
  }

  /** The round trip restores the graph with the identity of its arrays as well if and only if it restores it and
      no reachable array is held by two slots. */
  lemma {:induction false} SharingExact(h: Heap, root: nat)
    requires WellFormed(h, root)
    ensures RestoresSharing(h, root) <==>
      Supported(h, root) && !HasField(h, root, HAS_OWN) && ArraysHeldOnce(h, root)
  {
    RoundTripExact(h, root);
    if Restores(h, root) {
      var b := ComesBack(h, root);
      var (t, c) := Serialized(h, root);
      if ArraysHeldOnce(h, root) {
        CachesObjects(h, root, c);
        PairingIsIsomorphism(h, root, c, b, Inflated(t));
        PairingOneToOne(h, root, c, b, t);
      }
      if rel :| IsIsomorphism(rel, h, root, Inflated(t), 0) && OneToOne(rel) {
        SharingKeptHeldOnce(h, root, b, rel);
      }
    }
  }

  const TWO_FIELDS: Heap :=
    map[0 := Cell(Object, [Slot("a", Ref(1)), Slot("b", Ref(1))]), 1 := Cell(Array(0), [])]

  /** Two fields that hold one array come back holding two. */
  lemma {:induction false} ArraySharingIsLost()
    ensures WellFormed(TWO_FIELDS, 0) && Restores(TWO_FIELDS, 0) && !RestoresSharing(TWO_FIELDS, 0)
  {
    TwoFieldsSupported();
    RoundTripExact(TWO_FIELDS, 0);
    SharingExact(TWO_FIELDS, 0);
    ReachableRoot(TWO_FIELDS, 0);
    assert HeldAt(TWO_FIELDS, 0, 0, 1) && HeldAt(TWO_FIELDS, 0, 1, 1);
    assert !HeldOnce(TWO_FIELDS, 0, 1);
  }

  lemma {:induction false} TwoFieldsSupported()
    ensures WellFormed(TWO_FIELDS, 0) && Supported(TWO_FIELDS, 0) && !HasField(TWO_FIELDS, 0, HAS_OWN)
  {
    WellFormedThroughout(TWO_FIELDS, 0);
    assert SupportedCell(TWO_FIELDS, 0) && SupportedCell(TWO_FIELDS, 1);
    assert TWO_FIELDS[0].slots[0].key != HAS_OWN && TWO_FIELDS[0].slots[1].key != HAS_OWN;
  }
}
