/** The promise of lib/serializer.js, and exactly when it is kept: `deserialize(serialize(g))` is `g` again. */
module SerializerRoundTrip {
  import opened Decimals
  import opened ObjectGraph
  import opened Serialize
  import opened Deserialize
  import opened SerializerSimulation

  // ----- facts about the cache alone

  ghost predicate Distinct(c: seq<Value>) {
    forall i, j :: 0 <= i < j < |c| ==> c[i] != c[j]
  }

  ghost predicate GrowsWithin(c: seq<Value>, c': seq<Value>, w: set<Value>) {
    && c <= c'
    && (forall k :: |c| <= k < |c'| ==> c'[k] in w)
    && (Distinct(c) ==> Distinct(c'))
  }

  lemma {:induction false} GrowsPush(c: seq<Value>, x: Value, c': seq<Value>, w: set<Value>)
    requires x !in c && x in w && GrowsWithin(c + [x], c', w)
    ensures GrowsWithin(c, c', w)
  {
    assert c'[|c|] == (c + [x])[|c|];
  }

  lemma {:induction false} GrowsFurther(c: seq<Value>, c1: seq<Value>, c2: seq<Value>, w: set<Value>)
    requires GrowsWithin(c, c1, w) && GrowsWithin(c1, c2, w)
    ensures GrowsWithin(c, c2, w)
  {
  }

  /** Every closed set that holds the start holds everything cached, whatever `u` bounded the recursion. */
  lemma {:induction false} SlotsGrow(h: Heap, u: set<Value>, w: set<Value>, slots: seq<Slot>, elems: bool,
      c: seq<Value>)
    requires Closed(h, u) && SlotsLead(h, u, slots, elems) && Closed(h, w) && SlotsLead(h, w, slots, elems)
    ensures GrowsWithin(c, SerSlots(h, u, slots, elems, c).1, w)
    decreases Uncached(u, c), if elems then 0 else 1, |slots|, 2
  {
    if slots != [] {
      var (_, c1) := SerValue(h, u, slots[0].val, elems, c);
      UncachedMonotone(u, c, c1);
      ValueGrows(h, u, w, slots[0].val, elems, c);
      SlotsGrow(h, u, w, slots[1..], elems, c1);
      GrowsFurther(c, c1, SerSlots(h, u, slots[1..], elems, c1).1, w);
    }
  }

  lemma {:induction false} ValueGrows(h: Heap, u: set<Value>, w: set<Value>, x: Value, elems: bool, c: seq<Value>)
    requires Closed(h, u) && Leads(h, u, x, elems) && Closed(h, w) && Leads(h, w, x, elems)
    ensures GrowsWithin(c, SerValue(h, u, x, elems, c).1, w)
    decreases Uncached(u, c), if elems then 0 else 1, 0, 1
  {
    if !elems && !x.Ref? {
    } else if !elems && h[x.r].kind.Array? {
      SlotsGrow(h, u, w, Elements(h[x.r]), true, c);
    } else {
      CachedGrows(h, u, w, x, c);
    }
  }

  lemma {:induction false} CachedGrows(h: Heap, u: set<Value>, w: set<Value>, x: Value, c: seq<Value>)
    requires Closed(h, u) && x in u && Closed(h, w) && x in w
    ensures GrowsWithin(c, SerCached(h, u, x, c).1, w)
    decreases Uncached(u, c), 0, 0, 0
  {
    if x !in c {
      UncachedPush(u, c, x);
      SlotsGrow(h, u, w, Entries(h, x), false, c + [x]);
      GrowsPush(c, x, SerSlots(h, u, Entries(h, x), false, c + [x]).1, w);
    }
  }

  // ----- ids: 0, 1, 2, ... in depth-first preorder

  /** The ids of a tree's objects, in the order a reader meets them. */
  function NodeIds(t: Json): (items: seq<string>) {
    match t
    case JNode(isArray, slots) => (if isArray then [] else [CacheKey(slots)]) + SlotIds(slots)
    case _ => []
  }

  function SlotIds(slots: seq<JSlot>): (items: seq<string>) {
    if slots == [] then [] else NodeIds(slots[0].val) + SlotIds(slots[1..])
  }

  /** The decimals of `from`, `from + 1`, ..., `to - 1`. */
  function Numbered(from: nat, to: nat): (s: seq<string>)
    requires from <= to
  {
    seq(to - from, i requires 0 <= i < to - from => Decimal(from + i))
  }

  lemma {:induction false} NumberedJoin(a: nat, b: nat, c: nat)
    requires a <= b <= c
    ensures Numbered(a, b) + Numbered(b, c) == Numbered(a, c)
  {
  }

  lemma {:induction false} HeaderNumbered(id: nat, ts: seq<JSlot>, n: nat)
    requires id < n && SlotIds(ts) == Numbered(id + 1, n)
    ensures NodeIds(JNode(false, [JSlot(ID_COUNT, JLit(Decimal(id)))] + ts)) == Numbered(id, n)
  {
    var head := JSlot(ID_COUNT, JLit(Decimal(id)));
    assert ([head] + ts)[0] == head && ([head] + ts)[1..] == ts;
    assert SlotIds([head] + ts) == SlotIds(ts);
    assert Numbered(id, id + 1) == [Decimal(id)];
    NumberedJoin(id, id + 1, n);
  }

  lemma {:induction false} SlotsNumbered(h: Heap, u: set<Value>, slots: seq<Slot>, elems: bool, c: seq<Value>)
    requires Closed(h, u) && SlotsLead(h, u, slots, elems)
    ensures var (ts, c') := SerSlots(h, u, slots, elems, c);
      SlotIds(ts) == Numbered(|c|, |c'|)
    decreases Uncached(u, c), if elems then 0 else 1, |slots|, 2
  {
    if slots != [] {
      var (t, c1) := SerValue(h, u, slots[0].val, elems, c);
      UncachedMonotone(u, c, c1);
      ValueNumbered(h, u, slots[0].val, elems, c);
      SlotsNumbered(h, u, slots[1..], elems, c1);
      var (ts, c2) := SerSlots(h, u, slots[1..], elems, c1);
      NumberedJoin(|c|, |c1|, |c2|);
      assert ([JSlot(slots[0].key, t)] + ts)[1..] == ts;
    }
  }

  lemma {:induction false} ValueNumbered(h: Heap, u: set<Value>, x: Value, elems: bool, c: seq<Value>)
    requires Closed(h, u) && Leads(h, u, x, elems)
    ensures var (t, c') := SerValue(h, u, x, elems, c);
      NodeIds(t) == Numbered(|c|, |c'|)
    decreases Uncached(u, c), if elems then 0 else 1, 0, 1
  {
    if !elems && !x.Ref? {
    } else if !elems && h[x.r].kind.Array? {
      SlotsNumbered(h, u, Elements(h[x.r]), true, c);
    } else {
      CachedNumbered(h, u, x, c);
    }
  }

  lemma {:induction false} CachedNumbered(h: Heap, u: set<Value>, x: Value, c: seq<Value>)
    requires Closed(h, u) && x in u
    ensures var (t, c') := SerCached(h, u, x, c);
      NodeIds(t) == Numbered(|c|, |c'|)
    decreases Uncached(u, c), 0, 0, 0
  {
    if x !in c {
      UncachedPush(u, c, x);
      SlotsNumbered(h, u, Entries(h, x), false, c + [x]);
      var (ts, c1) := SerSlots(h, u, Entries(h, x), false, c + [x]);
      HeaderNumbered(|c|, ts, |c1|);
    }
  }

  // ----- the whole round trip

  /** The graph a text inflates to; its root is reference 0. */
  function Inflated(text: Json): (cells: Heap)
    requires text.JNode?
  {
    Inflate(text, 0, map[]).0
  }

  ghost predicate InGraph(h: Heap, root: nat, c: seq<Value>) {
    forall k :: 0 <= k < |c| && c[k].Ref? ==> Reachable(h, root, c[k].r)
  }

  /** What `deserialize` makes of `serialize`'s text: the caches `c` and `b` line up object by object. */
  ghost predicate Described(h: Heap, root: nat, c: seq<Value>, b: seq<nat>, cells: Heap) {
    && |c| > 0 && c[0] == Ref(root)
    && Rebuilt(h, 0, cells, c, b) && b[0] == 0
    && Distinct(c) && (forall i, j :: 0 <= i < j < |b| ==> b[i] < b[j])
    && InGraph(h, root, c)
  }

  lemma {:induction false} Describe(h: Heap, root: nat) returns (b: seq<nat>)
    requires WellFormed(h, root)
    ensures var (t, c) := Serialized(h, root);
      && t.JNode? && PrimitiveIds(t)
      && b == NodeRefs(t, 0) && Described(h, root, c, b, Inflated(t))
      && NodeIds(t) == Numbered(0, |c|)
      && GrowsWithin([], c, Cacheable(h, root))
  {
    var u := Cacheable(h, root);
    var (t, c) := Serialized(h, root);
    CacheableClosed(h, root);
    SimulateCached(h, u, Ref(root), [], 0, [], map[]);
    SerCachedPrimitive(h, u, Ref(root), []);
    CachedNumbered(h, u, Ref(root), []);
    CachedGrows(h, u, u, Ref(root), []);
    NodeRefsIncreasing(t, 0);
    b := NodeRefs(t, 0);
    assert [] + b == b;
    CacheInGraph(h, root, c);
  }

  lemma {:induction false} CacheInGraph(h: Heap, root: nat, c: seq<Value>)
    requires WellFormed(h, root) && GrowsWithin([], c, Cacheable(h, root))
    ensures InGraph(h, root, c)
  {
    forall k | 0 <= k < |c| && c[k].Ref?
      ensures Reachable(h, root, c[k].r)
    {
      CacheableReachable(h, root, c[k]);
    }
  }

  // ----- the supported graphs

  ghost predicate SupportedCell(h: Heap, r: nat)
    requires r in h
  {
    && (h[r].kind.Array? ==> IsPlainArray(h[r]))
    && forall i :: 0 <= i < |h[r].slots| ==> SupportedSlot(h, h[r].kind.Array?, h[r].slots[i].val)
  }

  /** An array element must be an object; a field must not be undefined, nor a string that looks like a back
      reference. */
  predicate SupportedSlot(h: Heap, isElement: bool, x: Value) {
    if isElement then IsObjectRef(h, x) else x != Undefined && (x.Str? ==> !IsCircular(x.s))
  }

  lemma {:induction false} SupportedEntries(h: Heap, r: nat)
    requires r in h && SupportedCell(h, r)
    ensures Entries(h, Ref(r)) == h[r].slots
  {
    assert forall i :: 0 <= i < |h[r].slots| ==> SupportedSlot(h, h[r].kind.Array?, h[r].slots[i].val);
    KeptAll(h[r].slots);
  }

  ghost predicate Supported(h: Heap, root: nat) {
    IsObjectRef(h, Ref(root)) && forall r :: Reachable(h, root, r) && r in h ==> SupportedCell(h, r)
  }

  ghost predicate AllObjects(h: Heap, c: seq<Value>) {
    forall k :: 0 <= k < |c| ==> IsObjectRef(h, c[k])
  }

  lemma {:induction false} SupportedCacheable(h: Heap, root: nat, x: Value)
    requires WellFormed(h, root) && Supported(h, root) && IsCacheable(h, root, x)
    ensures IsObjectRef(h, x) && Reachable(h, root, x.r)
  {
    ReachableRoot(h, root);
    if x != Ref(root) && !(IsObjectRef(h, x) && Reachable(h, root, x.r)) {
      var q :| q in h && h[q].kind.Array? && Reachable(h, root, q) && IsElement(h[q], x);
      assert SupportedCell(h, q);
      PlainElements(h[q]);
      var i :| 0 <= i < |h[q].slots| && h[q].slots[i].val == x;
      assert SupportedSlot(h, true, h[q].slots[i].val);
      assert Edge(h, q, x.r);
      ReachableStep(h, root, q, x.r);
    }
  }

  /** In a supported graph only objects are cached, and all of them are reachable. */
  lemma {:induction false} CachesObjects(h: Heap, root: nat, c: seq<Value>)
    requires WellFormed(h, root) && Supported(h, root)
    requires GrowsWithin([], c, Cacheable(h, root))
    ensures AllObjects(h, c) && forall k :: 0 <= k < |c| ==> Reachable(h, root, c[k].r)
  {
    forall k | 0 <= k < |c|
      ensures IsObjectRef(h, c[k]) && Reachable(h, root, c[k].r)
    {
      SupportedCacheable(h, root, c[k]);
    }
  }

  // ----- a supported graph comes back

  /** Objects are paired by their place in the cache; what two paired objects hold in the same slot is paired. */
  ghost function Pairing(h: Heap, c: seq<Value>, b: seq<nat>, cells: Heap): (s: set<(nat, nat)>)
    requires AllObjects(h, c) && Rebuilt(h, 0, cells, c, b)
  {
    (set k | 0 <= k < |c| :: (c[k].r, b[k]))
    + (set k, i | 0 <= k < |c| && 0 <= i < |Slots(h, cells, c, b, k).0|
         && Slots(h, cells, c, b, k).0[i].val.Ref? && Slots(h, cells, c, b, k).1[i].val.Ref?
       :: (Slots(h, cells, c, b, k).0[i].val.r, Slots(h, cells, c, b, k).1[i].val.r))
  }

  /** The slots of the `k`-th cached object and of the object rebuilt for it. */
  ghost function Slots(h: Heap, cells: Heap, c: seq<Value>, b: seq<nat>, k: nat): (res: (seq<Slot>, seq<Slot>))
    requires AllObjects(h, c) && Rebuilt(h, 0, cells, c, b) && k < |c|
    ensures |res.0| == |res.1| && MatchSlots(h, res.0, res.1, false, cells, c, b)
    ensures c[k].r in h && b[k] in cells && cells[b[k]].kind.Object?
    ensures res == (Entries(h, c[k]), cells[b[k]].slots)
  {
    assert IsObjectRef(h, c[k]) && MatchObject(h, c[k], b[k], cells, c, b);
    (Entries(h, c[k]), cells[b[k]].slots)
  }

  lemma {:induction false} PairedObject(h: Heap, c: seq<Value>, b: seq<nat>, cells: Heap, k: nat)
    requires AllObjects(h, c) && Rebuilt(h, 0, cells, c, b) && k < |c|
    ensures (c[k].r, b[k]) in Pairing(h, c, b, cells)
  {
  }

  lemma {:induction false} PairedLink(h: Heap, c: seq<Value>, b: seq<nat>, cells: Heap, x: Value, v: Value)
    requires AllObjects(h, c) && Rebuilt(h, 0, cells, c, b) && Linked(c, b, x, v)
    ensures x.Ref? && v.Ref? && (x.r, v.r) in Pairing(h, c, b, cells)
    ensures exists k :: 0 <= k < |c| && x == c[k] && v == Ref(b[k])
  {
    var k :| 0 <= k < |c| && k < |b| && c[k] == x && v == Ref(b[k]);
    assert IsObjectRef(h, c[k]);
    PairedObject(h, c, b, cells, k);
  }

  /** A pair is either two objects from the same place in the caches, or two arrays of the same slot. */
  lemma {:induction false} PairKinds(h: Heap, c: seq<Value>, b: seq<nat>, cells: Heap, p: (nat, nat))
    requires AllObjects(h, c) && Rebuilt(h, 0, cells, c, b) && p in Pairing(h, c, b, cells)
    ensures p.0 in h
    ensures h[p.0].kind.Object? ==> exists k :: 0 <= k < |c| && c[k] == Ref(p.0) && b[k] == p.1
    ensures h[p.0].kind.Array? ==> MatchArray(h, p.0, cells, Ref(p.1), c, b)
    ensures h[p.0].kind.Array? ==> exists k :: 0 <= k < |c| && Edge(h, c[k].r, p.0)
  {
    if !exists k :: 0 <= k < |c| && c[k] == Ref(p.0) && b[k] == p.1 {
      var k, i :| 0 <= k < |c| && 0 <= i < |Slots(h, cells, c, b, k).0|
        && Slots(h, cells, c, b, k).0[i].val == Ref(p.0) && Slots(h, cells, c, b, k).1[i].val == Ref(p.1);
      assert MatchValue(h, Ref(p.0), Ref(p.1), false, cells, c, b);
      assert Slots(h, cells, c, b, k).0[i] in h[c[k].r].slots && Edge(h, c[k].r, p.0);
      if h[p.0].kind.Object? { PairedLink(h, c, b, cells, Ref(p.0), Ref(p.1)); }
    } else {
      var k :| 0 <= k < |c| && c[k] == Ref(p.0) && b[k] == p.1;
      assert IsObjectRef(h, c[k]);
    }
  }

  lemma {:induction false} PairedSlot(h: Heap, c: seq<Value>, b: seq<nat>, cells: Heap, k: nat, i: nat)
    requires AllObjects(h, c) && Rebuilt(h, 0, cells, c, b) && k < |c| && i < |Slots(h, cells, c, b, k).0|
    requires SupportedSlot(h, false, Slots(h, cells, c, b, k).0[i].val)
    ensures var (ss, vs) := Slots(h, cells, c, b, k);
      ss[i].key == vs[i].key && SameValue(Pairing(h, c, b, cells), ss[i].val, vs[i].val)
  {
    var (ss, vs) := Slots(h, cells, c, b, k);
    assert MatchValue(h, ss[i].val, vs[i].val, false, cells, c, b);
    if ss[i].val.Ref? {
      if h[ss[i].val.r].kind.Array? {
        assert (ss[i].val.r, vs[i].val.r) in Pairing(h, c, b, cells);
      } else {
        PairedLink(h, c, b, cells, ss[i].val, vs[i].val);
      }
    }
  }

  lemma {:induction false} PairedObjectsSame(h: Heap, root: nat, c: seq<Value>, b: seq<nat>, cells: Heap, k: nat)
    requires Supported(h, root) && AllObjects(h, c) && Rebuilt(h, 0, cells, c, b) && k < |c|
    requires Reachable(h, root, c[k].r)
    ensures c[k].r in h && b[k] in cells
    ensures SameCell(Pairing(h, c, b, cells), h[c[k].r], cells[b[k]])
  {
    var (ss, vs) := Slots(h, cells, c, b, k);
    assert IsObjectRef(h, c[k]) && SupportedCell(h, c[k].r);
    SupportedEntries(h, c[k].r);
    forall i | 0 <= i < |ss|
      ensures ss[i].key == vs[i].key && SameValue(Pairing(h, c, b, cells), ss[i].val, vs[i].val)
    {
      assert SupportedSlot(h, false, ss[i].val);
      PairedSlot(h, c, b, cells, k, i);
    }
  }

  lemma {:induction false} HeldArrayPlain(h: Heap, root: nat, a: nat, r: nat)
    requires WellFormed(h, root) && Supported(h, root) && Reachable(h, root, a) && Edge(h, a, r)
    ensures r in h && (h[r].kind.Array? ==> IsPlainArray(h[r]))
  {
    ReachableStep(h, root, a, r);
    assert SupportedCell(h, r);
  }

  lemma {:induction false} PairedArraysSame(h: Heap, c: seq<Value>, b: seq<nat>, cells: Heap, r: nat, q: nat)
    requires AllObjects(h, c) && Rebuilt(h, 0, cells, c, b)
    requires r in h && IsPlainArray(h[r]) && MatchArray(h, r, cells, Ref(q), c, b)
    ensures q in cells && SameCell(Pairing(h, c, b, cells), h[r], cells[q])
  {
    PlainElements(h[r]);
    forall i | 0 <= i < |h[r].slots|
      ensures SameValue(Pairing(h, c, b, cells), h[r].slots[i].val, cells[q].slots[i].val)
    {
      assert MatchValue(h, h[r].slots[i].val, cells[q].slots[i].val, true, cells, c, b);
      PairedLink(h, c, b, cells, h[r].slots[i].val, cells[q].slots[i].val);
    }
  }

  lemma {:induction false} PairingIsIsomorphism(h: Heap, root: nat, c: seq<Value>, b: seq<nat>, cells: Heap)
    requires WellFormed(h, root) && Supported(h, root) && Described(h, root, c, b, cells) && AllObjects(h, c)
    requires forall k :: 0 <= k < |c| ==> Reachable(h, root, c[k].r)
    ensures IsIsomorphism(Pairing(h, c, b, cells), h, root, cells, 0)
  {
    var rel := Pairing(h, c, b, cells);
    PairedObject(h, c, b, cells, 0);
    forall p | p in rel
      ensures p.0 in h && p.1 in cells && SameCell(rel, h[p.0], cells[p.1])
    {
      PairKinds(h, c, b, cells, p);
      if h[p.0].kind.Array? {
        var k :| 0 <= k < |c| && Edge(h, c[k].r, p.0);
        HeldArrayPlain(h, root, c[k].r, p.0);
        PairedArraysSame(h, c, b, cells, p.0, p.1);
      } else {
        var k :| 0 <= k < |c| && c[k] == Ref(p.0) && b[k] == p.1;
        PairedObjectsSame(h, root, c, b, cells, k);
      }
    }
    forall p, q | p in rel && q in rel && h[p.0].kind.Object? && h[q.0].kind.Object?
      ensures p.0 == q.0 <==> p.1 == q.1
    {
      PairKinds(h, c, b, cells, p);
      PairKinds(h, c, b, cells, q);
      var j :| 0 <= j < |c| && c[j] == Ref(p.0) && b[j] == p.1;
      var k :| 0 <= k < |c| && c[k] == Ref(q.0) && b[k] == q.1;
      if j != k {
        assert c[j] != c[k] && b[j] != b[k];
      }
    }
  }

  // ----- an unsupported graph does not

  /** The cached objects an isomorphism pairs with what was rebuilt for them. */
  ghost function Faithful(h: Heap, c: seq<Value>, b: seq<nat>, rel: set<(nat, nat)>): (s: set<Value>)
    requires |b| == |c|
  {
    set k | 0 <= k < |c| && IsObjectRef(h, c[k]) && (c[k].r, b[k]) in rel :: c[k]
  }

  lemma {:induction false} LinkedFaithful(h: Heap, c: seq<Value>, b: seq<nat>, cells: Heap, rel: set<(nat, nat)>,
      root: nat, x: Value, v: Value)
    requires Rebuilt(h, 0, cells, c, b) && IsIsomorphism(rel, h, root, cells, 0)
    requires Linked(c, b, x, v) && SameValue(rel, x, v)
    ensures x in Faithful(h, c, b, rel)
  {
    var k :| 0 <= k < |c| && k < |b| && c[k] == x && v == Ref(b[k]);
    assert MatchObject(h, c[k], b[k], cells, c, b);
    assert (x.r, b[k]) in rel;
    assert SameCell(rel, h[x.r], cells[b[k]]);
  }

  /** What an isomorphism says about one faithful object: each slot is supported and leads to faithful objects. */
  lemma {:induction false} FaithfulSlots(h: Heap, c: seq<Value>, b: seq<nat>, cells: Heap, rel: set<(nat, nat)>,
      root: nat, k: nat)
    requires WellFormed(h, root) && Rebuilt(h, 0, cells, c, b) && IsIsomorphism(rel, h, root, cells, 0)
    requires k < |c| && IsObjectRef(h, c[k]) && (c[k].r, b[k]) in rel && Reachable(h, root, c[k].r)
    ensures SlotsLead(h, Faithful(h, c, b, rel), Entries(h, c[k]), false)
    ensures Entries(h, c[k]) == h[c[k].r].slots && SupportedCell(h, c[k].r)
  {
    var ss, vs := Entries(h, c[k]), cells[b[k]].slots;
    assert MatchObject(h, c[k], b[k], cells, c, b);
    assert SameCell(rel, h[c[k].r], cells[b[k]]);
    KeptAll(h[c[k].r].slots);
    forall i | 0 <= i < |ss|
      ensures Leads(h, Faithful(h, c, b, rel), ss[i].val, false) && SupportedSlot(h, false, ss[i].val)
    {
      assert MatchValue(h, ss[i].val, vs[i].val, false, cells, c, b);
      assert SameValue(rel, ss[i].val, vs[i].val);
      if ss[i].val.Ref? {
        assert Edge(h, c[k].r, ss[i].val.r);
        ReachableStep(h, root, c[k].r, ss[i].val.r);
        if h[ss[i].val.r].kind.Array? {
          FaithfulElements(h, c, b, cells, rel, root, ss[i].val.r, vs[i].val.r);
        } else {
          LinkedFaithful(h, c, b, cells, rel, root, ss[i].val, vs[i].val);
        }
      }
    }
  }

  lemma {:induction false} FaithfulElements(h: Heap, c: seq<Value>, b: seq<nat>, cells: Heap, rel: set<(nat, nat)>,
      root: nat, r: nat, q: nat)
    requires WellFormed(h, root) && Rebuilt(h, 0, cells, c, b) && IsIsomorphism(rel, h, root, cells, 0)
    requires r in h && h[r].kind.Array? && (r, q) in rel && MatchArray(h, r, cells, Ref(q), c, b)
    requires Reachable(h, root, r)
    ensures ElementsIn(h, Faithful(h, c, b, rel), r) && SupportedCell(h, r)
  {
    assert SameCell(rel, h[r], cells[q]);
    forall i | 0 <= i < |h[r].slots|
      ensures h[r].slots[i].key == Decimal(i)
    {
      assert Elements(h[r])[i].key == cells[q].slots[i].key == h[r].slots[i].key;
    }
    PlainElements(h[r]);
    forall i | 0 <= i < |h[r].slots|
      ensures CacheableIn(h, Faithful(h, c, b, rel), h[r].slots[i].val) && SupportedSlot(h, true, h[r].slots[i].val)
    {
      assert MatchValue(h, h[r].slots[i].val, cells[q].slots[i].val, true, cells, c, b);
      assert SameValue(rel, h[r].slots[i].val, cells[q].slots[i].val);
      LinkedFaithful(h, c, b, cells, rel, root, h[r].slots[i].val, cells[q].slots[i].val);
    }
  }

  /** If the result is isomorphic, everything `serialize` cached is a faithful object. */
  lemma {:induction false} AllFaithful(h: Heap, root: nat, b: seq<nat>, rel: set<(nat, nat)>)
    requires WellFormed(h, root)
    requires var (t, c) := Serialized(h, root);
      t.JNode? && Described(h, root, c, b, Inflated(t)) && IsIsomorphism(rel, h, root, Inflated(t), 0)
    ensures var c := Serialized(h, root).1;
      forall k :: 0 <= k < |c| ==> c[k] in Faithful(h, c, b, rel)
  {
    var (t, c) := Serialized(h, root);
    var cells := Inflated(t);
    var w := Faithful(h, c, b, rel);
    assert MatchObject(h, c[0], b[0], cells, c, b);
    assert SameCell(rel, h[root], cells[0]);
    assert c[0] in w;
    forall x | x in w
      ensures (x.Ref? ==> x.r in h) && SlotsLead(h, w, Entries(h, x), false)
    {
      var k :| 0 <= k < |c| && IsObjectRef(h, c[k]) && (c[k].r, b[k]) in rel && c[k] == x;
      FaithfulSlots(h, c, b, cells, rel, root, k);
    }
    CacheableClosed(h, root);
    CachedGrows(h, Cacheable(h, root), w, Ref(root), []);
  }

  /** The objects in the cache and the arrays in their fields. */
  ghost function Covered(h: Heap, c: seq<Value>): (s: set<nat>)
    requires AllObjects(h, c)
  {
    (set k | 0 <= k < |c| :: c[k].r)
    + (set k, i | 0 <= k < |c| && 0 <= i < |CachedEntries(h, c, k)| && CachedEntries(h, c, k)[i].val.Ref?
       :: CachedEntries(h, c, k)[i].val.r)
  }

  ghost function CachedEntries(h: Heap, c: seq<Value>, k: nat): (items: seq<Slot>)
    requires AllObjects(h, c) && k < |c|
  {
    assert IsObjectRef(h, c[k]);
    Entries(h, c[k])
  }

  /** A covered cell is a cached object, or an array that the `k`-th cached object holds in slot `i`. */
  lemma {:induction false} CoveredKinds(h: Heap, c: seq<Value>, b: seq<nat>, cells: Heap, r: nat)
    returns (k: nat, i: nat)
    requires AllObjects(h, c) && Rebuilt(h, 0, cells, c, b) && r in Covered(h, c)
    ensures r in h && k < |c|
    ensures h[r].kind.Object? ==> c[k] == Ref(r)
    ensures h[r].kind.Array? ==> var (ss, vs) := Slots(h, cells, c, b, k);
      i < |ss| && ss[i].val == Ref(r) && MatchArray(h, r, cells, vs[i].val, c, b)
  {
    i := 0;
    if j :| 0 <= j < |c| && c[j].r == r {
      k := j;
      assert IsObjectRef(h, c[k]);
    } else {
      k, i :| 0 <= k < |c| && 0 <= i < |CachedEntries(h, c, k)| && CachedEntries(h, c, k)[i].val == Ref(r);
      var (ss, vs) := Slots(h, cells, c, b, k);
      assert MatchValue(h, ss[i].val, vs[i].val, false, cells, c, b);
      assert h[r].kind.Array?;
    }
  }

  lemma {:induction false} CachedCovered(h: Heap, c: seq<Value>, r: nat)
    requires AllObjects(h, c) && Ref(r) in c
    ensures r in Covered(h, c)
  {
    var k :| 0 <= k < |c| && c[k] == Ref(r);
    assert c[k].r == r;
  }

  lemma {:induction false} CoveredStep(h: Heap, c: seq<Value>, b: seq<nat>, cells: Heap, x: nat, y: nat)
    requires AllObjects(h, c) && Rebuilt(h, 0, cells, c, b)
    requires x in Covered(h, c) && x in h && SupportedCell(h, x) && Edge(h, x, y)
    ensures y in Covered(h, c)
  {
    var k, j := CoveredKinds(h, c, b, cells, x);
    var i :| 0 <= i < |h[x].slots| && h[x].slots[i].val == Ref(y);
    if h[x].kind.Array? {
      var vs := cells[Slots(h, cells, c, b, k).1[j].val.r].slots;
      PlainElements(h[x]);
      assert MatchValue(h, h[x].slots[i].val, vs[i].val, true, cells, c, b);
      LinkedCached(c, b, Ref(y), vs[i].val);
      CachedCovered(h, c, y);
    } else {
      SupportedEntries(h, x);
      assert CachedEntries(h, c, k)[i].val == Ref(y);
    }
  }

  lemma {:induction false} LinkedCached(c: seq<Value>, b: seq<nat>, x: Value, v: Value)
    requires Linked(c, b, x, v)
    ensures x in c
  {
  }

  lemma {:induction false} FaithfulPaired(h: Heap, c: seq<Value>, b: seq<nat>, rel: set<(nat, nat)>, k: nat)
    requires |b| == |c| && k < |c| && Distinct(c) && c[k] in Faithful(h, c, b, rel)
    ensures IsObjectRef(h, c[k]) && (c[k].r, b[k]) in rel
  {
    var j :| 0 <= j < |c| && IsObjectRef(h, c[j]) && (c[j].r, b[j]) in rel && c[j] == c[k];
    assert j == k;
  }

  lemma {:induction false} CoveredSupported(h: Heap, c: seq<Value>, b: seq<nat>, cells: Heap, rel: set<(nat, nat)>,
      root: nat, r: nat)
    requires WellFormed(h, root) && Rebuilt(h, 0, cells, c, b) && IsIsomorphism(rel, h, root, cells, 0)
    requires InGraph(h, root, c) && AllObjects(h, c) && forall k :: 0 <= k < |c| ==> c[k] in Faithful(h, c, b, rel)
    requires Distinct(c) && r in Covered(h, c)
    ensures r in h && SupportedCell(h, r)
  {
    var k, i := CoveredKinds(h, c, b, cells, r);
    assert c[k] in Faithful(h, c, b, rel);
    FaithfulPaired(h, c, b, rel, k);
    assert Reachable(h, root, c[k].r);
    FaithfulSlots(h, c, b, cells, rel, root, k);
    if h[r].kind.Array? {
      assert h[c[k].r].slots[i].val == Ref(r) && Edge(h, c[k].r, r);
      ReachableStep(h, root, c[k].r, r);
      var v := Slots(h, cells, c, b, k).1[i].val;
      assert SameCell(rel, h[c[k].r], cells[b[k]]);
      assert SameValue(rel, Ref(r), v);
      FaithfulElements(h, c, b, cells, rel, root, r, v.r);
    }
  }

  /** An isomorphic result means that everything in reach is supported, and every object in reach is cached. */
  lemma {:induction false} IsomorphicSupported(h: Heap, root: nat, b: seq<nat>, rel: set<(nat, nat)>)
    requires WellFormed(h, root)
    requires var (t, c) := Serialized(h, root);
      t.JNode? && Described(h, root, c, b, Inflated(t)) && IsIsomorphism(rel, h, root, Inflated(t), 0)
    ensures Supported(h, root)
  {
    var (t, c) := Serialized(h, root);
    var cells := Inflated(t);
    AllFaithful(h, root, b, rel);
    forall k | 0 <= k < |c|
      ensures IsObjectRef(h, c[k])
    {
      assert c[k] in Faithful(h, c, b, rel);
    }
    forall x | x in Covered(h, c)
      ensures x in h && SupportedCell(h, x)
    {
      CoveredSupported(h, c, b, cells, rel, root, x);
    }
    forall x, y | x in Covered(h, c) && Edge(h, x, y)
      ensures y in Covered(h, c)
    {
      CoveredStep(h, c, b, cells, x, y);
    }
    assert c[0].r in Covered(h, c) && IsObjectRef(h, c[0]);
    forall r | Reachable(h, root, r)
      ensures r in Covered(h, c)
    {
      ReachableWithin(h, root, r, Covered(h, c));
    }
  }

  // ----- what is expanded

  /** `serialize` cannot help expanding `x`: every set that holds the root, and with each value what its
      expansion leads to, holds `x`. */
  ghost predicate IsExpanded(h: Heap, root: nat, x: Value) {
    forall w :: Closed(h, w) && Ref(root) in w ==> x in w
  }

  ghost predicate PlainArrays(h: Heap, root: nat) {
    forall r :: Reachable(h, root, r) && r in h && h[r].kind.Array? ==> IsPlainArray(h[r])
  }

  lemma {:induction false} ElementsCached(h: Heap, r: nat, cells: Heap, v: Value, c: seq<Value>, b: seq<nat>)
    requires r in h && h[r].kind.Array? && MatchArray(h, r, cells, v, c, b)
    ensures forall j :: 0 <= j < |Elements(h[r])| ==> Elements(h[r])[j].val in c
  {
    var ss, vs := Elements(h[r]), cells[v.r].slots;
    forall j | 0 <= j < |ss|
      ensures ss[j].val in c
    {
      assert MatchValue(h, ss[j].val, vs[j].val, true, cells, c, b);
      LinkedCached(c, b, ss[j].val, vs[j].val);
    }
  }

  lemma {:induction false} CacheIsClosed(h: Heap, u: set<Value>, c: seq<Value>, b: seq<nat>, cells: Heap)
    requires Rebuilt(h, 0, cells, c, b) && Closed(h, u) && forall k :: 0 <= k < |c| ==> c[k] in u
    ensures Closed(h, CacheSet(c))
  {
    var w := CacheSet(c);
    forall x | x in w
      ensures (x.Ref? ==> x.r in h) && NoIds(Entries(h, x)) && SlotsLead(h, w, Entries(h, x), false)
    {
      var k :| 0 <= k < |c| && c[k] == x;
      assert MatchObject(h, c[k], b[k], cells, c, b);
      forall i | 0 <= i < |Entries(h, x)|
        ensures Leads(h, w, Entries(h, x)[i].val, false)
      {
        var y, v := Entries(h, x)[i].val, cells[b[k]].slots[i].val;
        assert MatchValue(h, y, v, false, cells, c, b);
        CachedLeads(h, c, b, cells, y, v);
      }
    }
  }

  lemma {:induction false} CachedLeads(h: Heap, c: seq<Value>, b: seq<nat>, cells: Heap, y: Value, v: Value)
    requires Rebuilt(h, 0, cells, c, b) && y != Undefined && MatchValue(h, y, v, false, cells, c, b)
    ensures Leads(h, CacheSet(c), y, false)
  {
    if y.Ref? {
      if h[y.r].kind.Array? {
        ElementsCached(h, y.r, cells, v, c, b);
        forall j | 0 <= j < |Elements(h[y.r])|
          ensures CacheableIn(h, CacheSet(c), Elements(h[y.r])[j].val)
        {
          var k :| 0 <= k < |c| && c[k] == Elements(h[y.r])[j].val;
          assert MatchObject(h, c[k], b[k], cells, c, b);
        }
      } else {
        LinkedCached(c, b, y, v);
      }
    }
  }

  /** Expanded on its own, or an array whose elements all are. */
  ghost predicate Known(h: Heap, w: set<Value>, r: nat)
    requires r in h
  {
    Ref(r) in w || (h[r].kind.Array? && ElementsIn(h, w, r))
  }

  lemma {:induction false} KnownStep(h: Heap, w: set<Value>, x: nat, y: nat)
    requires Closed(h, w) && x in h && y in h && Known(h, w, x) && Edge(h, x, y)
    requires h[x].kind.Array? ==> IsPlainArray(h[x])
    ensures Known(h, w, y)
  {
    var i :| 0 <= i < |h[x].slots| && h[x].slots[i].val == Ref(y);
    if Ref(x) in w {
      KeptAt(h[x].slots, i);
      var j := |Kept(h[x].slots[..i])|;
      assert Entries(h, Ref(x))[j].val == Ref(y);
      assert Leads(h, w, Ref(y), false);
    } else {
      PlainElements(h[x]);
      assert CacheableIn(h, w, Elements(h[x])[i].val);
    }
  }

  lemma {:induction false} ReachableKnown(h: Heap, root: nat, w: set<Value>, r: nat)
    requires WellFormed(h, root) && PlainArrays(h, root) && Reachable(h, root, r)
    requires Closed(h, w) && Ref(root) in w
    ensures r in h && Known(h, w, r)
  {
    var known := set q | q in h && Known(h, w, q) && Reachable(h, root, q);
    forall x, y | x in known && Edge(h, x, y)
      ensures y in known
    {
      ReachableStep(h, root, x, y);
      KnownStep(h, w, x, y);
    }
    ReachableRoot(h, root);
    ReachableWithin(h, root, r, known);
  }

  /** On every finite graph, `serialize` expands exactly the values it cannot help expanding, each of them once,
      and numbers them 0, 1, 2, ... in the depth-first preorder in which the text lists them. */
  lemma {:induction false} ExpandsOnce(h: Heap, root: nat)
    requires WellFormed(h, root)
    ensures var (t, c) := Serialized(h, root);
      && Distinct(c)
      && NodeIds(t) == Numbered(0, |c|)
      && forall x :: x in c <==> IsExpanded(h, root, x)
  {
    var b := Describe(h, root);
    var (t, c) := Serialized(h, root);
    var u := Cacheable(h, root);
    CacheableClosed(h, root);
    CacheIsClosed(h, u, c, b, Inflated(t));
    assert c[0] == Ref(root);
    forall x, w | x in c && Closed(h, w) && Ref(root) in w
      ensures x in w
    {
      CachedGrows(h, u, w, Ref(root), []);
    }
    forall x | IsExpanded(h, root, x)
      ensures x in c
    {
      assert Closed(h, CacheSet(c)) && Ref(root) in CacheSet(c);
    }
  }

  /** What is expanded is reachable: besides objects only the root and the elements of arrays.  Where arrays have
      no holes and no further properties, every reachable object is expanded. */
  lemma {:induction false} ExpandsObjects(h: Heap, root: nat)
    requires WellFormed(h, root)
    ensures forall x :: IsExpanded(h, root, x) ==> IsCacheable(h, root, x)
    ensures PlainArrays(h, root) ==> forall x :: IsObjectRef(h, x) && Reachable(h, root, x.r) ==> IsExpanded(h, root, x)
  {
    var u := Cacheable(h, root);
    CacheableClosed(h, root);
    assert forall x :: IsExpanded(h, root, x) ==> x in u;
    if PlainArrays(h, root) {
      forall x, w | IsObjectRef(h, x) && Reachable(h, root, x.r) && Closed(h, w) && Ref(root) in w
        ensures x in w
      {
        ReachableKnown(h, root, w, x.r);
      }
    }
  }

  lemma {:induction false} SupportedPlain(h: Heap, root: nat)
    requires Supported(h, root)
    ensures PlainArrays(h, root)
  {
    assert forall r :: Reachable(h, root, r) && r in h ==> SupportedCell(h, r);
  }

  /** In a supported graph exactly the reachable objects are expanded. */
  lemma {:induction false} ExpandsOnlyObjects(h: Heap, root: nat)
    requires WellFormed(h, root) && Supported(h, root)
    ensures forall x :: IsExpanded(h, root, x) <==> IsObjectRef(h, x) && Reachable(h, root, x.r)
  {
    var c := Serialized(h, root).1;
    ExpandsOnce(h, root);
    ExpandsObjects(h, root);
    SupportedPlain(h, root);
    forall x | x in c
      ensures IsObjectRef(h, x) && Reachable(h, root, x.r)
    {
      assert IsCacheable(h, root, x);
      SupportedCacheable(h, root, x);
    }
  }

  // ----- the theorems

  /** Some reachable object or array has a property of that name. */
  ghost predicate HasField(h: Heap, root: nat, key: string) {
    exists r :: Reachable(h, root, r) && r in h && HasKey(h[r].slots, key)
  }

  /** `serialize` throws if and only if it comes to expand a value with a field `hasOwnProperty`. */
  lemma {:induction false} ThrowsExactly(h: Heap, root: nat)
    requires WellFormed(h, root)
    ensures Outcome(h, root).Threw?
      <==> exists r :: IsExpanded(h, root, Ref(r)) && r in h && HasKey(h[r].slots, "hasOwnProperty")
  {
    var c := Serialized(h, root).1;
    ExpandsOnce(h, root);
    if r :| IsExpanded(h, root, Ref(r)) && r in h && HasKey(h[r].slots, "hasOwnProperty") {
      var k :| 0 <= k < |c| && c[k] == Ref(r);
      assert Blocks(h, c[k]);
    }
    if k :| 0 <= k < |c| && Blocks(h, c[k]) {
      assert IsExpanded(h, root, Ref(c[k].r)) && c[k].r in h;
    }
  }

  lemma {:induction false} PlainArrayKeys(c: Cell)
    requires IsPlainArray(c)
    ensures !HasKey(c.slots, HAS_OWN)
  {
    assert forall i: nat :: Decimal(i)[0] != HAS_OWN[0];
  }

  /** Where arrays are plain, it throws if and only if such a field is reachable at all. */
  lemma {:induction false} ThrowsForReachable(h: Heap, root: nat)
    requires WellFormed(h, root) && PlainArrays(h, root)
    ensures Outcome(h, root).Threw? <==> HasField(h, root, HAS_OWN)
  {
    ThrowsExactly(h, root);
    ExpandsObjects(h, root);
    if r :| IsExpanded(h, root, Ref(r)) && r in h && HasKey(h[r].slots, "hasOwnProperty") {
      CacheableReachable(h, root, Ref(r));
      assert Reachable(h, root, r);
    }
    if r :| Reachable(h, root, r) && r in h && HasKey(h[r].slots, HAS_OWN) {
      if h[r].kind.Object? {
        assert IsObjectRef(h, Ref(r)) && IsExpanded(h, root, Ref(r));
      } else {
        PlainArrayKeys(h[r]);
        assert false;
      }
    }
  }

  /** Apart from the exception, the tree restores the graph if and only if it is supported. */
  lemma {:induction false} TreeRoundTrip(h: Heap, root: nat)
    requires WellFormed(h, root)
    ensures var t := Serialized(h, root).0;
      t.JNode? && PrimitiveIds(t) && (Isomorphic(h, root, Inflated(t), 0) <==> Supported(h, root))
  {
    var b := Describe(h, root);
    var (t, c) := Serialized(h, root);
    if Supported(h, root) {
      CachesObjects(h, root, c);
      PairingIsIsomorphism(h, root, c, b, Inflated(t));
    }
    if rel :| IsIsomorphism(rel, h, root, Inflated(t), 0) {
      IsomorphicSupported(h, root, b, rel);
    }
  }

  /** There is a text, and it inflates to a graph isomorphic to the original. */
  ghost predicate Restores(h: Heap, root: nat)
    requires WellFormed(h, root)
  {
    var out := Outcome(h, root);
    out.Text? && out.tree.JNode? && Isomorphic(h, root, Inflated(out.tree), 0)
  }

  /** The round trip restores the graph if and only if the root is an object, every reachable array holds only
      objects, without holes and without other properties, and no reachable object has a field that is undefined, a
      field that is a string starting with "CIRCULAR-", or a field named `hasOwnProperty`. */
  lemma {:induction false} RoundTripExact(h: Heap, root: nat)
    requires WellFormed(h, root)
    ensures Restores(h, root) <==> Supported(h, root) && !HasField(h, root, HAS_OWN)
  {
    TreeRoundTrip(h, root);
    if Supported(h, root) {
      SupportedPlain(h, root);
      ThrowsForReachable(h, root);
    }
  }

  /** The two calls of the source, one after the other. */
  method RoundTrip(h: Heap, root: nat) returns (threw: bool, h': Heap, root': nat)
    requires WellFormed(h, root)
    ensures !threw && Isomorphic(h, root, h', root') <==> Supported(h, root) && !HasField(h, root, HAS_OWN)
    ensures threw <==> exists r :: IsExpanded(h, root, Ref(r)) && r in h && HasKey(h[r].slots, "hasOwnProperty")
  {
    RoundTripExact(h, root);
    TreeRoundTrip(h, root);
    ThrowsExactly(h, root);
    var serializer := new Serializer(h);
    var out := serializer.SerializeRoot(root);
    threw, h', root' := out.Threw?, map[], 0;
    if !threw {
      var deserializer := new Deserializer();
      root' := deserializer.DeserializeText(out.tree);
      h' := deserializer.heap;
    }
  }

  // ----- the name `idCount` cannot be recovered, whatever the text

  ghost predicate NoIdFields(cells: Heap) {
    forall q, i :: q in cells && 0 <= i < |cells[q].slots| ==> cells[q].slots[i].key != ID_COUNT
  }

  lemma {:induction false} InflateDropsIds(t: Json, lo: nat, dc: Cache)
    requires t.JNode?
    ensures NoIdFields(Inflate(t, lo, dc).0)
    decreases t
  {
    InflateSlotsDropsIds(t.slots, lo + 1, dc[CacheKey(t.slots) := lo]);
  }

  lemma {:induction false} InflateSlotsDropsIds(slots: seq<JSlot>, lo: nat, dc: Cache)
    ensures var (ss, cells, _) := InflateSlots(slots, lo, dc);
      NoIds(ss) && NoIdFields(cells)
    decreases slots
  {
    if slots != [] {
      var s := slots[0];
      if s.val.JNode? { InflateDropsIds(s.val, lo, dc); }
      InflateSlotsDropsIds(slots[1..], lo + Count(s.val),
                           if s.key == ID_COUNT then dc else InflateValue(s.val, lo, dc).2);
    }
  }

  /** No text at all inflates to a graph in which a reachable object or array has a field `idCount`:
      this is why `WellFormed` keeps that name out. */
  lemma {:induction false} ReservedNameIsLost(h: Heap, root: nat, text: Json, r: nat, i: nat)
    requires text.JNode? && Isomorphic(h, root, Inflated(text), 0)
    requires Reachable(h, root, r) && r in h && i < |h[r].slots|
    ensures h[r].slots[i].key != ID_COUNT
  {
    var rel: set<(nat, nat)> :| IsIsomorphism(rel, h, root, Inflated(text), 0);
    var covered: set<nat> := set p: (nat, nat) | p in rel :: p.0;
    forall x: nat, y: nat | x in covered && Edge(h, x, y)
      ensures y in covered
    {
      var p: (nat, nat) :| p in rel && p.0 == x;
      var j :| 0 <= j < |h[x].slots| && h[x].slots[j].val == Ref(y);
      assert SameCell(rel, h[p.0], Inflated(text)[p.1]);
      assert SameValue(rel, Ref(y), Inflated(text)[p.1].slots[j].val);
      assert (y, Inflated(text)[p.1].slots[j].val.r) in rel;
    }
    assert (root, 0) in rel;
    ReachableWithin(h, root, r, covered);
    var p: (nat, nat) :| p in rel && p.0 == r;
    assert SameCell(rel, h[r], Inflated(text)[p.1]);
    InflateDropsIds(text, 0, map[]);
  }

  // ----- inputs that do not come back

  /** One object with one field. */
  function Single(key: string, v: Value): (h: Heap) {
    map[0 := Cell(Object, [Slot(key, v)])]
  }

  /** The same, the field holding an array. */
  function Holding(kind: Kind, elems: seq<Slot>): (h: Heap) {
    map[0 := Cell(Object, [Slot("a", Ref(1))]), 1 := Cell(kind, elems), 2 := Cell(Object, [])]
  }

  lemma {:induction false} CircularStringIsLost()
    ensures var h := Single("s", Str("CIRCULAR-0"));
      WellFormed(h, 0) && !Restores(h, 0)
  {
    var h := Single("s", Str("CIRCULAR-0"));
    WellFormedThroughout(h, 0);
    RoundTripExact(h, 0);
    ReachableRoot(h, 0);
    assert !SupportedSlot(h, false, h[0].slots[0].val);
  }

  lemma {:induction false} UndefinedIsLost()
    ensures var h := Single("u", Undefined);
      WellFormed(h, 0) && !Restores(h, 0)
  {
    var h := Single("u", Undefined);
    WellFormedThroughout(h, 0);
    RoundTripExact(h, 0);
    ReachableRoot(h, 0);
    assert !SupportedSlot(h, false, h[0].slots[0].val);
  }

  lemma {:induction false} HasOwnPropertyThrows()
    ensures var h := Single(HAS_OWN, Lit("1"));
      WellFormed(h, 0) && Outcome(h, 0) == Threw
  {
    var h := Single(HAS_OWN, Lit("1"));
    WellFormedThroughout(h, 0);
    ThrowsExactly(h, 0);
    assert h[0].slots[0].key == HAS_OWN;
    assert Blocks(h, Ref(0)) && IsExpanded(h, 0, Ref(0));
  }

  lemma {:induction false} UnsupportedArrayIsLost(kind: Kind, elems: seq<Slot>)
    requires var h := Holding(kind, elems);
      kind.Array? && WellFormed(h, 0) && !SupportedCell(h, 1)
    ensures !Restores(Holding(kind, elems), 0)
  {
    var h := Holding(kind, elems);
    RoundTripExact(h, 0);
    ReachableRoot(h, 0);
    assert h[0].slots[0].val == Ref(1);
    assert Edge(h, 0, 1);
    ReachableStep(h, 0, 0, 1);
  }

  /** Holes, named properties and elements that are no objects: an array of one number, an empty array with a
      property, and a hole before an object. */
  lemma {:induction false} ArraysAreLost()
    ensures var h := Holding(Array(1), [Slot("0", Lit("7"))]);
      WellFormed(h, 0) && !Restores(h, 0)
    ensures var h := Holding(Array(0), [Slot("foo", Lit("7"))]);
      WellFormed(h, 0) && !Restores(h, 0)
    ensures var h := Holding(Array(2), [Slot("1", Ref(2))]);
      WellFormed(h, 0) && !Restores(h, 0)
  {
    var number, named, hole := [Slot("0", Lit("7"))], [Slot("foo", Lit("7"))], [Slot("1", Ref(2))];
    WellFormedThroughout(Holding(Array(1), number), 0);
    WellFormedThroughout(Holding(Array(0), named), 0);
    WellFormedThroughout(Holding(Array(2), hole), 0);
    assert !SupportedSlot(Holding(Array(1), number), true, number[0].val);
    UnsupportedArrayIsLost(Array(1), number);
    UnsupportedArrayIsLost(Array(0), named);
    UnsupportedArrayIsLost(Array(2), hole);
  }
}
