/** `exports.serialize` of lib/serializer.js: a cyclic, shared object graph becomes a tree. */
module Serialize {
  import opened Decimals
  import opened ObjectGraph

  /** What `for (prop in obj)` enumerates, filtered by `hasOwnProperty`.  A string enumerates its
      characters; a number, a boolean, null or undefined enumerates nothing. */
  function Properties(h: Heap, x: Value): (items: seq<Slot>)
    requires x.Ref? ==> x.r in h
  {
    match x
    case Ref(r) => h[r].slots
    case Str(s) => Characters(s, 0)
    case _ => []
  }

  /** The properties that reach the text: `JSON.stringify` drops a property that is undefined. */
  function Entries(h: Heap, x: Value): (items: seq<Slot>)
    requires x.Ref? ==> x.r in h
  {
    Kept(Properties(h, x))
  }

  function Kept(slots: seq<Slot>): (items: seq<Slot>)
    ensures |items| <= |slots|
    ensures forall k :: 0 <= k < |items| ==> items[k] in slots && items[k].val != Undefined
  {
    if slots == [] then []
    else if slots[0].val == Undefined then Kept(slots[1..])
    else [slots[0]] + Kept(slots[1..])
  }

  /** Where the loop over all the properties stands in the list of those that are kept. */
  lemma {:induction false} KeptAt(slots: seq<Slot>, i: nat)
    requires i < |slots|
    ensures var j := |Kept(slots[..i])|;
      if slots[i].val == Undefined then |Kept(slots[..i + 1])| == j
      else |Kept(slots[..i + 1])| == j + 1 && j < |Kept(slots)| && Kept(slots)[j] == slots[i]
  {
    var rest := slots[1..];
    assert slots[..i + 1][0] == slots[0] && slots[..i + 1][1..] == rest[..i];
    if i > 0 {
      KeptAt(rest, i - 1);
      assert slots[..i][0] == slots[0] && slots[..i][1..] == rest[..i - 1];
    }
  }

  lemma {:induction false} KeptAll(slots: seq<Slot>)
    ensures |Kept(slots)| == |slots| <==> forall i :: 0 <= i < |slots| ==> slots[i].val != Undefined
    ensures |Kept(slots)| == |slots| ==> Kept(slots) == slots
  {
    if slots != [] {
      KeptAll(slots[1..]);
    }
  }

  /** What `arr[idx]` reads for each `idx` below the length: a hole reads as undefined, and a property that is not
      an index is not read at all. */
  function Elements(c: Cell): (items: seq<Slot>)
    requires c.kind.Array?
    ensures |items| == c.kind.length && NoIds(items)
    ensures forall i :: 0 <= i < |items| ==> items[i] == Slot(Decimal(i), ValueAt(c.slots, Decimal(i)))
  {
    assert forall i: nat :: Decimal(i)[0] != ID_COUNT[0];
    seq(c.kind.length, i requires 0 <= i < c.kind.length => Slot(Decimal(i), ValueAt(c.slots, Decimal(i))))
  }

  function ValueAt(slots: seq<Slot>, key: string): (v: Value)
    ensures v == Undefined || exists i :: 0 <= i < |slots| && slots[i] == Slot(key, v)
  {
    if slots == [] then Undefined
    else if slots[0].key == key then assert slots[0] == Slot(key, slots[0].val); slots[0].val
    else
      var w := ValueAt(slots[1..], key);
      assert forall i :: 0 <= i < |slots| - 1 ==> slots[1..][i] == slots[i + 1];
      w
  }

  lemma {:induction false} ValueAtFirst(slots: seq<Slot>, i: nat)
    requires i < |slots| && forall j :: 0 <= j < i ==> slots[j].key != slots[i].key
    ensures ValueAt(slots, slots[i].key) == slots[i].val
  {
    if i > 0 {
      assert slots[0].key != slots[i].key;
      ValueAtFirst(slots[1..], i - 1);
    }
  }

  lemma {:induction false} ValueAtNone(slots: seq<Slot>, key: string)
    requires !HasKey(slots, key)
    ensures ValueAt(slots, key) == Undefined
  {
    if slots != [] {
      assert slots[0].key != key;
      assert forall i :: 0 <= i < |slots| - 1 ==> slots[1..][i] == slots[i + 1];
      ValueAtNone(slots[1..], key);
    }
  }

  lemma {:induction false} PlainElements(c: Cell)
    requires IsPlainArray(c)
    ensures Elements(c) == c.slots
  {
    forall i | 0 <= i < |c.slots|
      ensures Elements(c)[i] == c.slots[i]
    {
      forall j | 0 <= j < i
        ensures c.slots[j].key != c.slots[i].key
      {
        if c.slots[j].key == c.slots[i].key { DecimalInjective(i, j); }
      }
      ValueAtFirst(c.slots, i);
    }
  }

  /** The characters of a string from position `i` on, as slots. */
  function Characters(s: string, i: nat): (slots: seq<Slot>)
    requires i <= |s|
    ensures forall k :: 0 <= k < |slots| ==> slots[k].val.Str? && slots[k].key != ID_COUNT
    decreases |s| - i
  {
    if i == |s| then []
    else
      assert Decimal(i)[0] != ID_COUNT[0];
      [Slot(Decimal(i), Str([s[i]]))] + Characters(s, i + 1)
  }

  // ----- the values that may enter the cache

  /** `x`, met as a field or (`elems`) as an array element, leads only to cacheable values in `u`. */
  ghost predicate Leads(h: Heap, u: set<Value>, x: Value, elems: bool) {
    && (x.Ref? ==> x.r in h)
    && (if elems then x in u else x != Undefined)
    && (!elems && x.Ref? && h[x.r].kind.Object? ==> x in u)
    && (!elems && x.Ref? && h[x.r].kind.Array? ==> ElementsIn(h, u, x.r))
  }

  ghost predicate ElementsIn(h: Heap, u: set<Value>, r: nat)
    requires r in h && h[r].kind.Array?
  {
    var elems := Elements(h[r]);
    forall i :: 0 <= i < |elems| ==> CacheableIn(h, u, elems[i].val)
  }

  ghost predicate CacheableIn(h: Heap, u: set<Value>, x: Value) {
    x in u && (x.Ref? ==> x.r in h)
  }

  ghost predicate SlotsLead(h: Heap, u: set<Value>, slots: seq<Slot>, elems: bool) {
    forall i :: 0 <= i < |slots| ==> Leads(h, u, slots[i].val, elems)
  }

  /** Whatever is expanded in `u` leads to values in `u` again. */
  ghost predicate Closed(h: Heap, u: set<Value>) {
    forall x :: x in u ==>
      (x.Ref? ==> x.r in h) && NoIds(Entries(h, x)) && SlotsLead(h, u, Entries(h, x), false)
  }

  ghost function CacheSet(cache: seq<Value>): (s: set<Value>) {
    set x | x in cache
  }

  /** How many cacheable values have not been cached yet: the termination measure of `serialize`. */
  ghost function Uncached(u: set<Value>, cache: seq<Value>): (n: nat) {
    |u - CacheSet(cache)|
  }

  lemma {:induction false} UncachedMonotone(u: set<Value>, c: seq<Value>, c': seq<Value>)
    requires c <= c'
    ensures Uncached(u, c') <= Uncached(u, c)
  {
    assert forall x :: x in c ==> x in c';
    SubsetSize(u - CacheSet(c'), u - CacheSet(c));
  }

  lemma {:induction false} UncachedPush(u: set<Value>, c: seq<Value>, x: Value)
    requires x in u && x !in c
    ensures Uncached(u, c + [x]) < Uncached(u, c)
  {
    assert u - CacheSet(c + [x]) == (u - CacheSet(c)) - {x};
  }

  lemma {:induction false} SubsetSize(a: set<Value>, b: set<Value>)
    requires a <= b
    ensures |a| <= |b|
  {
    if a != {} {
      var x :| x in a;
      SubsetSize(a - {x}, b - {x});
    }
  }

  /** `objCache.indexOf(x)` of a value that is present. */
  function IndexOf(c: seq<Value>, x: Value): (k: nat)
    requires x in c
    ensures k < |c| && c[k] == x && x !in c[..k]
  {
    if c[0] == x then 0 else 1 + IndexOf(c[1..], x)
  }

  // ----- the specification: the result and the grown cache as functions

  function Copy(x: Value): (json: Json) {
    match x
    case Str(s) => JStr(s)
    case Lit(t) => JLit(t)
    case _ => JLit("null")
  }

  function SerSlots(h: Heap, ghost u: set<Value>, slots: seq<Slot>, elems: bool, c: seq<Value>)
    : (res: (seq<JSlot>, seq<Value>))
    requires Closed(h, u) && SlotsLead(h, u, slots, elems)
    ensures c <= res.1 && |res.0| == |slots|
    decreases Uncached(u, c), if elems then 0 else 1, |slots|, 2
  {
    if slots == [] then ([], c)
    else
      var (t, c1) := SerValue(h, u, slots[0].val, elems, c);
      UncachedMonotone(u, c, c1);
      var (ts, c2) := SerSlots(h, u, slots[1..], elems, c1);
      ([JSlot(slots[0].key, t)] + ts, c2)
  }

  function SerValue(h: Heap, ghost u: set<Value>, x: Value, elems: bool, c: seq<Value>): (res: (Json, seq<Value>))
    requires Closed(h, u) && Leads(h, u, x, elems)
    ensures c <= res.1
    decreases Uncached(u, c), if elems then 0 else 1, 0, 1
  {
    if !elems && !x.Ref? then (Copy(x), c)
    else if !elems && h[x.r].kind.Array? then
      var (ts, c1) := SerSlots(h, u, Elements(h[x.r]), true, c);
      (JNode(true, ts), c1)
    else SerCached(h, u, x, c)
  }

  /** A value looked up in the cache: a back reference, or a first visit that is pushed and expanded. */
  function SerCached(h: Heap, ghost u: set<Value>, x: Value, c: seq<Value>): (res: (Json, seq<Value>))
    requires Closed(h, u) && x in u
    ensures c <= res.1 && x in res.1
    decreases Uncached(u, c), 0, 0, 0
  {
    if x in c then (JStr(CIRCULAR + Decimal(IndexOf(c, x))), c)
    else
      UncachedPush(u, c, x);
      var (ts, c1) := SerSlots(h, u, Entries(h, x), false, c + [x]);
      assert c1[|c|] == x;
      (JNode(false, [JSlot(ID_COUNT, JLit(Decimal(|c|)))] + ts), c1)
  }

  // ----- the universe of a top-level call: what is reachable and may be cached

  ghost predicate IsCacheable(h: Heap, root: nat, x: Value) {
    || x == Ref(root)
    || (IsObjectRef(h, x) && Reachable(h, root, x.r))
    || (exists q :: q in h && h[q].kind.Array? && Reachable(h, root, q) && IsElement(h[q], x))
  }

  predicate IsElement(c: Cell, x: Value)
    requires c.kind.Array?
  {
    exists i :: 0 <= i < |Elements(c)| && Elements(c)[i].val == x
  }

  ghost function AllValues(h: Heap, root: nat): (s: set<Value>) {
    {Ref(root), Undefined} + (set r | r in h :: Ref(r))
    + (set r, i | r in h && 0 <= i < |h[r].slots| :: h[r].slots[i].val)
  }

  ghost function Cacheable(h: Heap, root: nat): (u: set<Value>)
    ensures forall x :: x in u <==> IsCacheable(h, root, x)
  {
    set x | x in AllValues(h, root) && IsCacheable(h, root, x)
  }

  lemma {:induction false} CacheableReachable(h: Heap, root: nat, x: Value)
    requires WellFormed(h, root) && IsCacheable(h, root, x)
    ensures x.Ref? ==> x.r in h && Reachable(h, root, x.r)
  {
    ReachableRoot(h, root);
    if x.Ref? && x != Ref(root) && !(IsObjectRef(h, x) && Reachable(h, root, x.r)) {
      var q :| q in h && h[q].kind.Array? && Reachable(h, root, q) && IsElement(h[q], x);
      var i :| 0 <= i < |h[q].slots| && h[q].slots[i].val == x;
      assert Edge(h, q, x.r);
      ReachableStep(h, root, q, x.r);
    }
  }

  lemma {:induction false} CacheableClosed(h: Heap, root: nat)
    requires WellFormed(h, root)
    ensures Closed(h, Cacheable(h, root)) && Ref(root) in Cacheable(h, root)
  {
    var u := Cacheable(h, root);
    forall x | x in u
      ensures (x.Ref? ==> x.r in h) && NoIds(Entries(h, x)) && SlotsLead(h, u, Entries(h, x), false)
    {
      CacheableReachable(h, root, x);
      forall i | 0 <= i < |Entries(h, x)|
        ensures Entries(h, x)[i].key != ID_COUNT && Leads(h, u, Entries(h, x)[i].val, false)
      {
        var s := Entries(h, x)[i];
        assert s in Properties(h, x);
        if x.Ref? { ReachableLeads(h, root, x.r, s); }
      }
    }
  }

  lemma {:induction false} ReachableLeads(h: Heap, root: nat, r: nat, s: Slot)
    requires WellFormed(h, root) && Reachable(h, root, r) && r in h && s in h[r].slots && s.val != Undefined
    ensures s.key != ID_COUNT && Leads(h, Cacheable(h, root), s.val, false)
  {
    if s.val.Ref? {
      assert Edge(h, r, s.val.r);
      ReachableStep(h, root, r, s.val.r);
      if h[s.val.r].kind.Array? {
        var elems := Elements(h[s.val.r]);
        forall i | 0 <= i < |elems|
          ensures CacheableIn(h, Cacheable(h, root), elems[i].val)
        {
          assert IsElement(h[s.val.r], elems[i].val);
          CacheableReachable(h, root, elems[i].val);
        }
      }
    }
  }

  /** The tree a top-level call returns as text, and the final cache. */
  function Serialized(h: Heap, root: nat): (res: (Json, seq<Value>))
    requires WellFormed(h, root)
  {
    CacheableClosed(h, root);
    SerCached(h, Cacheable(h, root), Ref(root), [])
  }

  /** A slot loop has done `i` slots: with those still to run, its result and its cache will be `all`. */
  ghost predicate Underway(h: Heap, u: set<Value>, slots: seq<Slot>, i: nat, elems: bool, c: seq<Value>,
                           done: seq<JSlot>, all: (seq<JSlot>, seq<Value>)) {
    && Closed(h, u) && SlotsLead(h, u, slots, elems) && i <= |slots|
    && var rest := SerSlots(h, u, slots[i..], elems, c);
      all == (done + rest.0, rest.1)
  }

  lemma {:induction false} UnderwayStart(h: Heap, u: set<Value>, slots: seq<Slot>, elems: bool, c: seq<Value>,
      head: seq<JSlot>)
    requires Closed(h, u) && SlotsLead(h, u, slots, elems)
    ensures var R := SerSlots(h, u, slots, elems, c);
      Underway(h, u, slots, 0, elems, c, head, (head + R.0, R.1))
  {
    assert slots[0..] == slots;
  }

  /** One iteration: `done` grows by the slot just serialized, and the total stays the same. */
  lemma {:induction false} UnderwayStep(h: Heap, u: set<Value>, slots: seq<Slot>, i: nat, elems: bool, c: seq<Value>,
      done: seq<JSlot>, all: (seq<JSlot>, seq<Value>))
    requires Underway(h, u, slots, i, elems, c, done, all) && i < |slots|
    ensures Leads(h, u, slots[i].val, elems)
    ensures var (t, c1) := SerValue(h, u, slots[i].val, elems, c);
      && Underway(h, u, slots, i + 1, elems, c1, done + [JSlot(slots[i].key, t)], all)
      && c1 <= all.1
  {
    assert slots[i..][0] == slots[i] && slots[i..][1..] == slots[i + 1..];
    var (t, c1) := SerValue(h, u, slots[i].val, elems, c);
    var rest := SerSlots(h, u, slots[i + 1..], elems, c1);
    assert done + ([JSlot(slots[i].key, t)] + rest.0) == done + [JSlot(slots[i].key, t)] + rest.0;
  }

  lemma {:induction false} UnderwayEnd(h: Heap, u: set<Value>, slots: seq<Slot>, elems: bool, c: seq<Value>,
      done: seq<JSlot>, all: (seq<JSlot>, seq<Value>))
    requires Underway(h, u, slots, |slots|, elems, c, done, all)
    ensures all == (done, c)
  {
    assert slots[|slots|..] == [] && done + [] == done;
  }

  /** What one call returns: the text of a tree when its id is 0, the tree itself otherwise; or the TypeError of
      a call `obj.hasOwnProperty(prop)` whose `obj` has a field of that name. */
  datatype Output = Text(tree: Json) | Nested(tree: Json) | Threw

  /** The first property that is enumerated makes the code throw. */
  predicate Blocks(h: Heap, x: Value) {
    x.Ref? && x.r in h && HasKey(h[x.r].slots, HAS_OWN)
  }

  /** Some value cached from position `from` on does. */
  ghost predicate SomeBlocks(h: Heap, from: nat, c: seq<Value>) {
    exists k :: from <= k < |c| && Blocks(h, c[k])
  }

  lemma {:induction false} BlocksPush(h: Heap, c: seq<Value>, x: Value, c': seq<Value>)
    requires c + [x] <= c'
    ensures SomeBlocks(h, |c|, c') <==> Blocks(h, x) || SomeBlocks(h, |c| + 1, c')
  {
    assert c'[|c|] == (c + [x])[|c|] == x;
    if SomeBlocks(h, |c|, c') {
      var k :| |c| <= k < |c'| && Blocks(h, c'[k]);
      assert k == |c| || |c| + 1 <= k;
    }
  }

  lemma {:induction false} BlocksJoin(h: Heap, from: nat, c: seq<Value>, c': seq<Value>)
    requires c <= c' && from <= |c|
    ensures SomeBlocks(h, from, c') <==> SomeBlocks(h, from, c) || SomeBlocks(h, |c|, c')
  {
    if k :| from <= k < |c'| && Blocks(h, c'[k]) {
      assert k < |c| ==> c[k] == c'[k];
    }
    if k :| from <= k < |c| && Blocks(h, c[k]) {
      assert c[k] == c'[k];
    }
  }

  /** What the top-level call returns: nothing, if it comes to expand a value that blocks it. */
  ghost function Outcome(h: Heap, root: nat): (out: Output)
    requires WellFormed(h, root)
  {
    var (t, c) := Serialized(h, root);
    if SomeBlocks(h, 0, c) then Threw else Text(t)
  }

  /** A call that began with cache `before` leaves the specified cache, or a part of it when it throws. */
  predicate Ended(threw: bool, before: seq<Value>, cache: seq<Value>, spec: seq<Value>) {
    before <= cache <= spec && (!threw ==> cache == spec)
  }

  /** The call without a cache, once the head object is in it. */
  lemma {:induction false} HeadExpanded(h: Heap, root: nat, threw: bool, cache: seq<Value>)
    requires WellFormed(h, root)
    ensures var u := Cacheable(h, root);
      && Closed(h, u) && Ref(root) in u
      && var R := SerSlots(h, u, Entries(h, Ref(root)), false, [Ref(root)]);
        && Serialized(h, root) == (JNode(false, [JSlot(ID_COUNT, JLit(Decimal(0)))] + R.0), R.1)
        && (Ended(threw, [Ref(root)], cache, R.1) && (threw <==> SomeBlocks(h, 0, cache)) ==>
              (Outcome(h, root).Threw? <==> threw))
  {
    var u := Cacheable(h, root);
    CacheableClosed(h, root);
    UncachedPush(u, [], Ref(root));
    assert [] + [Ref(root)] == [Ref(root)];
    var R := SerSlots(h, u, Entries(h, Ref(root)), false, [Ref(root)]);
    if Ended(threw, [Ref(root)], cache, R.1) {
      BlocksJoin(h, 0, cache, R.1);
    }
  }

  /** The recursion as the source runs it: one object at a time, sharing the growing `objCache`. */
  class Serializer {
    const heap: Heap
    var objCache: seq<Value>

    constructor (h: Heap)
      ensures heap == h && objCache == []
    {
      heap := h;
      objCache := [];
    }

    /** The call without a cache: the head object gets id 0. */
    method SerializeRoot(root: nat) returns (out: Output)
      requires WellFormed(heap, root)
      modifies this
      ensures out == Outcome(heap, root)
      ensures out.Text? ==> objCache == Serialized(heap, root).1
    {
      ghost var u := Cacheable(heap, root);
      HeadExpanded(heap, root, false, []);
      objCache := [Ref(root)];
      out := Serialize(Ref(root), 0, u);
      BlocksPush(heap, [], Ref(root), objCache);
      HeadExpanded(heap, root, out.Threw?, objCache);
    }

    /** `obj` is already in the cache, under `id`. */
    method Serialize(obj: Value, id: nat, ghost u: set<Value>) returns (out: Output)
      requires Closed(heap, u) && obj in u && |objCache| > 0
      modifies this
      ensures var R := SerSlots(heap, u, Entries(heap, obj), false, old(objCache));
        && Ended(out.Threw?, old(objCache), objCache, R.1)
        && (!out.Threw? ==> out.tree == JNode(false, [JSlot(ID_COUNT, JLit(Decimal(id)))] + R.0))
      ensures out.Threw? <==> Blocks(heap, obj) || SomeBlocks(heap, |old(objCache)|, objCache)
      ensures !out.Threw? ==> (out.Text? <==> id == 0)
      decreases Uncached(u, objCache), 1, 0
    {
      var newObj := [JSlot(ID_COUNT, JLit(Decimal(id)))];
      var props := Properties(heap, obj);
      ghost var before, items, j := objCache, Entries(heap, obj), 0;
      ghost var R := SerSlots(heap, u, items, false, objCache);
      ghost var all := (newObj + R.0, R.1);
      UnderwayStart(heap, u, items, false, objCache, newObj);
      assert props[..0] == [];
      var i := 0;
      while i < |props|
        invariant 0 <= i <= |props| && j == |Kept(props[..i])|
        invariant before <= objCache && !SomeBlocks(heap, |before|, objCache)
        invariant i > 0 ==> !Blocks(heap, obj)
        invariant Underway(heap, u, items, j, false, objCache, newObj, all)
      {
        if Blocks(heap, obj) {
          return Threw;
        }
        KeptAt(props, i);
        if props[i].val != Undefined {
          UnderwayStep(heap, u, items, j, false, objCache, newObj, all);
          UncachedMonotone(u, before, objCache);
          ghost var cached := objCache;
          var threw, t := SerializeProperty(props[i].val, u);
          BlocksJoin(heap, |before|, cached, objCache);
          if threw {
            return Threw;
          }
          newObj := newObj + [JSlot(props[i].key, t)];
          j := j + 1;
        }
        i := i + 1;
      }
      assert props[..i] == props;
      UnderwayEnd(heap, u, items, false, objCache, newObj, all);
      out := if id == 0 then Text(JNode(false, newObj)) else Nested(JNode(false, newObj));
    }

    /** The value of one property: an array, another object, or a value that is copied. */
    method SerializeProperty(x: Value, ghost u: set<Value>) returns (threw: bool, t: Json)
      requires Closed(heap, u) && |objCache| > 0 && Leads(heap, u, x, false)
      modifies this
      ensures var R := SerValue(heap, u, x, false, old(objCache));
        Ended(threw, old(objCache), objCache, R.1) && (!threw ==> t == R.0)
      ensures threw <==> SomeBlocks(heap, |old(objCache)|, objCache)
      decreases Uncached(u, objCache), 0, 2
    {
      if x.Ref? {
        if heap[x.r].kind.Array? {
          threw, t := SerializeArray(x.r, u);
        } else {
          threw, t := Replace(x, u);
        }
      } else {
        threw, t := false, Copy(x);
      }
    }

    /** The inner loop over the elements of a field that holds an array. */
    method SerializeArray(r: nat, ghost u: set<Value>) returns (threw: bool, t: Json)
      requires Closed(heap, u) && |objCache| > 0
      requires r in heap && heap[r].kind.Array? && Leads(heap, u, Ref(r), false)
      modifies this
      ensures var R := SerValue(heap, u, Ref(r), false, old(objCache));
        Ended(threw, old(objCache), objCache, R.1) && (!threw ==> t == R.0)
      ensures threw <==> SomeBlocks(heap, |old(objCache)|, objCache)
      decreases Uncached(u, objCache), 0, 1
    {
      ghost var before, elems := objCache, Elements(heap[r]);
      assert SlotsLead(heap, u, elems, true);
      ghost var R := SerSlots(heap, u, elems, true, objCache);
      ghost var all := ([] + R.0, R.1);
      UnderwayStart(heap, u, elems, true, objCache, []);
      var newArr := [];
      var idx := 0;
      while idx < heap[r].kind.length
        invariant 0 <= idx <= |elems|
        invariant before <= objCache && !SomeBlocks(heap, |before|, objCache)
        invariant Underway(heap, u, elems, idx, true, objCache, newArr, all)
      {
        UnderwayStep(heap, u, elems, idx, true, objCache, newArr, all);
        UncachedMonotone(u, before, objCache);
        ghost var cached := objCache;
        var e;
        threw, e := Replace(ValueAt(heap[r].slots, Decimal(idx)), u);
        BlocksJoin(heap, |before|, cached, objCache);
        if threw {
          return true, e;
        }
        newArr := newArr + [JSlot(Decimal(idx), e)];
        idx := idx + 1;
      }
      UnderwayEnd(heap, u, elems, true, objCache, newArr, all);
      assert [] + R.0 == R.0;
      threw, t := false, JNode(true, newArr);
    }

    /** The cache test both loops make: a back reference to a value already seen, or push it and serialize it. */
    method Replace(x: Value, ghost u: set<Value>) returns (threw: bool, t: Json)
      requires Closed(heap, u) && x in u && |objCache| > 0
      modifies this
      ensures var R := SerCached(heap, u, x, old(objCache));
        Ended(threw, old(objCache), objCache, R.1) && (!threw ==> t == R.0)
      ensures threw <==> SomeBlocks(heap, |old(objCache)|, objCache)
      decreases Uncached(u, objCache), 0, 0
    {
      if x in objCache {
        threw, t := false, JStr(CIRCULAR + Decimal(IndexOf(objCache, x)));
      } else {
        UncachedPush(u, objCache, x);
        ghost var before := objCache;
        var id := |objCache|;
        objCache := objCache + [x];
        var out := Serialize(x, id, u);
        BlocksPush(heap, before, x, objCache);
        threw, t := out.Threw?, if out.Threw? then JLit("null") else out.tree;
      }
    }
  }
}
