/** `exports.deserialize` of lib/serializer.js: the tree becomes a graph again, rewritten in place. */
module Deserialize {
  import opened Decimals
  import opened ObjectGraph

  type Cache = map<string, nat>

  // ----- what `JSON.parse` allocates: one cell per node, numbered in preorder from `lo`

  function Count(t: Json): (n: nat) {
    match t
    case JNode(_, slots) => 1 + CountSlots(slots)
    case _ => 0
  }

  function CountSlots(slots: seq<JSlot>): (n: nat) {
    if slots == [] then 0 else Count(slots[0].val) + CountSlots(slots[1..])
  }

  /** The length of a parsed array is the number of its elements, whatever is deleted from it later. */
  function KindOf(t: Json): (kind: Kind)
    requires t.JNode?
  {
    if t.isArray then Array(|t.slots|) else Object
  }

  function ParsedValue(t: Json, lo: nat): (v: Value) {
    match t
    case JLit(text) => Lit(text)
    case JStr(s) => Str(s)
    case JNode(_, _) => Ref(lo)
  }

  function ParsedSlots(slots: seq<JSlot>, lo: nat): (ss: seq<Slot>)
    ensures |ss| == |slots|
  {
    if slots == [] then []
    else [Slot(slots[0].key, ParsedValue(slots[0].val, lo))] + ParsedSlots(slots[1..], lo + Count(slots[0].val))
  }

  function Parsed(t: Json, lo: nat): (cells: Heap)
  {
    match t
    case JNode(_, slots) => ParsedCells(slots, lo + 1)[lo := Cell(KindOf(t), ParsedSlots(slots, lo + 1))]
    case _ => map[]
  }

  function ParsedCells(slots: seq<JSlot>, lo: nat): (cells: Heap)
  {
    if slots == [] then map[]
    else Parsed(slots[0].val, lo) + ParsedCells(slots[1..], lo + Count(slots[0].val))
  }

  // ----- the specification of the walk

  /** Every `idCount` is a primitive, as in every text `serialize` writes. */
  predicate PrimitiveIds(t: Json) {
    match t
    case JNode(_, slots) => PrimitiveIdSlots(slots)
    case _ => true
  }

  predicate PrimitiveIdSlots(slots: seq<JSlot>) {
    slots != [] ==>
      && (slots[0].key == ID_COUNT ==> !slots[0].val.JNode?)
      && PrimitiveIds(slots[0].val)
      && PrimitiveIdSlots(slots[1..])
  }

  /** The property key `objCache[idCount]` writes to: an absent id becomes "undefined". */
  function CacheKey(slots: seq<JSlot>): (res: string) {
    if slots == [] then "undefined"
    else if slots[0].key == ID_COUNT then
      match slots[0].val
      case JLit(text) => text
      case JStr(s) => s
      case _ => "[object Object]"
    else CacheKey(slots[1..])
  }

  function DeleteId(slots: seq<JSlot>): (items: seq<JSlot>) {
    if slots == [] then []
    else if slots[0].key == ID_COUNT then DeleteId(slots[1..])
    else [slots[0]] + DeleteId(slots[1..])
  }

  /** A string field after the walk: a back reference is replaced by the cached object, if there is one. */
  function Resolve(s: string, dc: Cache): (v: Value) {
    if !IsCircular(s) then Str(s)
    else if s[|CIRCULAR|..] in dc then Ref(dc[s[|CIRCULAR|..]])
    else Undefined
  }

  function InflateValue(t: Json, lo: nat, dc: Cache): (res: (Value, Heap, Cache))
    decreases t, 1
  {
    match t
    case JLit(text) => (Lit(text), map[], dc)
    case JStr(s) => (Resolve(s, dc), map[], dc)
    case JNode(_, _) => var (cells, dc1) := Inflate(t, lo, dc); (Ref(lo), cells, dc1)
  }

  function Inflate(t: Json, lo: nat, dc: Cache): (res: (Heap, Cache))
    requires t.JNode?
    decreases t, 0
  {
    var (ss, cells, dc1) := InflateSlots(t.slots, lo + 1, dc[CacheKey(t.slots) := lo]);
    (cells[lo := Cell(KindOf(t), ss)], dc1)
  }

  function InflateSlots(slots: seq<JSlot>, lo: nat, dc: Cache): (res: (seq<Slot>, Heap, Cache))
    decreases slots, 2
  {
    if slots == [] then ([], map[], dc)
    else if slots[0].key == ID_COUNT then InflateSlots(slots[1..], lo + Count(slots[0].val), dc)
    else
      var (v, cells, dc1) := InflateValue(slots[0].val, lo, dc);
      var (ss, cells2, dc2) := InflateSlots(slots[1..], lo + Count(slots[0].val), dc1);
      ([Slot(slots[0].key, v)] + ss, cells + cells2, dc2)
  }

  lemma {:induction false} DeleteIdMembers(slots: seq<JSlot>, x: JSlot)
    requires x in DeleteId(slots) && PrimitiveIdSlots(slots)
    ensures x in slots && x.key != ID_COUNT && PrimitiveIds(x.val)
  {
    if slots[0].key == ID_COUNT || x != slots[0] {
      DeleteIdMembers(slots[1..], x);
    }
  }

  lemma {:induction false} DeleteIdInflates(slots: seq<JSlot>, lo: nat, dc: Cache)
    requires PrimitiveIdSlots(slots)
    ensures InflateSlots(DeleteId(slots), lo, dc) == InflateSlots(slots, lo, dc)
  {
    if slots != [] {
      var head := slots[0];
      if head.key == ID_COUNT {
        DeleteIdInflates(slots[1..], lo, dc);
      } else {
        var (_, _, dc1) := InflateValue(head.val, lo, dc);
        DeleteIdInflates(slots[1..], lo + Count(head.val), dc1);
        assert DeleteId(slots)[1..] == DeleteId(slots[1..]);
      }
    }
  }

  lemma {:induction false} DeleteIdCounts(slots: seq<JSlot>)
    requires PrimitiveIdSlots(slots)
    ensures CountSlots(DeleteId(slots)) == CountSlots(slots)
  {
    if slots != [] {
      DeleteIdCounts(slots[1..]);
      if slots[0].key != ID_COUNT {
        assert DeleteId(slots)[1..] == DeleteId(slots[1..]);
      }
    }
  }

  lemma {:induction false} EmptyUnion(h: Heap)
    ensures map[] + h == h && h + map[] == h
  {
  }

  lemma {:induction false} UpdateSame(h: Heap, k: nat)
    requires k in h
    ensures h[k := h[k]] == h
  {
  }

  lemma {:induction false} ParsedCellsCons(head: JSlot, rest: seq<JSlot>, lo: nat)
    ensures ParsedCells([head] + rest, lo) == Parsed(head.val, lo) + ParsedCells(rest, lo + Count(head.val))
  {
    assert ([head] + rest)[1..] == rest;
  }

  lemma {:induction false} ParsedCellsSameTail(head: JSlot, a: seq<JSlot>, b: seq<JSlot>, lo: nat)
    requires ParsedCells(a, lo + Count(head.val)) == ParsedCells(b, lo + Count(head.val))
    ensures ParsedCells([head] + a, lo) == ParsedCells([head] + b, lo)
  {
    ParsedCellsCons(head, a, lo);
    ParsedCellsCons(head, b, lo);
  }

  lemma {:induction false} DeleteIdParses(slots: seq<JSlot>, lo: nat)
    requires PrimitiveIdSlots(slots)
    ensures ParsedCells(DeleteId(slots), lo) == ParsedCells(slots, lo)
  {
    if slots != [] {
      var head, rest := slots[0], slots[1..];
      assert slots == [head] + rest;
      DeleteIdParses(rest, lo + Count(head.val));
      if head.key == ID_COUNT {
        EmptyUnion(ParsedCells(rest, lo));
      } else {
        assert DeleteId(slots) == [head] + DeleteId(rest);
        ParsedCellsSameTail(head, DeleteId(rest), rest, lo);
      }
    }
  }

  // ----- a node and everything below it occupies one interval of references

  ghost predicate KeysAre(h: Heap, lo: nat, n: nat) {
    forall k :: k in h <==> lo <= k < lo + n
  }

  lemma {:induction false} ParsedKeys(t: Json, lo: nat)
    ensures KeysAre(Parsed(t, lo), lo, Count(t))
    decreases t
  {
    if t.JNode? { ParsedCellsKeys(t.slots, lo + 1); }
  }

  lemma {:induction false} ParsedCellsKeys(slots: seq<JSlot>, lo: nat)
    ensures KeysAre(ParsedCells(slots, lo), lo, CountSlots(slots))
    decreases slots
  {
    if slots != [] {
      ParsedKeys(slots[0].val, lo);
      ParsedCellsKeys(slots[1..], lo + Count(slots[0].val));
    }
  }

  lemma {:induction false} InflateKeys(t: Json, lo: nat, dc: Cache)
    requires t.JNode? && PrimitiveIds(t)
    ensures KeysAre(Inflate(t, lo, dc).0, lo, Count(t))
    decreases t
  {
    InflateSlotsKeys(t.slots, lo + 1, dc[CacheKey(t.slots) := lo]);
  }

  lemma {:induction false} InflateSlotsKeys(slots: seq<JSlot>, lo: nat, dc: Cache)
    requires PrimitiveIdSlots(slots)
    ensures KeysAre(InflateSlots(slots, lo, dc).1, lo, CountSlots(slots))
    decreases slots
  {
    if slots != [] {
      var head := slots[0];
      if head.key == ID_COUNT {
        InflateSlotsKeys(slots[1..], lo, dc);
      } else {
        if head.val.JNode? { InflateKeys(head.val, lo, dc); }
        InflateSlotsKeys(slots[1..], lo + Count(head.val), InflateValue(head.val, lo, dc).2);
      }
    }
  }

  lemma {:induction false} WithoutIdCons(s: Slot, rest: seq<Slot>)
    ensures WithoutId([s] + rest) == if s.key == ID_COUNT then WithoutId(rest) else [s] + WithoutId(rest)
  {
    assert ([s] + rest)[1..] == rest;
  }

  lemma {:induction false} ParsedSlotsCons(s: JSlot, rest: seq<JSlot>, lo: nat)
    ensures ParsedSlots([s] + rest, lo) == [Slot(s.key, ParsedValue(s.val, lo))] + ParsedSlots(rest, lo + Count(s.val))
  {
    assert ([s] + rest)[1..] == rest;
  }

  lemma {:induction false} DeleteIdSlots(slots: seq<JSlot>, lo: nat)
    requires PrimitiveIdSlots(slots)
    ensures ParsedSlots(DeleteId(slots), lo) == WithoutId(ParsedSlots(slots, lo))
  {
    if slots != [] {
      var head, rest := slots[0], slots[1..];
      assert slots == [head] + rest;
      DeleteIdSlots(rest, lo + Count(head.val));
      ParsedSlotsCons(head, rest, lo);
      WithoutIdCons(Slot(head.key, ParsedValue(head.val, lo)), ParsedSlots(rest, lo + Count(head.val)));
      if head.key != ID_COUNT {
        ParsedSlotsCons(head, DeleteId(rest), lo);
      }
    }
  }

  lemma {:induction false} CacheKeyParsed(slots: seq<JSlot>, lo: nat)
    requires PrimitiveIdSlots(slots)
    ensures PropertyKey(ParsedSlots(slots, lo)) == CacheKey(slots)
  {
    if slots != [] && slots[0].key != ID_COUNT {
      CacheKeyParsed(slots[1..], lo + Count(slots[0].val));
      assert ParsedSlots(slots, lo)[1..] == ParsedSlots(slots[1..], lo + Count(slots[0].val));
    }
  }

  // ----- the walk itself, in place on the heap

  /** `objCache[obj.idCount]` as a property key, read from the cell. */
  function PropertyKey(slots: seq<Slot>): (res: string) {
    if slots == [] then "undefined"
    else if slots[0].key == ID_COUNT then
      match slots[0].val
      case Lit(text) => text
      case Str(s) => s
      case _ => "[object Object]"
    else PropertyKey(slots[1..])
  }

  /** `delete obj.idCount`. */
  function WithoutId(slots: seq<Slot>): (items: seq<Slot>) {
    if slots == [] then []
    else if slots[0].key == ID_COUNT then WithoutId(slots[1..])
    else [slots[0]] + WithoutId(slots[1..])
  }

  ghost predicate Holds(h: Heap, part: Heap) {
    forall k :: k in part ==> k in h && h[k] == part[k]
  }

  class Deserializer {
    var heap: Heap
    var objCache: Cache

    constructor ()
      ensures heap == map[] && objCache == map[]
    {
      heap, objCache := map[], map[];
    }

    /** The outer call: parse the text, then rewrite the parsed objects with an empty cache. */
    method DeserializeText(text: Json) returns (root: nat)
      requires text.JNode? && PrimitiveIds(text)
      modifies this
      ensures root == 0 && heap == Inflate(text, 0, map[]).0
    {
      heap := Parsed(text, 0);
      objCache := map[];
      root := 0;
      ParsedKeys(text, 0);
      InflateKeys(text, 0, map[]);
      Deserialize(root, text);
    }

    method Deserialize(obj: nat, ghost t: Json)
      requires t.JNode? && PrimitiveIds(t) && Holds(heap, Parsed(t, obj))
      modifies this
      ensures heap == old(heap) + Inflate(t, obj, old(objCache)).0
      ensures objCache == Inflate(t, obj, old(objCache)).1
      decreases t, 3
    {
      PrepareSlots(t, obj, objCache);
      var idCount := PropertyKey(heap[obj].slots);
      heap := heap[obj := heap[obj].(slots := WithoutId(heap[obj].slots))];
      objCache := objCache[idCount := obj];
      DeserializeProperties(obj, t);
    }

    /** `for (var prop in obj)`, after `idCount` has been deleted. */
    method DeserializeProperties(obj: nat, ghost t: Json)
      requires t.JNode? && PrimitiveIds(t)
      requires obj in heap && heap[obj] == Cell(KindOf(t), ParsedSlots(DeleteId(t.slots), obj + 1))
      requires Holds(heap, ParsedCells(DeleteId(t.slots), obj + 1))
      modifies this
      ensures var (ss, cells, dc) := InflateSlots(DeleteId(t.slots), obj + 1, old(objCache));
        heap == old(heap) + cells[obj := Cell(KindOf(t), ss)] && objCache == dc
      decreases t, 2
    {
      ghost var js, base := DeleteId(t.slots), heap;
      ghost var all := InflateSlots(js, obj + 1, objCache);
      ghost var at: nat, acc: Heap, done: seq<Slot> := obj + 1, map[], [];
      MidwayStart(base, obj, KindOf(t), js, objCache);
      var n := |heap[obj].slots|;
      var i := 0;
      while i < n
        invariant i <= n == |js|
        invariant Midway(base, obj, KindOf(t), js, all, i, at, acc, done, heap, objCache)
      {
        DeleteIdMembers(t.slots, js[i]);
        at, acc, done := DeserializeProperty(obj, i, base, KindOf(t), js, all, at, acc, done);
        i := i + 1;
      }
      MidwayEnd(base, obj, KindOf(t), js, all, at, acc, done, heap, objCache);
    }

    /** One iteration, as a step of the walk over `obj`. */
    method DeserializeProperty(obj: nat, i: nat, ghost base: Heap, ghost kind: Kind, ghost js: seq<JSlot>,
                               ghost all: (seq<Slot>, Heap, Cache), ghost at: nat,
                               ghost acc: Heap, ghost done: seq<Slot>)
      returns (ghost at': nat, ghost acc': Heap, ghost done': seq<Slot>)
      requires Midway(base, obj, kind, js, all, i, at, acc, done, heap, objCache)
      requires i < |js| && PrimitiveIds(js[i].val) && js[i].key != ID_COUNT
      modifies this
      ensures Midway(base, obj, kind, js, all, i + 1, at', acc', done', heap, objCache)
      decreases js[i].val, 5
    {
      ghost var s, before, cached := js[i], heap, objCache;
      MidwayHead(base, obj, kind, js, all, i, at, acc, done, heap, objCache);
      DeserializeSlot(obj, i, s, at);
      MidwayStep(base, obj, kind, js, all, i, at, acc, done, before, cached, heap, objCache);
      ghost var (v, cells, _) := InflateValue(s.val, at, cached);
      at', acc', done' := at + Count(s.val), acc + cells, done + [Slot(s.key, v)];
    }

    /** One iteration: recurse into an object, then replace a string that is a back reference. */
    method DeserializeSlot(obj: nat, i: nat, ghost s: JSlot, ghost at: nat)
      requires obj in heap && i < |heap[obj].slots| && obj < at
      requires heap[obj].slots[i] == Slot(s.key, ParsedValue(s.val, at))
      requires PrimitiveIds(s.val) && Holds(heap, Parsed(s.val, at))
      modifies this
      ensures var (v, cells, dc) := InflateValue(s.val, at, old(objCache));
        && heap == (old(heap) + cells)[obj := SetSlot(old(heap)[obj], i, v)]
        && objCache == dc
      decreases s.val, 4
    {
      EmptyUnion(heap);
      UpdateSame(heap, obj);
      var v := heap[obj].slots[i].val;
      assert SetSlot(heap[obj], i, v) == heap[obj];
      if v.Ref? {
        Deserialize(v.r, s.val);
        InflateKeys(s.val, at, old(objCache));
        assert heap[obj] == old(heap)[obj];
        UpdateSame(heap, obj);
      }
      v := heap[obj].slots[i].val;
      if v.Str? && IsCircular(v.s) {
        var index := v.s[|CIRCULAR|..];
        heap := heap[obj := SetSlot(heap[obj], i, if index in objCache then Ref(objCache[index]) else Undefined)];
      }
    }
  }

  function SetSlot(c: Cell, i: nat, v: Value): (res: Cell)
    requires i < |c.slots|
  {
    c.(slots := c.slots[i := c.slots[i].(val := v)])
  }

  /** Iteration `i` of the walk over `obj`: the slots in `done` are final, the rest are as parsed, and
      the cells in `acc` below `at` are final. */
  ghost predicate Midway(base: Heap, obj: nat, kind: Kind, js: seq<JSlot>, all: (seq<Slot>, Heap, Cache),
                         i: nat, at: nat, acc: Heap, done: seq<Slot>, heap: Heap, dc: Cache) {
    && i <= |js| && |done| == i && at > obj && obj in base
    && MidwayHeap(base, obj, kind, js[i..], at, acc, done, heap)
    && MidwayRest(all, js[i..], at, acc, done, dc)
  }

  ghost predicate MidwayHeap(base: Heap, obj: nat, kind: Kind, rest: seq<JSlot>, at: nat, acc: Heap,
                             done: seq<Slot>, heap: Heap) {
    && at > obj
    && Holds(base, ParsedCells(rest, at))
    && KeysAre(acc, obj + 1, at - obj - 1)
    && heap == (base + acc)[obj := Cell(kind, done + ParsedSlots(rest, at))]
  }

  ghost predicate MidwayRest(all: (seq<Slot>, Heap, Cache), rest: seq<JSlot>, at: nat, acc: Heap,
                             done: seq<Slot>, dc: Cache) {
    var R := InflateSlots(rest, at, dc);
    all == (done + R.0, acc + R.1, R.2)
  }

  lemma {:induction false} MidwayStart(base: Heap, obj: nat, kind: Kind, js: seq<JSlot>, dc: Cache)
    requires obj in base && base[obj] == Cell(kind, ParsedSlots(js, obj + 1))
    requires Holds(base, ParsedCells(js, obj + 1))
    ensures Midway(base, obj, kind, js, InflateSlots(js, obj + 1, dc), 0, obj + 1, map[], [], base, dc)
  {
    var all := InflateSlots(js, obj + 1, dc);
    assert js[0..] == js;
    assert [] + ParsedSlots(js, obj + 1) == ParsedSlots(js, obj + 1) && [] + all.0 == all.0;
    EmptyUnion(all.1);
    EmptyUnion(base);
    UpdateSame(base, obj);
  }

  lemma {:induction false} MidwayHead(base: Heap, obj: nat, kind: Kind, js: seq<JSlot>, all: (seq<Slot>, Heap,
      Cache), i: nat, at: nat, acc: Heap, done: seq<Slot>, heap: Heap, dc: Cache)
    requires Midway(base, obj, kind, js, all, i, at, acc, done, heap, dc) && i < |js|
    ensures obj in heap && |heap[obj].slots| == |js|
    ensures heap[obj].slots[i] == Slot(js[i].key, ParsedValue(js[i].val, at))
    ensures Holds(heap, Parsed(js[i].val, at))
  {
    assert js[i..][0] == js[i];
    ParsedKeys(js[i].val, at);
    ParsedCellsKeys(js[i..][1..], at + Count(js[i].val));
    assert heap[obj].slots[i] == ParsedSlots(js[i..], at)[0];
  }

  lemma {:induction false} Unfold(js: seq<JSlot>, i: nat, at: nat, dc: Cache)
    requires i < |js| && js[i].key != ID_COUNT
    ensures var (v, cells, dc1) := InflateValue(js[i].val, at, dc);
      var next := at + Count(js[i].val);
      var tail := InflateSlots(js[i + 1..], next, dc1);
      && ParsedSlots(js[i..], at) == [Slot(js[i].key, ParsedValue(js[i].val, at))] + ParsedSlots(js[i + 1..], next)
      && ParsedCells(js[i..], at) == Parsed(js[i].val, at) + ParsedCells(js[i + 1..], next)
      && InflateSlots(js[i..], at, dc) == ([Slot(js[i].key, v)] + tail.0, cells + tail.1, tail.2)
  {
    assert js[i..][0] == js[i] && js[i..][1..] == js[i + 1..];
  }

  lemma {:induction false} RewriteCell(base: Heap, acc: Heap, cells: Heap, obj: nat, kind: Kind, done: seq<Slot>,
      key: string, pv: Value, ps: seq<Slot>, v: Value)
    ensures var c := Cell(kind, done + ([Slot(key, pv)] + ps));
      ((base + acc)[obj := c] + cells)[obj := SetSlot(c, |done|, v)]
      == (base + (acc + cells))[obj := Cell(kind, done + [Slot(key, v)] + ps)]
  {
    var c := Cell(kind, done + ([Slot(key, pv)] + ps));
    assert SetSlot(c, |done|, v).slots == done + [Slot(key, v)] + ps;
  }

  lemma {:induction false} InflateValueKeys(t: Json, lo: nat, dc: Cache)
    requires PrimitiveIds(t)
    ensures KeysAre(InflateValue(t, lo, dc).1, lo, Count(t))
  {
    if t.JNode? { InflateKeys(t, lo, dc); }
  }

  lemma {:induction false} MidwayHeapStep(base: Heap, obj: nat, kind: Kind, js: seq<JSlot>, i: nat, at: nat,
      acc: Heap, done: seq<Slot>, heap: Heap, v: Value, cells: Heap, heap': Heap)
    requires i < |js| && |done| == i && at > obj && obj in base && js[i].key != ID_COUNT
    requires MidwayHeap(base, obj, kind, js[i..], at, acc, done, heap)
    requires KeysAre(cells, at, Count(js[i].val)) && i < |heap[obj].slots|
    requires heap' == (heap + cells)[obj := SetSlot(heap[obj], i, v)]
    ensures MidwayHeap(base, obj, kind, js[i + 1..], at + Count(js[i].val), acc + cells,
                       done + [Slot(js[i].key, v)], heap')
  {
    var s, rest, next := js[i], js[i + 1..], at + Count(js[i].val);
    Unfold(js, i, at, map[]);
    ParsedKeys(s.val, at);
    ParsedCellsKeys(rest, next);
    RewriteCell(base, acc, cells, obj, kind, done, s.key, ParsedValue(s.val, at), ParsedSlots(rest, next), v);
  }

  lemma {:induction false} MidwayRestStep(all: (seq<Slot>, Heap, Cache), js: seq<JSlot>, i: nat, at: nat, acc: Heap,
      done: seq<Slot>, dc: Cache)
    requires i < |js| && js[i].key != ID_COUNT && MidwayRest(all, js[i..], at, acc, done, dc)
    ensures var (v, cells, dc') := InflateValue(js[i].val, at, dc);
      MidwayRest(all, js[i + 1..], at + Count(js[i].val), acc + cells, done + [Slot(js[i].key, v)], dc')
  {
    var (v, cells, dc') := InflateValue(js[i].val, at, dc);
    var tail := InflateSlots(js[i + 1..], at + Count(js[i].val), dc');
    Unfold(js, i, at, dc);
    SlotsAssociate(done, Slot(js[i].key, v), tail.0);
    HeapsAssociate(acc, cells, tail.1);
  }

  lemma {:induction false} MidwayStep(base: Heap, obj: nat, kind: Kind, js: seq<JSlot>, all: (seq<Slot>, Heap,
      Cache), i: nat, at: nat, acc: Heap, done: seq<Slot>, heap: Heap, dc: Cache, heap': Heap, dc': Cache)
    requires Midway(base, obj, kind, js, all, i, at, acc, done, heap, dc)
    requires i < |js| && PrimitiveIds(js[i].val) && js[i].key != ID_COUNT && i < |heap[obj].slots|
    requires var (v, cells, dc1) := InflateValue(js[i].val, at, dc);
      heap' == (heap + cells)[obj := SetSlot(heap[obj], i, v)] && dc' == dc1
    ensures var (v, cells, _) := InflateValue(js[i].val, at, dc);
      Midway(base, obj, kind, js, all, i + 1, at + Count(js[i].val), acc + cells,
             done + [Slot(js[i].key, v)], heap', dc')
  {
    var (v, cells, _) := InflateValue(js[i].val, at, dc);
    InflateValueKeys(js[i].val, at, dc);
    MidwayHeapStep(base, obj, kind, js, i, at, acc, done, heap, v, cells, heap');
    MidwayRestStep(all, js, i, at, acc, done, dc);
  }

  lemma {:induction false} SlotsAssociate(a: seq<Slot>, x: Slot, b: seq<Slot>)
    ensures a + ([x] + b) == (a + [x]) + b
  {
  }

  lemma {:induction false} HeapsAssociate(a: Heap, b: Heap, c: Heap)
    ensures a + (b + c) == (a + b) + c
  {
  }

  lemma {:induction false} MidwayEnd(base: Heap, obj: nat, kind: Kind, js: seq<JSlot>, all: (seq<Slot>, Heap,
      Cache), at: nat, acc: Heap, done: seq<Slot>, heap: Heap, dc: Cache)
    requires Midway(base, obj, kind, js, all, |js|, at, acc, done, heap, dc)
    ensures heap == base + all.1[obj := Cell(kind, all.0)] && dc == all.2
  {
    assert js[|js|..] == [];
    EmptyUnion(acc);
    assert done + [] == done;
  }

  /** The cell of a parsed object, its cache key, and its slots once `idCount` is deleted. */
  lemma {:induction false} PrepareSlots(t: Json, obj: nat, dc: Cache)
    requires t.JNode? && PrimitiveIds(t)
    ensures obj in Parsed(t, obj)
    ensures PropertyKey(Parsed(t, obj)[obj].slots) == CacheKey(t.slots)
    ensures Parsed(t, obj)[obj].kind == KindOf(t)
    ensures WithoutId(Parsed(t, obj)[obj].slots) == ParsedSlots(DeleteId(t.slots), obj + 1)
    ensures Holds(Parsed(t, obj), ParsedCells(DeleteId(t.slots), obj + 1))
    ensures KeysAre(ParsedCells(DeleteId(t.slots), obj + 1), obj + 1, Count(t) - 1)
    ensures var (ss, cells, dc1) := InflateSlots(DeleteId(t.slots), obj + 1, dc[CacheKey(t.slots) := obj]);
      Inflate(t, obj, dc) == (cells[obj := Cell(KindOf(t), ss)], dc1)
  {
    CacheKeyParsed(t.slots, obj + 1);
    DeleteIdSlots(t.slots, obj + 1);
    DeleteIdParses(t.slots, obj + 1);
    ParsedCellsKeys(t.slots, obj + 1);
    DeleteIdCounts(t.slots);
    DeleteIdInflates(t.slots, obj + 1, dc[CacheKey(t.slots) := obj]);
  }
}
