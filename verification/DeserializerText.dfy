/**
 What `deserialize` makes of any text, read off the text itself: one cell for each object and array, in the
 order in which a reader meets them, and every back reference resolved to the last of them before it that
 carries its id.
 */
module DeserializerText {
  import opened Options
  import opened Decimals
  import opened ObjectGraph
  import opened Deserialize

  type Node = t: Json | t.JNode? witness JNode(false, [])

  /** The objects and arrays of a text, in the order a reader meets them. */
  function Nodes(t: Json): (items: seq<Node>)
    ensures |items| == Count(t)
    decreases t
  {
    match t
    case JNode(_, slots) => [t] + NodesBelow(slots)
    case _ => []
  }

  function NodesBelow(slots: seq<JSlot>): (items: seq<Node>)
    ensures |items| == CountSlots(slots)
    decreases slots
  {
    if slots == [] then [] else Nodes(slots[0].val) + NodesBelow(slots[1..])
  }

  // ----- ids

  /** The key an object is cached under: its first `idCount`. */
  lemma {:induction false} IdExact(slots: seq<JSlot>, i: nat)
    requires i < |slots| && slots[i].key == "idCount" && forall j :: 0 <= j < i ==> slots[j].key != "idCount"
    ensures slots[i].val.JLit? ==> CacheKey(slots) == slots[i].val.text
    ensures slots[i].val.JStr? ==> CacheKey(slots) == slots[i].val.s
  {
    if i > 0 {
      assert slots[0].key != "idCount";
      IdExact(slots[1..], i - 1);
    }
  }

  /** Without one, and so for every array, that of an undefined property. */
  lemma {:induction false} NoIdExact(slots: seq<JSlot>)
    requires forall j :: 0 <= j < |slots| ==> slots[j].key != "idCount"
    ensures CacheKey(slots) == "undefined"
  {
    if slots != [] {
      assert slots[0].key != "idCount";
      NoIdExact(slots[1..]);
    }
  }

  /** The last of `nodes` that is cached under `key`. */
  function Bound(nodes: seq<Node>, key: string): (o: Option<nat>) {
    if nodes == [] then None
    else if CacheKey(nodes[|nodes| - 1].slots) == key then Some(|nodes| - 1)
    else Bound(nodes[..|nodes| - 1], key)
  }

  lemma {:induction false} BoundExact(nodes: seq<Node>, key: string)
    ensures match Bound(nodes, key)
      case Some(q) => q < |nodes| && CacheKey(nodes[q].slots) == key
        && forall i :: q < i < |nodes| ==> CacheKey(nodes[i].slots) != key
      case None => forall i :: 0 <= i < |nodes| ==> CacheKey(nodes[i].slots) != key
  {
    if nodes != [] && CacheKey(nodes[|nodes| - 1].slots) != key {
      BoundExact(nodes[..|nodes| - 1], key);
    }
  }

  // ----- fields

  /** A string after `nodes` have been entered. */
  function Target(nodes: seq<Node>, s: string): (v: Value) {
    if !("CIRCULAR-" <= s) then Str(s)
    else
      match Bound(nodes, s[9..])
      case Some(q) => Ref(q)
      case None => Undefined
  }

  /** The fields of one object, in order and without `idCount`; the first object below it is number `at` of `all`. */
  function Fields(slots: seq<JSlot>, at: nat, all: seq<Node>): (items: seq<Slot>)
    requires at + CountSlots(slots) <= |all|
  {
    if slots == [] then []
    else
      var rest := Fields(slots[1..], at + Count(slots[0].val), all);
      if slots[0].key == "idCount" then rest
      else [Slot(slots[0].key, match slots[0].val
        case JLit(text) => Lit(text)
        case JStr(s) => Target(all[..at], s)
        case JNode(_, _) => Ref(at))] + rest
  }

  ghost predicate IsRead(all: seq<Node>, q: nat, cells: Heap) {
    && q in cells && q < |all| && q + 1 + CountSlots(all[q].slots) <= |all|
    && cells[q].kind == (if all[q].isArray then Array(|all[q].slots|) else Object)
    && cells[q].slots == Fields(all[q].slots, q + 1, all)
  }

  ghost predicate AreRead(all: seq<Node>, lo: nat, n: nat, cells: Heap) {
    KeysAre(cells, lo, n) && forall q :: lo <= q < lo + n ==> IsRead(all, q, cells)
  }

  // ----- the walk

  /** The cache of the walk once exactly `nodes` have been entered. */
  ghost predicate Knows(dc: Cache, nodes: seq<Node>) {
    forall key {:trigger key in dc} {:trigger Bound(nodes, key)} ::
      match Bound(nodes, key)
      case Some(q) => key in dc && dc[key] == q
      case None => key !in dc
  }

  /** `part` stands in `all` from position `lo` on. */
  ghost predicate StandsAt(all: seq<Node>, part: seq<Node>, lo: nat) {
    lo + |part| <= |all| && all[lo..lo + |part|] == part
  }

  lemma {:induction false} StandsParts(all: seq<Node>, a: seq<Node>, b: seq<Node>, lo: nat)
    requires StandsAt(all, a + b, lo)
    ensures StandsAt(all, a, lo) && StandsAt(all, b, lo + |a|)
  {
    var part := all[lo..lo + |a + b|];
    assert part[..|a|] == a && part[|a|..] == b;
    assert all[lo..lo + |a|] == part[..|a|] && all[lo + |a|..lo + |a| + |b|] == part[|a|..];
  }

  lemma {:induction false} KnowsEntered(dc: Cache, all: seq<Node>, lo: nat)
    requires lo < |all| && Knows(dc, all[..lo])
    ensures Knows(dc[CacheKey(all[lo].slots) := lo], all[..lo + 1])
  {
    var nodes := all[..lo + 1];
    assert nodes[..|nodes| - 1] == all[..lo];
  }

  lemma {:induction false} TargetResolves(dc: Cache, nodes: seq<Node>, s: string)
    requires Knows(dc, nodes)
    ensures Resolve(s, dc) == Target(nodes, s)
  {
    assert CIRCULAR == "CIRCULAR-" && |CIRCULAR| == 9;
    if IsCircular(s) {
      var key := s[9..];
      assert s[|CIRCULAR|..] == key;
      var o := Bound(nodes, key);
    }
  }

  lemma {:induction false} NodeRead(t: Json, all: seq<Node>, lo: nat, dc: Cache)
    requires t.JNode? && PrimitiveIds(t) && StandsAt(all, Nodes(t), lo) && Knows(dc, all[..lo])
    ensures var (cells, dc1) := Inflate(t, lo, dc);
      AreRead(all, lo, Count(t), cells) && Knows(dc1, all[..lo + Count(t)])
    decreases t, 0
  {
    NodeStands(t, all, lo);
    KnowsEntered(dc, all, lo);
    SlotsRead(t.slots, all, lo + 1, dc[CacheKey(t.slots) := lo]);
    var (ss, cells, _) := InflateSlots(t.slots, lo + 1, dc[CacheKey(t.slots) := lo]);
    NodeAdded(t, all, lo, ss, cells);
  }

  lemma {:induction false} NodeStands(t: Json, all: seq<Node>, lo: nat)
    requires t.JNode? && StandsAt(all, Nodes(t), lo)
    ensures lo < |all| && all[lo] == t && StandsAt(all, NodesBelow(t.slots), lo + 1)
  {
    StandsParts(all, [t], NodesBelow(t.slots), lo);
    assert all[lo..lo + 1][0] == t;
  }

  lemma {:induction false} NodeAdded(t: Json, all: seq<Node>, lo: nat, ss: seq<Slot>, cells: Heap)
    requires t.JNode? && lo < |all| && all[lo] == t && lo + Count(t) <= |all|
    requires AreRead(all, lo + 1, CountSlots(t.slots), cells) && ss == Fields(t.slots, lo + 1, all)
    ensures AreRead(all, lo, Count(t), cells[lo := Cell(KindOf(t), ss)])
  {
    var cells' := cells[lo := Cell(KindOf(t), ss)];
    forall q | lo <= q < lo + Count(t)
      ensures IsRead(all, q, cells')
    {
      if q > lo { assert IsRead(all, q, cells); }
    }
  }

  /** The reader, coming to `t` after the first `lo` nodes, makes of it what it says. */
  ghost predicate ReadsValue(t: Json, all: seq<Node>, lo: nat, dc: Cache) {
    && lo + Count(t) <= |all|
    && var (v, cells, dc1) := InflateValue(t, lo, dc);
      && v == (match t case JLit(text) => Lit(text) case JStr(s) => Target(all[..lo], s) case JNode(_, _) => Ref(lo))
      && AreRead(all, lo, Count(t), cells) && Knows(dc1, all[..lo + Count(t)])
  }

  ghost predicate ReadsSlots(slots: seq<JSlot>, all: seq<Node>, lo: nat, dc: Cache) {
    && lo + CountSlots(slots) <= |all|
    && var (ss, cells, dc1) := InflateSlots(slots, lo, dc);
      && ss == Fields(slots, lo, all)
      && AreRead(all, lo, CountSlots(slots), cells) && Knows(dc1, all[..lo + CountSlots(slots)])
  }

  lemma {:induction false} ValueRead(t: Json, all: seq<Node>, lo: nat, dc: Cache)
    requires PrimitiveIds(t) && StandsAt(all, Nodes(t), lo) && Knows(dc, all[..lo])
    ensures ReadsValue(t, all, lo, dc)
    decreases t, 1
  {
    match t
    case JLit(_) =>
    case JStr(s) => TargetResolves(dc, all[..lo], s);
    case JNode(_, _) => NodeRead(t, all, lo, dc);
  }

  lemma {:induction false} SlotsRead(slots: seq<JSlot>, all: seq<Node>, lo: nat, dc: Cache)
    requires PrimitiveIdSlots(slots) && StandsAt(all, NodesBelow(slots), lo) && Knows(dc, all[..lo])
    ensures ReadsSlots(slots, all, lo, dc)
    decreases slots, 2
  {
    if slots == [] {
      NothingRead(all, lo, dc);
    } else {
      var next := lo + Count(slots[0].val);
      HeadAndRest(slots, all, lo);
      if slots[0].key == ID_COUNT {
        SlotsRead(slots[1..], all, lo, dc);
        IdSkipped(slots, all, lo, dc);
      } else {
        ValueRead(slots[0].val, all, lo, dc);
        SlotsRead(slots[1..], all, next, InflateValue(slots[0].val, lo, dc).2);
        ConsRead(slots, all, lo, dc);
      }
    }
  }

  lemma {:induction false} NothingRead(all: seq<Node>, lo: nat, dc: Cache)
    requires lo <= |all| && Knows(dc, all[..lo])
    ensures ReadsSlots([], all, lo, dc)
  {
  }

  lemma {:induction false} HeadAndRest(slots: seq<JSlot>, all: seq<Node>, lo: nat)
    requires slots != [] && PrimitiveIdSlots(slots) && StandsAt(all, NodesBelow(slots), lo)
    ensures PrimitiveIds(slots[0].val) && StandsAt(all, Nodes(slots[0].val), lo)
    ensures PrimitiveIdSlots(slots[1..]) && StandsAt(all, NodesBelow(slots[1..]), lo + Count(slots[0].val))
    ensures slots[0].key == ID_COUNT ==> !slots[0].val.JNode? && Count(slots[0].val) == 0
  {
    StandsParts(all, Nodes(slots[0].val), NodesBelow(slots[1..]), lo);
  }

  lemma {:induction false} IdSkipped(slots: seq<JSlot>, all: seq<Node>, lo: nat, dc: Cache)
    requires slots != [] && slots[0].key == ID_COUNT && !slots[0].val.JNode? && ReadsSlots(slots[1..], all, lo, dc)
    ensures ReadsSlots(slots, all, lo, dc)
  {
  }

  lemma {:induction false} ConsRead(slots: seq<JSlot>, all: seq<Node>, lo: nat, dc: Cache)
    requires slots != [] && slots[0].key != ID_COUNT && ReadsValue(slots[0].val, all, lo, dc)
    requires ReadsSlots(slots[1..], all, lo + Count(slots[0].val), InflateValue(slots[0].val, lo, dc).2)
    ensures ReadsSlots(slots, all, lo, dc)
  {
    var (_, cells, dc1) := InflateValue(slots[0].val, lo, dc);
    var (_, cells2, _) := InflateSlots(slots[1..], lo + Count(slots[0].val), dc1);
    BothRead(all, lo, Count(slots[0].val), CountSlots(slots[1..]), cells, cells2);
  }

  lemma {:induction false} BothRead(all: seq<Node>, lo: nat, m: nat, n: nat, a: Heap, b: Heap)
    requires AreRead(all, lo, m, a) && AreRead(all, lo + m, n, b)
    ensures AreRead(all, lo, m + n, a + b)
  {
    forall q | lo <= q < lo + m + n
      ensures IsRead(all, q, a + b)
    {
      if q < lo + m { assert IsRead(all, q, a); } else { assert IsRead(all, q, b); }
    }
  }

  // ----- the theorem

  /** The outer call, in terms of the text alone. */
  method ReadText(text: Json) returns (heap: Heap, root: nat)
    requires text.JNode? && PrimitiveIds(text)
    ensures root == 0 && AreRead(Nodes(text), 0, |Nodes(text)|, heap)
  {
    var all := Nodes(text);
    assert all[0..0 + |all|] == all && all[..0] == [];
    NodeRead(text, all, 0, map[]);
    var deserializer := new Deserializer();
    root := deserializer.DeserializeText(text);
    heap := deserializer.heap;
  }
}
