/**
 What the text of a graph says, read off the graph itself: one object for each expanded value, in the
 order of the ids, with every field and element either written out or referring back.
 */
module SerializerText {
  import opened Decimals
  import opened ObjectGraph
  import opened Serialize
  import opened SerializerSimulation
  import opened SerializerRoundTrip

  /** The objects of a text, in the order a reader meets them. */
  function IdNodes(t: Json): (items: seq<Json>) {
    match t
    case JNode(isArray, slots) => (if isArray then [] else [t]) + SlotNodes(slots)
    case _ => []
  }

  function SlotNodes(slots: seq<JSlot>): (items: seq<Json>) {
    if slots == [] then [] else IdNodes(slots[0].val) + SlotNodes(slots[1..])
  }

  // ----- what stands for what; `nodes[k]` is the object written for `c[k]`

  /** The object written for `x`, or a back reference to it. */
  ghost predicate StandsFor(c: seq<Value>, nodes: seq<Json>, x: Value, t: Json) {
    exists k :: 0 <= k < |c| && k < |nodes| && c[k] == x && (t == nodes[k] || t == JStr("CIRCULAR-" + Decimal(k)))
  }

  /** Each index below the length: the value under that key, undefined if there is none. */
  ghost predicate ArrayText(c: seq<Value>, nodes: seq<Json>, cell: Cell, t: Json)
    requires cell.kind.Array?
  {
    && t.JNode? && t.isArray && |t.slots| == cell.kind.length
    && forall i :: 0 <= i < |t.slots| ==>
      t.slots[i].key == Decimal(i) && StandsFor(c, nodes, ValueAt(cell.slots, Decimal(i)), t.slots[i].val)
  }

  ghost predicate FieldText(h: Heap, c: seq<Value>, nodes: seq<Json>, x: Value, t: Json) {
    match x
    case Undefined => false
    case Lit(text) => t == JLit(text)
    case Str(s) => t == JStr(s)
    case Ref(r) => r in h && if h[r].kind.Array? then ArrayText(c, nodes, h[r], t) else StandsFor(c, nodes, x, t)
  }

  ghost predicate FieldsText(h: Heap, c: seq<Value>, nodes: seq<Json>, items: seq<Slot>, ts: seq<JSlot>) {
    && |ts| == |items|
    && forall i :: 0 <= i < |ts| ==> ts[i].key == items[i].key && FieldText(h, c, nodes, items[i].val, ts[i].val)
  }

  /** The object written for `x` under id `k`: the fields that are not undefined, the characters of a string, and
      nothing but the id for null, a boolean, a number or undefined. */
  ghost predicate NodeText(h: Heap, c: seq<Value>, nodes: seq<Json>, k: nat, x: Value, t: Json) {
    && t.JNode? && !t.isArray && t.slots != [] && t.slots[0] == JSlot("idCount", JLit(Decimal(k)))
    && match x
       case Ref(r) => r in h && FieldsText(h, c, nodes, Kept(h[r].slots), t.slots[1..])
       case Str(s) => |t.slots| == 1 + |s|
         && forall i :: 0 <= i < |s| ==> t.slots[1 + i] == JSlot(Decimal(i), JStr([s[i]]))
       case _ => |t.slots| == 1
  }

  ghost predicate Written(h: Heap, from: nat, c: seq<Value>, nodes: seq<Json>) {
    |nodes| == |c| && forall k :: from <= k < |c| ==> NodeText(h, c, nodes, k, c[k], nodes[k])
  }

  ghost predicate IsTextOf(h: Heap, root: nat, c: seq<Value>, t: Json) {
    var nodes := IdNodes(t);
    nodes != [] && nodes[0] == t && c != [] && c[0] == Ref(root) && Distinct(c) && Written(h, 0, c, nodes)
  }

  // ----- more of the cache and of the text does not change what stands for what

  lemma {:induction false} StandsForStill(c: seq<Value>, nodes: seq<Json>, c': seq<Value>, nodes': seq<Json>, x: Value,
      t: Json)
    requires StandsFor(c, nodes, x, t) && c <= c' && nodes <= nodes'
    ensures StandsFor(c', nodes', x, t)
  {
    var k :| 0 <= k < |c| && k < |nodes| && c[k] == x && (t == nodes[k] || t == JStr("CIRCULAR-" + Decimal(k)));
    assert c'[k] == x && nodes'[k] == nodes[k];
  }

  lemma {:induction false} FieldTextStill(h: Heap, c: seq<Value>, nodes: seq<Json>, c': seq<Value>, nodes': seq<Json>,
      x: Value, t: Json)
    requires FieldText(h, c, nodes, x, t) && c <= c' && nodes <= nodes'
    ensures FieldText(h, c', nodes', x, t)
  {
    if x.Ref? && h[x.r].kind.Array? {
      forall i | 0 <= i < |t.slots|
        ensures StandsFor(c', nodes', ValueAt(h[x.r].slots, Decimal(i)), t.slots[i].val)
      {
        StandsForStill(c, nodes, c', nodes', ValueAt(h[x.r].slots, Decimal(i)), t.slots[i].val);
      }
    } else if x.Ref? {
      StandsForStill(c, nodes, c', nodes', x, t);
    }
  }

  lemma {:induction false} NodeTextStill(h: Heap, c: seq<Value>, nodes: seq<Json>, c': seq<Value>, nodes': seq<Json>,
      k: nat, x: Value, t: Json)
    requires NodeText(h, c, nodes, k, x, t) && c <= c' && nodes <= nodes'
    ensures NodeText(h, c', nodes', k, x, t)
  {
    if x.Ref? {
      var items, ts := Kept(h[x.r].slots), t.slots[1..];
      forall i | 0 <= i < |ts|
        ensures FieldText(h, c', nodes', items[i].val, ts[i].val)
      {
        FieldTextStill(h, c, nodes, c', nodes', items[i].val, ts[i].val);
      }
    }
  }

  lemma {:induction false} WrittenStill(h: Heap, from: nat, c: seq<Value>, nodes: seq<Json>, c': seq<Value>,
      nodes': seq<Json>)
    requires Written(h, from, c, nodes) && Written(h, |c|, c', nodes') && c <= c' && nodes <= nodes'
    ensures Written(h, from, c', nodes')
  {
    forall k | from <= k < |c'|
      ensures NodeText(h, c', nodes', k, c'[k], nodes'[k])
    {
      if k < |c| { NodeTextStill(h, c, nodes, c', nodes', k, c[k], nodes[k]); }
    }
  }

  // ----- the recursion

  /** A slot of a field or (`elems`) of an array, as it is written. */
  ghost predicate SlotText(h: Heap, c: seq<Value>, nodes: seq<Json>, x: Value, elems: bool, t: Json) {
    if elems then StandsFor(c, nodes, x, t) else FieldText(h, c, nodes, x, t)
  }

  ghost predicate SlotsText(h: Heap, c: seq<Value>, nodes: seq<Json>, slots: seq<Slot>, elems: bool, ts: seq<JSlot>) {
    && |ts| == |slots|
    && forall i :: 0 <= i < |ts| ==> ts[i].key == slots[i].key && SlotText(h, c, nodes, slots[i].val, elems, ts[i].val)
  }

  lemma {:induction false} SlotTextStill(h: Heap, c: seq<Value>, nodes: seq<Json>, c': seq<Value>, nodes': seq<Json>,
      x: Value, elems: bool, t: Json)
    requires SlotText(h, c, nodes, x, elems, t) && c <= c' && nodes <= nodes'
    ensures SlotText(h, c', nodes', x, elems, t)
  {
    if elems { StandsForStill(c, nodes, c', nodes', x, t); } else { FieldTextStill(h, c, nodes, c', nodes', x, t); }
  }

  lemma {:induction false} SlotsTextCons(h: Heap, slots: seq<Slot>, elems: bool, c: seq<Value>, nodes: seq<Json>,
      t: Json, c': seq<Value>, nodes': seq<Json>, ts: seq<JSlot>)
    requires slots != [] && c <= c' && nodes <= nodes'
    requires SlotText(h, c, nodes, slots[0].val, elems, t) && SlotsText(h, c', nodes', slots[1..], elems, ts)
    ensures SlotsText(h, c', nodes', slots, elems, [JSlot(slots[0].key, t)] + ts)
  {
    SlotTextStill(h, c, nodes, c', nodes', slots[0].val, elems, t);
    forall i | 0 <= i < |slots|
      ensures var s := ([JSlot(slots[0].key, t)] + ts)[i];
        s.key == slots[i].key && SlotText(h, c', nodes', slots[i].val, elems, s.val)
    {
      if i > 0 { assert slots[i] == slots[1..][i - 1]; }
    }
  }

  lemma {:induction false} SlotNodesCons(s: JSlot, rest: seq<JSlot>, nodes: seq<Json>)
    ensures nodes + SlotNodes([s] + rest) == (nodes + IdNodes(s.val)) + SlotNodes(rest)
  {
    assert ([s] + rest)[1..] == rest;
  }

  lemma {:induction false} SlotsWritten(h: Heap, u: set<Value>, slots: seq<Slot>, elems: bool, c: seq<Value>,
      nodes: seq<Json>)
    requires Closed(h, u) && SlotsLead(h, u, slots, elems) && |nodes| == |c|
    ensures var (ts, c') := SerSlots(h, u, slots, elems, c);
      var nodes' := nodes + SlotNodes(ts);
      Written(h, |c|, c', nodes') && SlotsText(h, c', nodes', slots, elems, ts)
    decreases Uncached(u, c), if elems then 0 else 1, |slots|, 2
  {
    if slots == [] {
      assert nodes + [] == nodes;
    } else {
      var (t, c1) := SerValue(h, u, slots[0].val, elems, c);
      var nodes1 := nodes + IdNodes(t);
      UncachedMonotone(u, c, c1);
      ValueWritten(h, u, slots[0].val, elems, c, nodes);
      SlotsWritten(h, u, slots[1..], elems, c1, nodes1);
      var (ts, c2) := SerSlots(h, u, slots[1..], elems, c1);
      SlotNodesCons(JSlot(slots[0].key, t), ts, nodes);
      WrittenStill(h, |c|, c1, nodes1, c2, nodes1 + SlotNodes(ts));
      SlotsTextCons(h, slots, elems, c1, nodes1, t, c2, nodes1 + SlotNodes(ts), ts);
    }
  }

  lemma {:induction false} ValueWritten(h: Heap, u: set<Value>, x: Value, elems: bool, c: seq<Value>,
      nodes: seq<Json>)
    requires Closed(h, u) && Leads(h, u, x, elems) && |nodes| == |c|
    ensures var (t, c') := SerValue(h, u, x, elems, c);
      var nodes' := nodes + IdNodes(t);
      Written(h, |c|, c', nodes') && SlotText(h, c', nodes', x, elems, t)
    decreases Uncached(u, c), if elems then 0 else 1, 0, 1
  {
    if !elems && !x.Ref? {
      assert nodes + [] == nodes;
    } else if !elems && h[x.r].kind.Array? {
      assert SlotsLead(h, u, Elements(h[x.r]), true);
      SlotsWritten(h, u, Elements(h[x.r]), true, c, nodes);
      ArrayWritten(h, u, x.r, c, nodes);
    } else {
      CachedWritten(h, u, x, c, nodes);
    }
  }

  lemma {:induction false} ArrayWritten(h: Heap, u: set<Value>, r: nat, c: seq<Value>, nodes: seq<Json>)
    requires Closed(h, u) && Leads(h, u, Ref(r), false) && h[r].kind.Array? && SlotsLead(h, u, Elements(h[r]), true)
    requires var (ts, c') := SerSlots(h, u, Elements(h[r]), true, c);
      var nodes' := nodes + SlotNodes(ts);
      Written(h, |c|, c', nodes') && SlotsText(h, c', nodes', Elements(h[r]), true, ts)
    ensures var (t, c') := SerValue(h, u, Ref(r), false, c);
      var nodes' := nodes + IdNodes(t);
      Written(h, |c|, c', nodes') && FieldText(h, c', nodes', Ref(r), t)
  {
    var (ts, c1) := SerSlots(h, u, Elements(h[r]), true, c);
    assert SerValue(h, u, Ref(r), false, c) == (JNode(true, ts), c1);
    assert [] + SlotNodes(ts) == SlotNodes(ts);
    forall i | 0 <= i < |ts|
      ensures ts[i].key == Decimal(i)
      ensures StandsFor(c1, nodes + SlotNodes(ts), ValueAt(h[r].slots, Decimal(i)), ts[i].val)
    {
      assert SlotText(h, c1, nodes + SlotNodes(ts), Elements(h[r])[i].val, true, ts[i].val);
    }
  }

  lemma {:induction false} CachedWritten(h: Heap, u: set<Value>, x: Value, c: seq<Value>, nodes: seq<Json>)
    requires Closed(h, u) && x in u && |nodes| == |c|
    ensures var (t, c') := SerCached(h, u, x, c);
      var nodes' := nodes + IdNodes(t);
      Written(h, |c|, c', nodes') && StandsFor(c', nodes', x, t)
    decreases Uncached(u, c), 0, 0, 0
  {
    if x in c {
      assert c[IndexOf(c, x)] == x;
      assert nodes + [] == nodes;
    } else {
      UncachedPush(u, c, x);
      var (t, _) := SerCached(h, u, x, c);
      SlotsWritten(h, u, Entries(h, x), false, c + [x], nodes + [t]);
      FirstWritten(h, u, x, c, nodes);
    }
  }

  lemma {:induction false} FirstWritten(h: Heap, u: set<Value>, x: Value, c: seq<Value>, nodes: seq<Json>)
    requires Closed(h, u) && x in u && x !in c && |nodes| == |c|
    requires var (t, _) := SerCached(h, u, x, c);
      var (ts, c') := SerSlots(h, u, Entries(h, x), false, c + [x]);
      var nodes' := nodes + [t] + SlotNodes(ts);
      Written(h, |c| + 1, c', nodes') && SlotsText(h, c', nodes', Entries(h, x), false, ts)
    ensures var (t, c') := SerCached(h, u, x, c);
      var nodes' := nodes + IdNodes(t);
      Written(h, |c|, c', nodes') && StandsFor(c', nodes', x, t)
  {
    UncachedPush(u, c, x);
    var (ts, c1) := SerSlots(h, u, Entries(h, x), false, c + [x]);
    var t := JNode(false, [JSlot(ID_COUNT, JLit(Decimal(|c|)))] + ts);
    assert SerCached(h, u, x, c) == (t, c1);
    NodesOfNode(t, ts, nodes);
    var nodes1 := nodes + [t] + SlotNodes(ts);
    assert c1[|c|] == x && nodes1[|c|] == t;
    NodeWritten(h, x, |c|, c1, nodes1, ts);
    OneMoreWritten(h, |c|, c1, nodes1);
  }

  lemma {:induction false} OneMoreWritten(h: Heap, k: nat, c: seq<Value>, nodes: seq<Json>)
    requires Written(h, k + 1, c, nodes) && k < |c| && NodeText(h, c, nodes, k, c[k], nodes[k])
    ensures Written(h, k, c, nodes) && StandsFor(c, nodes, c[k], nodes[k])
  {
  }

  lemma {:induction false} NodesOfNode(t: Json, ts: seq<JSlot>, nodes: seq<Json>)
    requires t.JNode? && !t.isArray && t.slots != [] && !t.slots[0].val.JNode? && t.slots[1..] == ts
    ensures nodes + IdNodes(t) == (nodes + [t]) + SlotNodes(ts)
  {
    assert SlotNodes(t.slots) == [] + SlotNodes(ts);
  }

  lemma {:induction false} CharactersExact(s: string, i: nat)
    requires i <= |s|
    ensures |Characters(s, i)| == |s| - i
    ensures forall k :: 0 <= k < |s| - i ==> Characters(s, i)[k] == Slot(Decimal(i + k), Str([s[i + k]]))
    decreases |s| - i
  {
    if i < |s| { CharactersExact(s, i + 1); }
  }

  lemma {:induction false} NodeWritten(h: Heap, x: Value, k: nat, c: seq<Value>, nodes: seq<Json>, ts: seq<JSlot>)
    requires (x.Ref? ==> x.r in h) && SlotsText(h, c, nodes, Entries(h, x), false, ts)
    ensures NodeText(h, c, nodes, k, x, JNode(false, [JSlot(ID_COUNT, JLit(Decimal(k)))] + ts))
  {
    var slots := [JSlot(ID_COUNT, JLit(Decimal(k)))] + ts;
    assert slots[1..] == ts;
    forall i | 0 <= i < |ts|
      ensures FieldText(h, c, nodes, Entries(h, x)[i].val, ts[i].val)
    {
      assert SlotText(h, c, nodes, Entries(h, x)[i].val, false, ts[i].val);
    }
    if x.Str? {
      CharactersExact(x.s, 0);
      KeptAll(Characters(x.s, 0));
      forall i | 0 <= i < |x.s|
        ensures slots[1 + i] == JSlot(Decimal(i), JStr([x.s[i]]))
      {
        assert Characters(x.s, 0)[i] == Slot(Decimal(0 + i), Str([x.s[0 + i]]));
        assert slots[1 + i] == ts[i];
      }
    }
  }

  // ----- the theorem

  /** Whatever the graph, its text is what the graph says: object `k` is written for the `k`-th value expanded, and
      every field and element of it stands for what the graph holds there. */
  lemma {:induction false} TextExact(h: Heap, root: nat)
    requires WellFormed(h, root)
    ensures var (t, c) := Serialized(h, root);
      IsTextOf(h, root, c, t)
  {
    var u := Cacheable(h, root);
    CacheableClosed(h, root);
    CachedWritten(h, u, Ref(root), [], []);
    ExpandsOnce(h, root);
    var (t, c) := Serialized(h, root);
    assert [] + IdNodes(t) == IdNodes(t);
    HeadExpanded(h, root, false, []);
    assert IdNodes(t)[0] == t;
  }

  /** `serialize` without a cache, in terms of the graph and the text alone. */
  method WriteText(h: Heap, root: nat) returns (out: Output, objCache: seq<Value>)
    requires WellFormed(h, root)
    ensures out.Threw? <==> exists r :: IsExpanded(h, root, Ref(r)) && r in h && HasKey(h[r].slots, "hasOwnProperty")
    ensures !out.Threw? ==> out.Text? && IsTextOf(h, root, objCache, out.tree)
    ensures !out.Threw? ==> forall x :: x in objCache <==> IsExpanded(h, root, x)
  {
    TextExact(h, root);
    ThrowsExactly(h, root);
    ExpandsOnce(h, root);
    var serializer := new Serializer(h);
    out := serializer.SerializeRoot(root);
    objCache := serializer.objCache;
  }

  /** What a field of an expanded object holds is expanded, if it is an object. */
  lemma {:induction false} FieldExpanded(h: Heap, root: nat, a: nat, s: Slot)
    requires IsExpanded(h, root, Ref(a)) && a in h && s in h[a].slots && IsObjectRef(h, s.val)
    ensures IsExpanded(h, root, s.val)
  {
    forall w | Closed(h, w) && Ref(root) in w
      ensures s.val in w
    {
      SlotLeads(h, w, a, s);
    }
  }

  /** Every element of an array that a field of an expanded object holds is expanded, holes included. */
  lemma {:induction false} ElementExpanded(h: Heap, root: nat, a: nat, s: Slot, i: nat)
    requires IsExpanded(h, root, Ref(a)) && a in h && s in h[a].slots && s.val.Ref? && s.val.r in h
    requires h[s.val.r].kind.Array? && i < h[s.val.r].kind.length
    ensures IsExpanded(h, root, ValueAt(h[s.val.r].slots, Decimal(i)))
  {
    forall w | Closed(h, w) && Ref(root) in w
      ensures ValueAt(h[s.val.r].slots, Decimal(i)) in w
    {
      SlotLeads(h, w, a, s);
      assert CacheableIn(h, w, Elements(h[s.val.r])[i].val);
    }
  }

  lemma {:induction false} SlotLeads(h: Heap, w: set<Value>, a: nat, s: Slot)
    requires Closed(h, w) && Ref(a) in w && a in h && s in h[a].slots && s.val != Undefined
    ensures Leads(h, w, s.val, false)
  {
    var i :| 0 <= i < |h[a].slots| && h[a].slots[i] == s;
    KeptAt(h[a].slots, i);
    assert Entries(h, Ref(a))[|Kept(h[a].slots[..i])|] == s;
  }

  /** The object written for an expanded value, in its place among the objects of the text. */
  lemma {:induction false} ExpandedNode(h: Heap, root: nat, x: Value) returns (k: nat)
    requires WellFormed(h, root) && IsExpanded(h, root, x)
    ensures var (t, c) := Serialized(h, root);
      k < |c| && |IdNodes(t)| == |c| && NodeText(h, c, IdNodes(t), k, x, IdNodes(t)[k])
  {
    TextExact(h, root);
    ExpandsOnce(h, root);
    var c := Serialized(h, root).1;
    k :| 0 <= k < |c| && c[k] == x;
  }

  /** An array element that is a string becomes an object of its characters, under their indices. */
  lemma {:induction false} StringElement(h: Heap, root: nat, s: string) returns (k: nat)
    requires WellFormed(h, root) && IsExpanded(h, root, Str(s))
    ensures var nodes := IdNodes(Serialized(h, root).0);
      && k < |nodes| && nodes[k].JNode? && !nodes[k].isArray && |nodes[k].slots| == 1 + |s|
      && nodes[k].slots[0] == JSlot("idCount", JLit(Decimal(k)))
      && forall i :: 0 <= i < |s| ==> nodes[k].slots[1 + i] == JSlot(Decimal(i), JStr([s[i]]))
  {
    k := ExpandedNode(h, root, Str(s));
  }

  /** Null, a boolean, a number or undefined becomes an object with nothing but its id. */
  lemma {:induction false} PrimitiveElement(h: Heap, root: nat, x: Value) returns (k: nat)
    requires WellFormed(h, root) && IsExpanded(h, root, x) && (x.Lit? || x == Undefined)
    ensures var nodes := IdNodes(Serialized(h, root).0);
      k < |nodes| && nodes[k] == JNode(false, [JSlot("idCount", JLit(Decimal(k)))])
  {
    k := ExpandedNode(h, root, x);
    var t := IdNodes(Serialized(h, root).0)[k];
    assert t.slots == [t.slots[0]];
  }
}
