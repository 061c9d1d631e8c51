/**
 The linked list behind sendData and emitMessage of src/appmetrics.cpp, with the memory it owns.

 `live` is the set of nodes and blocks that are allocated and not yet freed.  It is only there to be
 checked: each of them is read, written or freed only while it is live.  How far into a block the reader
 goes is another question; `Delivered` answers it.
 */
module MessageQueue {
  import opened Options

  /** A copy made with `malloc`, or a `std::string`. */
  class Block {
    const bytes: string

    constructor (bytes: string)
      ensures this.bytes == bytes
    {
      this.bytes := bytes;
    }
  }

  class MessageData {
    var data: Block?
    var source: Block?
    var size: nat
    var next: MessageData?

    constructor ()
      ensures data == null && source == null && next == null
    {
      data, source, size, next := null, null, 0, null;
    }
  }

  /** What the listener is called with; without bytes if they are read beyond the end of what holds them. */
  datatype Message = Message(source: string, bytes: Option<string>)

  const NUL := 0 as char

  /** `std::string((char*) data)` reads the block up to the first NUL. */
  function UpToNul(bytes: string): (text: Option<string>) {
    if bytes == "" then None
    else if bytes[0] == NUL then Some("")
    else
      match UpToNul(bytes[1..])
      case None => None
      case Some(rest) => Some([bytes[0]] + rest)
  }

  /** Of the C string of that copy, `CopyBuffer` reads `size` bytes. */
  function Delivered(bytes: string, size: nat): (copy: Option<string>) {
    match UpToNul(bytes)
    case None => None
    case Some(text) => if size <= |text| + 1 then Some((text + [NUL])[..size]) else None
  }

  /** The last byte is a NUL, and no other. */
  predicate IsCString(bytes: string) {
    bytes != "" && forall i :: 0 <= i < |bytes| ==> (bytes[i] == NUL <==> i == |bytes| - 1)
  }

  /** `n` is where the first NUL is, or the length. */
  lemma {:induction false} FirstNul(bytes: string) returns (n: nat)
    ensures n <= |bytes| && (n < |bytes| ==> bytes[n] == NUL) && forall i :: 0 <= i < n ==> bytes[i] != NUL
    ensures UpToNul(bytes) == if n < |bytes| then Some(bytes[..n]) else None
  {
    n := 0;
    if bytes != "" && bytes[0] != NUL {
      var m := FirstNul(bytes[1..]);
      n := m + 1;
      assert forall i :: 0 < i < |bytes| ==> bytes[i] == bytes[1..][i - 1];
      assert n < |bytes| ==> [bytes[0]] + bytes[1..][..m] == bytes[..n];
    }
  }

  /** The bytes that a producer hands over reach the listener, all of them and unchanged, if and only if the first
      NUL is the last of them; otherwise the reader goes past the end of the block or of the copy. */
  lemma {:induction false} DeliveredExactly(bytes: string)
    requires bytes != ""
    ensures IsCString(bytes) <==> Delivered(bytes, |bytes|) == Some(bytes)
    ensures IsCString(bytes) <==> Delivered(bytes, |bytes|).Some?
  {
    var n := FirstNul(bytes);
    if n == |bytes| - 1 {
      var text := bytes[..n];
      assert text + [NUL] == bytes && (text + [NUL])[..|bytes|] == bytes;
      assert Delivered(bytes, |bytes|) == Some(bytes);
    } else {
      assert n < |bytes| ==> bytes[n] == NUL;
      assert n == |bytes| ==> bytes[|bytes| - 1] != NUL;
    }
  }

  /** What one node of a list is made of. */
  datatype Cell = Cell(node: MessageData, data: Block, source: Block, size: nat) {
    ghost function Owned(): (s: set<object>) {
      {node, data, source}
    }

    function Read(): (res: Message) {
      Message(source.bytes, Delivered(data.bytes, size))
    }

    ghost predicate InMemory(next: MessageData?)
      reads node
    {
      node.data == data && node.source == source && node.size == size && node.next == next
    }
  }

  function Head(cs: seq<Cell>): (res: MessageData?) {
    if cs == [] then null else cs[0].node
  }

  /** No two cells share memory. */
  ghost predicate Separate(cs: seq<Cell>) {
    && (forall i :: 0 <= i < |cs| ==> cs[i].data != cs[i].source)
    && (forall i, j :: 0 <= i < j < |cs| ==> cs[i].Owned() !! cs[j].Owned())
  }

  ghost function Nodes(cs: seq<Cell>): (s: set<MessageData>) {
    set c | c in cs :: c.node
  }

  /** Following `next` from the first node meets these cells, in this order, and then ends. */
  ghost predicate Linked(cs: seq<Cell>)
    reads Nodes(cs)
  {
    forall i {:trigger cs[i]} :: 0 <= i < |cs| ==> cs[i].InMemory(Head(cs[i + 1..]))
  }

  /** Filled in, and in no list yet. */
  ghost predicate Unlinked(cs: seq<Cell>)
    reads Nodes(cs)
  {
    forall i {:trigger cs[i]} :: 0 <= i < |cs| ==> cs[i].InMemory(null)
  }

  ghost function Messages(cs: seq<Cell>): (items: seq<Message>) {
    if cs == [] then [] else [cs[0].Read()] + Messages(cs[1..])
  }

  ghost function AllOwned(cs: seq<Cell>): (s: set<object>) {
    if cs == [] then {} else cs[0].Owned() + AllOwned(cs[1..])
  }

  /**
   What the detached list `ds`, the list `cs` and the prepared payloads `ps` hold between two critical
   sections: all memory that is live is owned by one of them, once, or lost for good, and what has been
   enqueued is delivered, detached or listed, in this order.
   */
  ghost predicate Sound(ds: seq<Cell>, cs: seq<Cell>, ps: seq<Cell>, live: set<object>, lost: set<object>,
                        log: seq<Message>, enqueued: seq<Message>)
  {
    && Separate(ds + cs + ps)
    && AllOwned(ds + cs + ps) !! lost && live == AllOwned(ds + cs + ps) + lost
    && log + Messages(ds) + Messages(cs) == enqueued
  }

  /** A call of `sendData`, and which of its allocations succeed. */
  datatype Call = Call(source: string, size: nat, data: string, memory: Memory) {
    /** What the listener is to get. */
    function Sent(): (res: Message)
      requires size <= |data|
    {
      Message(source, Delivered(data[..size], size))
    }
  }

  /** The listener gets the source, and the data if they are a C string. */
  predicate Arrives(call: Call, m: Message)
    requires call.size <= |call.data|
  {
    && m.source == call.source
    && (IsCString(call.data[..call.size]) ==> m.bytes == Some(call.data[..call.size]))
    && (!IsCString(call.data[..call.size]) && call.size != 0 ==> m.bytes == None)
  }

  lemma {:induction false} SentArrives(call: Call)
    requires call.size <= |call.data|
    ensures Arrives(call, call.Sent())
  {
    if call.size != 0 { DeliveredExactly(call.data[..call.size]); }
  }

  /** What a thread does without another one seeing its halves. */
  datatype Step = Prepare(call: Call) | Link(k: nat) | Detach | Turn

  /** What is in memory at some moment, as messages. */
  datatype Contents = Contents(prepared: seq<Message>, listed: seq<Message>, detached: seq<Message>, log: seq<Message>)

  function Without<T>(xs: seq<T>, k: nat): (items: seq<T>)
    requires k < |xs|
    ensures |items| == |xs| - 1
    ensures forall j :: 0 <= j < |items| ==> items[j] == xs[if j < k then j else j + 1]
  {
    xs[..k] + xs[k + 1..]
  }

  /** The message of a call gets as far as the lock. */
  predicate Goes(call: Call) {
    0 < call.size <= |call.data| && Succeeds(call.memory)
  }

  function Did(v: Contents, step: Step): (w: Contents) {
    match step
    case Prepare(call) => if Goes(call) then v.(prepared := v.prepared + [call.Sent()]) else v
    case Link(k) =>
      if k < |v.prepared| then v.(prepared := Without(v.prepared, k), listed := v.listed + [v.prepared[k]]) else v
    case Detach => if v.detached == [] then v.(detached := v.listed, listed := []) else v
    case Turn =>
      if v.detached != [] then v.(detached := v.detached[1..], log := v.log + [v.detached[0]]) else v
  }

  /** What each step brings about: a call that goes through leaves one message prepared, a link puts one at the end of
      the list, a detach takes the whole list, and a turn delivers the first message. */
  predicate Happened(v: Contents, step: Step, w: Contents) {
    match step
    case Prepare(call) =>
      && w.listed == v.listed && w.detached == v.detached && w.log == v.log
      && (!Goes(call) ==> w.prepared == v.prepared)
      && (Goes(call) ==> |w.prepared| == |v.prepared| + 1 && v.prepared <= w.prepared)
      && (Goes(call) ==> Arrives(call, w.prepared[|v.prepared|]))
    case Link(k) =>
      && w.detached == v.detached && w.log == v.log
      && (k >= |v.prepared| ==> w.prepared == v.prepared && w.listed == v.listed)
      && (k < |v.prepared| ==>
           w.listed == v.listed + [v.prepared[k]] && w.prepared == v.prepared[..k] + v.prepared[k + 1..])
    case Detach =>
      && w.prepared == v.prepared && w.log == v.log
      && (v.detached == [] ==> w.detached == v.listed && w.listed == [])
      && (v.detached != [] ==> w.detached == v.detached && w.listed == v.listed)
    case Turn =>
      && w.prepared == v.prepared && w.listed == v.listed
      && (v.detached == [] ==> w.detached == [] && w.log == v.log)
      && (v.detached != [] ==> w.detached == v.detached[1..] && w.log == v.log + [v.detached[0]])
  }

  lemma {:induction false} DidHappens(v: Contents, step: Step)
    ensures Happened(v, step, Did(v, step))
  {
    if step.Prepare? && Goes(step.call) { SentArrives(step.call); }
  }

  function DidAll(v: Contents, steps: seq<Step>): (w: Contents)
    decreases |steps|
  {
    if steps == [] then v else DidAll(Did(v, steps[0]), steps[1..])
  }

  /** Each step counts, in its turn. */
  lemma {:induction false} DidAllEach(v: Contents, steps: seq<Step>, step: Step)
    ensures DidAll(v, []) == v && DidAll(v, steps + [step]) == Did(DidAll(v, steps), step)
    decreases |steps|
  {
    if steps == [] {
      assert [] + [step] == [step] && [step][1..] == [];
    } else {
      DidAllEach(Did(v, steps[0]), steps[1..], step);
      assert (steps + [step])[0] == steps[0] && (steps + [step])[1..] == steps[1..] + [step];
    }
  }

  function LinkedBy(v: Contents, step: Step): (ms: seq<Message>) {
    if step.Link? && step.k < |v.prepared| then [v.prepared[step.k]] else []
  }

  /** The messages linked, in the order of the links. */
  function Linkings(v: Contents, steps: seq<Step>): (ms: seq<Message>)
    decreases |steps|
  {
    if steps == [] then [] else LinkedBy(v, steps[0]) + Linkings(Did(v, steps[0]), steps[1..])
  }

  /** The steps lead from `v` to `w`, and what they link is enqueued. */
  ghost predicate Leads(v: Contents, steps: seq<Step>, w: Contents, before: seq<Message>, after: seq<Message>) {
    w == DidAll(v, steps) && after == before + Linkings(v, steps)
  }

  lemma {:induction false} LeadsFirst(v: Contents, steps: seq<Step>, mid: Contents, w: Contents,
      before: seq<Message>, between: seq<Message>, after: seq<Message>)
    requires steps != [] && mid == Did(v, steps[0]) && between == before + LinkedBy(v, steps[0])
    requires Leads(mid, steps[1..], w, between, after)
    ensures Leads(v, steps, w, before, after)
  {
  }

  /** First in, first out: what has been delivered, detached and listed is what was linked, in the order of the
      lock. */
  lemma {:induction false} FirstInFirstOut(v: Contents, steps: seq<Step>)
    ensures var w := DidAll(v, steps);
      w.log + w.detached + w.listed == v.log + v.detached + v.listed + Linkings(v, steps)
    decreases |steps|
  {
    if steps != [] {
      FirstInFirstOut(Did(v, steps[0]), steps[1..]);
      OneFirstInFirstOut(v, steps[0]);
    }
  }

  lemma {:induction false} OneFirstInFirstOut(v: Contents, step: Step)
    ensures var w := Did(v, step);
      w.log + w.detached + w.listed == v.log + v.detached + v.listed + LinkedBy(v, step)
  {
    if step.Turn? && v.detached != [] {
      assert v.detached == [v.detached[0]] + v.detached[1..];
    }
  }

  predicate NoLeaks(steps: seq<Step>) {
    forall i :: 0 <= i < |steps| && steps[i].Prepare? ==> !Leaks(steps[i].call)
  }

  predicate ProducersOnly(steps: seq<Step>) {
    forall i :: 0 <= i < |steps| ==> steps[i].Prepare? || steps[i].Link?
  }

  lemma {:induction false} FirstOfSteps(steps: seq<Step>)
    requires steps != []
    ensures NoLeaks(steps) ==> (steps[0].Prepare? ==> !Leaks(steps[0].call)) && NoLeaks(steps[1..])
    ensures ProducersOnly(steps) ==> (steps[0].Prepare? || steps[0].Link?) && ProducersOnly(steps[1..])
  {
  }

  datatype Memory = Memory(payload: bool, copy: bool, source: bool)

  /** The payload itself, the copy of the data and the copy of the source are there. */
  predicate Succeeds(memory: Memory) {
    memory == Memory(true, true, true)
  }

  /** The copy of the data is there, and nobody will free it. */
  predicate Leaks(call: Call) {
    call.size != 0 && call.memory == Memory(true, true, false)
  }

  /**
   The list, and what the threads hold between two critical sections: `prepared` are the payloads that
   producers have filled in and not linked yet, `currentMessage` is where the event loop is in the list
   it has detached.  Both are local variables in the source.
   */
  class Queue {
    var messageList: MessageData?
    var currentMessage: MessageData?
    var prepared: seq<Cell>
    var log: seq<Message>
    ghost var cells: seq<Cell>
    ghost var detached: seq<Cell>
    ghost var enqueued: seq<Message>
    ghost var live: set<object>
    ghost var lost: set<object>
    ghost var repr: set<MessageData>

    constructor ()
      ensures Valid() && prepared == [] && cells == detached == [] && live == lost == {} && repr == {}
      ensures enqueued == log == []
    {
      messageList, currentMessage, prepared, log := null, null, [], [];
      cells, detached, enqueued, live, lost, repr := [], [], [], {}, {}, {};
    }

    /** Where the pointers point. */
    ghost predicate Placed()
      reads this, Nodes(cells), Nodes(detached), Nodes(prepared)
    {
      && messageList == Head(cells) && Linked(cells)
      && currentMessage == Head(detached) && Linked(detached)
      && Unlinked(prepared)
    }

    /** What holds between two critical sections, of whatever threads. */
    ghost predicate Valid()
      reads this, repr
    {
      && Nodes(detached) <= repr && Nodes(cells) <= repr && Nodes(prepared) <= repr
      && Placed() && Sound(detached, cells, prepared, live, lost, log, enqueued)
    }

    /** `freePayload`. */
    method FreePayload(payload: MessageData?)
      requires payload != null ==> payload in live
      requires payload != null && payload.data != null ==> payload.data in live
      requires payload != null && payload.source != null ==> payload.source in live && payload.source != payload.data
      modifies this`live, payload
      ensures payload != null ==> live == old(live) - {payload, old(payload.data), old(payload.source)}
      ensures payload == null ==> live == old(live)
    {
      if payload == null {
        return;
      }
      if payload.data != null {
        live := live - {payload.data};
        payload.data := null;
      }
      if payload.source != null {
        live := live - {payload.source};
        payload.source := null;
      }
      payload.next := null;
      live := live - {payload};
    }

    /** The walk to the cell that holds the terminating null: the `next` of node `at`, or the head if null. */
    method FindTail() returns (at: MessageData?)
      requires messageList == Head(cells) && Linked(cells) && AllOwned(cells) <= live
      ensures at == if cells == [] then null else cells[|cells| - 1].node
    {
      at := null;
      var tail := messageList;
      ghost var i := 0;
      while tail != null
        invariant 0 <= i <= |cells| && at == (if i == 0 then null else cells[i - 1].node)
        invariant tail == Head(cells[i..])
        modifies {}
        decreases |cells| - i
      {
        assert cells[i].InMemory(Head(cells[i + 1..]));
        OwnedMember(cells, i);
        assert tail in live;
        at := tail;
        tail := tail.next;
        i := i + 1;
      }
      assert i == |cells|;
    }

    /** The end of `sendData`, under the lock. */
    method Append(payload: MessageData, ghost cell: Cell)
      requires messageList == Head(cells) && Linked(cells) && Separate(cells) && AllOwned(cells) <= live
      requires cell.node == payload && cell.InMemory(null) && cell.Owned() !! AllOwned(cells)
      modifies this`messageList, this`cells, Nodes(cells)
      ensures messageList == Head(cells) && Linked(cells) && cells == old(cells) + [cell]
    {
      var at := FindTail();
      OwnedApart(cells, cell);
      OwnedAppended(cells, cell);
      if at == null {
        messageList := payload;
      } else {
        at.next := payload;
      }
      ghost var was := cells;
      cells := cells + [cell];
      forall k | 0 <= k < |cells|
        ensures cells[k].InMemory(Head(cells[k + 1..]))
      {
        assert k < |was| ==> Head(was[k + 1..]) == if k + 1 < |was| then was[k + 1].node else null;
      }
    }

    /** The copies that `sendData` makes; `memory` says which allocations succeed. */
    method NewPayload(source: string, size: nat, data: string, memory: Memory)
      returns (payload: MessageData?, made: seq<Cell>)
      requires size <= |data|
      modifies this`live
      ensures payload == Head(made) && |made| == (if Succeeds(memory) then 1 else 0)
      ensures payload != null ==>
        && made[0].InMemory(null) && made[0].data != made[0].source && fresh(made[0].Owned())
        && made[0].Read() == Message(source, Delivered(data[..size], size)) && live == old(live) + made[0].Owned()
      ensures payload == null ==> exists unfreed: set<object> ::
        && fresh(unfreed) && live == old(live) + unfreed
        && (unfreed == {} <==> !memory.payload || !memory.copy || memory.source)
    {
      payload, made := null, [];
      if !memory.payload {
        assert live == old(live) + {};
        return;
      }
      payload := new MessageData();
      live := live + {payload};
      var dataCopy: Block? := null;
      if memory.copy {
        dataCopy := new Block(data[..size]);
        live := live + {dataCopy};
      }
      if memory.source {
        payload.source := new Block(source);
        live := live + {payload.source};
      }
      if dataCopy == null || payload.source == null {
        FreePayload(payload);
        payload := null;
        ghost var unfreed: set<object> := if dataCopy == null then {} else {dataCopy};
        assert fresh(unfreed) && live == old(live) + unfreed;
        return;
      }
      payload.data := dataCopy;
      payload.size := size;
      payload.next := null;
      made := [Cell(payload, dataCopy, payload.source, size)];
    }

    /** `sendData` up to the lock. */
    method Prepare(call: Call)
      requires Valid() && call.size <= |call.data|
      modifies this`prepared, this`live, this`lost, this`repr
      ensures Valid() && fresh(repr - old(repr)) && lost >= old(lost) && (lost == old(lost) <==> !Leaks(call))
      ensures |prepared| == old(|prepared|) + (if call.size != 0 && Succeeds(call.memory) then 1 else 0)
      ensures old(prepared) <= prepared
      ensures |prepared| > old(|prepared|) ==>
        prepared[old(|prepared|)].Read() == call.Sent()
    {
      if call.size == 0 {
        return;
      }
      ghost var was := live;
      var payload, made := NewPayload(call.source, call.size, call.data, call.memory);
      if payload == null {
        ghost var unfreed: set<object> :| fresh(unfreed) && live == was + unfreed
          && (unfreed == {} <==> !call.memory.payload || !call.memory.copy || call.memory.source);
        Lose(unfreed, was);
        return;
      }
      Keep(payload, made[0], was);
    }

    /** What a failed allocation leaves behind. */
    ghost method Lose(unfreed: set<object>, was: set<object>)
      requires Nodes(detached) <= repr && Nodes(cells) <= repr && Nodes(prepared) <= repr
      requires Placed() && Sound(detached, cells, prepared, was, lost, log, enqueued)
      requires unfreed !! was && live == was + unfreed
      modifies this`lost
      ensures Valid() && lost == old(lost) + unfreed
    {
      SoundLost(detached, cells, prepared, was, lost, log, enqueued, unfreed);
      lost := lost + unfreed;
    }

    /** Nobody but its producer knows of a new payload. */
    method Keep(payload: MessageData, cell: Cell, ghost was: set<object>)
      requires Nodes(detached) <= repr && Nodes(cells) <= repr && Nodes(prepared) <= repr
      requires Placed() && Sound(detached, cells, prepared, was, lost, log, enqueued)
      requires cell.node == payload && cell.InMemory(null) && cell.data != cell.source
      requires cell.Owned() !! was && live == was + cell.Owned()
      modifies this`prepared, this`repr
      ensures Valid() && prepared == old(prepared) + [cell] && repr == old(repr) + {payload}
    {
      SoundAdded(detached, cells, prepared, was, lost, log, enqueued, cell);
      prepared := prepared + [cell];
      repr := repr + {payload};
    }

    /** Appending touches neither the detached list nor any payload that is still to be linked. */
    method AppendPrepared(k: nat)
      requires Placed() && Sound(detached, cells, prepared, live, lost, log, enqueued) && k < |prepared|
      modifies this`messageList, this`cells, Nodes(cells)
      ensures Placed() && cells == old(cells) + [prepared[k]]
    {
      SoundParts(detached, cells, prepared, live, lost, log, enqueued);
      Append(prepared[k].node, prepared[k]);
    }

    /** The critical section of `sendData`, for any one of the producers that have come so far. */
    method Link(k: nat)
      requires Valid() && k < |prepared|
      modifies this`messageList, this`cells, this`prepared, this`enqueued, Nodes(cells)
      ensures Valid()
      ensures prepared == old(prepared[..k] + prepared[k + 1..]) && cells == old(cells) + [old(prepared[k])]
      ensures enqueued == old(enqueued) + [old(prepared[k]).Read()]
    {
      SoundLinked(detached, cells, prepared, live, lost, log, enqueued, k);
      assert prepared[k].node in Nodes(prepared);
      NodesAppended(cells, prepared[k], repr);
      AppendPrepared(k);
      Unprepare(k);
    }

    /** The payload is in the list now. */
    method Unprepare(k: nat)
      requires k < |prepared| && Placed()
      requires Nodes(detached) <= repr && Nodes(cells) <= repr && Nodes(prepared) <= repr
      requires Sound(detached, cells, prepared[..k] + prepared[k + 1..], live, lost, log,
                     enqueued + [prepared[k].Read()])
      modifies this`prepared, this`enqueued
      ensures Valid() && prepared == old(prepared[..k] + prepared[k + 1..])
      ensures enqueued == old(enqueued) + [old(prepared[k]).Read()]
    {
      WithoutUnlinked(prepared, k);
      enqueued := enqueued + [prepared[k].Read()];
      prepared := prepared[..k] + prepared[k + 1..];
    }

    /** `sendData` when no other thread comes in between; `wake` says whether it gets to `uv_async_send`. */
    method SendData(call: Call) returns (wake: bool)
      requires Valid() && call.size <= |call.data|
      modifies this`messageList, this`cells, this`prepared, this`enqueued, this`live, this`lost, this`repr, repr
      ensures Valid() && fresh(repr - old(repr)) && prepared == old(prepared)
      ensures wake <==> call.size != 0 && Succeeds(call.memory)
      ensures enqueued == old(enqueued) + if wake then [call.Sent()] else []
      ensures wake ==> Arrives(call, enqueued[|enqueued| - 1])
      ensures lost >= old(lost) && (lost == old(lost) <==> !Leaks(call))
    {
      ghost var before := prepared;
      var n := |prepared|;
      SentArrives(call);
      Prepare(call);
      wake := |prepared| > n;
      if wake {
        assert prepared == before + [prepared[n]];
        LinkLast(before);
      }
    }

    method LinkLast(ghost others: seq<Cell>)
      requires Valid() && |prepared| > 0 && prepared == others + [prepared[|prepared| - 1]]
      modifies this`messageList, this`cells, this`prepared, this`enqueued, Nodes(cells)
      ensures Valid() && prepared == others
      ensures enqueued == old(enqueued) + [old(prepared[|prepared| - 1]).Read()]
    {
      ghost var n := |prepared| - 1;
      assert prepared[..n] + prepared[n + 1..] == others;
      Link(|prepared| - 1);
    }

    /** The critical section of `emitMessage`. */
    method Detach()
      requires Valid() && currentMessage == null
      modifies this`messageList, this`currentMessage, this`cells, this`detached
      ensures Valid()
      ensures messageList == null && cells == [] && detached == old(cells)
    {
      NoneDetached(detached);
      SoundDetached(cells, prepared, live, lost, log, enqueued);
      TakeList();
    }

    /** Its assignments. */
    method TakeList()
      requires Placed()
      modifies this`messageList, this`currentMessage, this`cells, this`detached
      ensures Placed() && messageList == null && cells == [] && detached == old(cells)
    {
      currentMessage := messageList;
      messageList := null;
      detached, cells := cells, [];
    }

    /** One turn of the loop of `emitMessage`: the first node is delivered, read once more, and freed. */
    method Deliver()
      requires currentMessage == Head(detached) && Linked(detached) && Separate(detached) && AllOwned(detached) <= live
      requires currentMessage != null
      modifies this`currentMessage, this`detached, this`log, this`live, currentMessage
      ensures currentMessage == Head(detached) && Linked(detached) && detached == old(detached[1..])
      ensures log == old(log) + [old(detached)[0].Read()] && live == old(live) - old(detached)[0].Owned()
    {
      ghost var cs := detached;
      OwnedTail(cs);
      assert cs[0].InMemory(Head(cs[1..]));
      log := log + [Message(currentMessage.source.bytes, Delivered(currentMessage.data.bytes, currentMessage.size))];
      var nextMessage := currentMessage.next;
      FreePayload(currentMessage);
      currentMessage, detached := nextMessage, cs[1..];
      forall i | 0 <= i < |cs[1..]|
        ensures cs[1..][i].InMemory(Head(cs[1..][i + 1..]))
      {
        assert cs[1..][i] == cs[i + 1] && cs[1..][i + 1..] == cs[i + 2..];
        assert cs[0].Owned() !! cs[i + 1].Owned();
      }
    }

    /** The same, with everything the other threads hold. */
    method Turn()
      requires Valid() && currentMessage != null
      modifies this`currentMessage, this`detached, this`log, this`live, currentMessage
      ensures Valid()
      ensures detached == old(detached[1..]) && log == old(log) + [old(detached)[0].Read()]
      ensures log + Messages(detached) == old(log + Messages(detached))
    {
      SoundParts(detached, cells, prepared, live, lost, log, enqueued);
      SoundDelivered(detached, cells, prepared, live, lost, log, enqueued);
      MessagesTail(log, detached, []);
      assert currentMessage == detached[0].node && detached[0] in detached;
      Deliver();
    }

    ghost function View(): (v: Contents)
      reads this
    {
      Contents(Messages(prepared), Messages(cells), Messages(detached), log)
    }

    method PerformPrepare(call: Call)
      requires Valid()
      modifies this, repr
      ensures Valid() && fresh(repr - old(repr)) && lost >= old(lost) && (!Leaks(call) ==> lost == old(lost))
      ensures cells == old(cells) && detached == old(detached) && log == old(log) && enqueued == old(enqueued)
      ensures !Goes(call) ==> prepared == old(prepared)
      ensures Goes(call) ==> |prepared| == old(|prepared|) + 1 && old(prepared) <= prepared
      ensures Goes(call) ==> Arrives(call, prepared[old(|prepared|)].Read())
      ensures View() == Did(old(View()), Step.Prepare(call))
    {
      if call.size <= |call.data| {
        ghost var before := prepared;
        SentArrives(call);
        Prepare(call);
        if Goes(call) {
          assert prepared == before + [prepared[|before|]];
          OwnedAppended(before, prepared[|before|]);
        } else {
          assert prepared == before;
        }
      }
    }

    method PerformLink(k: nat)
      requires Valid()
      modifies this, repr
      ensures Valid() && fresh(repr - old(repr)) && lost == old(lost) && detached == old(detached) && log == old(log)
      ensures k >= old(|prepared|) ==> prepared == old(prepared) && cells == old(cells) && enqueued == old(enqueued)
      ensures k < old(|prepared|) ==>
        && prepared == old(prepared[..k] + prepared[k + 1..]) && cells == old(cells) + [old(prepared[k])]
        && enqueued == old(enqueued) + [old(prepared[k]).Read()]
      ensures View() == Did(old(View()), Step.Link(k))
    {
      MessagesAt(prepared);
      if k < |prepared| {
        OwnedAppended(cells, prepared[k]);
        MessagesWithout(prepared, k);
        Link(k);
      }
    }

    method PerformDetach()
      requires Valid()
      modifies this, repr
      ensures Valid() && fresh(repr - old(repr)) && lost == old(lost) && log == old(log)
      ensures prepared == old(prepared) && enqueued == old(enqueued)
      ensures old(detached) == [] ==> detached == old(cells) && cells == [] && messageList == null
      ensures old(detached) != [] ==> detached == old(detached) && cells == old(cells)
      ensures View() == Did(old(View()), Step.Detach)
    {
      MessagesAt(detached);
      if currentMessage == null {
        Detach();
      }
    }

    method PerformTurn()
      requires Valid()
      modifies this, repr
      ensures Valid() && fresh(repr - old(repr)) && lost == old(lost)
      ensures prepared == old(prepared) && cells == old(cells) && enqueued == old(enqueued)
      ensures old(detached) == [] ==> detached == [] && log == old(log)
      ensures old(detached) != [] ==>
        detached == old(detached[1..]) && log == old(log) + [old(detached)[0].Read()]
      ensures View() == Did(old(View()), Step.Turn)
    {
      MessagesAt(detached);
      if currentMessage != null {
        Turn();
      }
    }

    /** One critical section, if it is due. */
    method Perform(step: Step)
      requires Valid()
      modifies this, repr
      ensures Valid() && fresh(repr - old(repr)) && lost >= old(lost)
      ensures View() == Did(old(View()), step)
      ensures enqueued == old(enqueued) + LinkedBy(old(View()), step)
      ensures (step.Prepare? ==> !Leaks(step.call)) ==> lost == old(lost)
      ensures step.Prepare? || step.Link? ==> log == old(log) && detached == old(detached)
    {
      match step
      case Prepare(call) => PerformPrepare(call);
      case Link(k) =>
        MessagesAt(prepared);
        PerformLink(k);
      case Detach => PerformDetach();
      case Turn => PerformTurn();
    }

    /** Any interleaving of the critical sections of producers and event loop. */
    method Interleave(steps: seq<Step>)
      requires Valid()
      modifies this, repr
      ensures Valid() && fresh(repr - old(repr))
      ensures Leads(old(View()), steps, View(), old(enqueued), enqueued) && lost >= old(lost)
      ensures NoLeaks(steps) ==> lost == old(lost)
      ensures ProducersOnly(steps) ==> log == old(log) && detached == old(detached)
      ensures steps == [] ==> messageList == old(messageList)
      decreases |steps|
    {
      if steps != [] {
        FirstOfSteps(steps);
        Perform(steps[0]);
        ghost var mid, between := View(), enqueued;
        Interleave(steps[1..]);
        LeadsFirst(old(View()), steps, mid, View(), old(enqueued), between, enqueued);
      }
    }

    /** One turn of the loop of `emitMessage`, after what the producers did since the last one. */
    method InterruptedTurn(others: seq<Step>)
      requires Valid() && currentMessage != null && ProducersOnly(others)
      modifies this, repr
      ensures Valid() && fresh(repr - old(repr))
      ensures detached == old(detached[1..]) && log + Messages(detached) == old(log + Messages(detached))
      ensures lost >= old(lost)
      ensures others == [] ==> messageList == old(messageList) && lost == old(lost)
    {
      Interleave(others);
      Turn();
    }

    /** `emitMessage`, with the steps that producers take before each of its turns and before it returns. */
    method EmitMessage(others: nat -> seq<Step>)
      requires Valid() && currentMessage == null
      requires forall i :: ProducersOnly(others(i))
      modifies this, repr
      ensures Valid() && currentMessage == null && fresh(repr - old(repr))
      ensures log == old(log + Messages(cells)) && lost >= old(lost)
      ensures (forall i :: others(i) == []) ==> messageList == null && log == enqueued && lost == old(lost)
    {
      Detach();
      var i := Drain(others);
      Interleave(others(i));
    }

    /** Its loop, `i` turns in all. */
    method Drain(others: nat -> seq<Step>) returns (i: nat)
      requires Valid() && forall k :: ProducersOnly(others(k))
      modifies this, repr
      ensures Valid() && currentMessage == null && fresh(repr - old(repr))
      ensures log == old(log + Messages(detached)) && lost >= old(lost)
      ensures (forall k :: others(k) == []) ==> messageList == old(messageList) && lost == old(lost)
    {
      ghost var quiet := forall k :: others(k) == [];
      ghost var all := log + Messages(detached);
      i := 0;
      while currentMessage != null
        invariant Valid() && fresh(repr - old(repr))
        invariant log + Messages(detached) == all && lost >= old(lost)
        invariant quiet ==> messageList == old(messageList) && lost == old(lost)
        decreases |detached|
      {
        InterruptedTurn(others(i));
        i := i + 1;
      }
    }
  }

  /** A message of one byte whose source cannot be copied is not sent, and leaves the copy of the byte behind. */
  method SourceAllocationLeaks() returns (queue: Queue)
    ensures queue.Valid() && queue.enqueued == [] && queue.lost != {}
  {
    queue := new Queue();
    var wake := queue.SendData(Call("s", 1, "d", Memory(true, true, false)));
  }

  lemma {:induction false} NoneDetached(cs: seq<Cell>)
    ensures Head(cs) == null ==> cs == []
  {
  }

  lemma {:induction false} MessagesAt(cs: seq<Cell>)
    ensures |Messages(cs)| == |cs| && forall i :: 0 <= i < |cs| ==> Messages(cs)[i] == cs[i].Read()
  {
    if cs != [] { MessagesAt(cs[1..]); }
  }

  lemma {:induction false} MessagesWithout(cs: seq<Cell>, k: nat)
    requires k < |cs|
    ensures |Messages(cs)| == |cs| && Messages(cs[..k] + cs[k + 1..]) == Without(Messages(cs), k)
  {
    MessagesAt(cs);
    MessagesAt(cs[..k] + cs[k + 1..]);
  }

  lemma {:induction false} MessagesTail(before: seq<Message>, cs: seq<Cell>, after: seq<Message>)
    requires cs != []
    ensures before + [cs[0].Read()] + Messages(cs[1..]) + after == before + Messages(cs) + after
  {
  }

  lemma {:induction false} OwnedApart(cs: seq<Cell>, c: Cell)
    requires c.Owned() !! AllOwned(cs)
    ensures forall i :: 0 <= i < |cs| ==> cs[i].Owned() !! c.Owned()
  {
    if cs != [] {
      OwnedApart(cs[1..], c);
      assert forall i :: 0 < i < |cs| ==> cs[i] == cs[1..][i - 1];
    }
  }

  lemma {:induction false} OwnedAppended(cs: seq<Cell>, c: Cell)
    ensures AllOwned(cs + [c]) == AllOwned(cs) + c.Owned()
    ensures Messages(cs + [c]) == Messages(cs) + [c.Read()]
  {
    if cs == [] {
      assert [c][1..] == [];
    } else {
      OwnedAppended(cs[1..], c);
      assert (cs + [c])[1..] == cs[1..] + [c];
    }
  }

  lemma {:induction false} OwnedMember(cs: seq<Cell>, i: nat)
    requires i < |cs|
    ensures cs[i].Owned() <= AllOwned(cs)
  {
    if i > 0 {
      OwnedMember(cs[1..], i - 1);
    }
  }

  /** The first cell shares nothing with the others. */
  lemma {:induction false} OwnedTail(cs: seq<Cell>)
    requires Separate(cs) && cs != []
    ensures Separate(cs[1..]) && cs[0].Owned() !! AllOwned(cs[1..]) && Nodes(cs[1..]) <= Nodes(cs)
  {
    OwnedDisjoint(cs[1..], cs[0]);
  }

  lemma {:induction false} OwnedDisjoint(cs: seq<Cell>, c: Cell)
    requires forall i :: 0 <= i < |cs| ==> c.Owned() !! cs[i].Owned()
    ensures c.Owned() !! AllOwned(cs)
  {
    if cs != [] {
      OwnedDisjoint(cs[1..], c);
    }
  }

  lemma {:induction false} MessagesAppended(before: seq<Message>, cs: seq<Cell>, c: Cell)
    ensures before + Messages(cs + [c]) == before + Messages(cs) + [c.Read()]
  {
    OwnedAppended(cs, c);
  }

  lemma {:induction false} SeparateAppended(cs: seq<Cell>, c: Cell)
    requires Separate(cs) && c.data != c.source && c.Owned() !! AllOwned(cs)
    ensures Separate(cs + [c])
  {
    OwnedApart(cs, c);
  }

  lemma {:induction false} NodesApart(a: seq<Cell>, b: seq<Cell>)
    requires AllOwned(a) !! AllOwned(b)
    ensures Nodes(a) !! Nodes(b)
  {
    forall i | 0 <= i < |a|
      ensures a[i].node as object in AllOwned(a)
    {
      OwnedMember(a, i);
    }
    forall i | 0 <= i < |b|
      ensures b[i].node as object in AllOwned(b)
    {
      OwnedMember(b, i);
    }
  }

  // ----- soundness, step by step

  lemma {:induction false} SoundParts(ds: seq<Cell>, cs: seq<Cell>, ps: seq<Cell>, live: set<object>,
      lost: set<object>, log: seq<Message>, enqueued: seq<Message>)
    requires Sound(ds, cs, ps, live, lost, log, enqueued)
    ensures Separate(ds) && Separate(cs) && Separate(ps)
    ensures AllOwned(ds) <= live && AllOwned(cs) <= live && AllOwned(ps) <= live
    ensures Nodes(ds) !! Nodes(cs) !! Nodes(ps)
    ensures forall i :: 0 <= i < |ps| ==> ps[i].Owned() !! AllOwned(cs)
  {
    OwnedJoin(ds + cs, ps);
    OwnedJoin(ds, cs);
    SeparateJoin(ds + cs, ps);
    SeparateJoin(ds, cs);
    NodesApart(ds, cs);
    NodesApart(ds + cs, ps);
    assert Nodes(ds + cs) == Nodes(ds) + Nodes(cs);
    forall i | 0 <= i < |ps|
      ensures ps[i].Owned() !! AllOwned(cs)
    {
      OwnedMember(ps, i);
    }
  }

  lemma {:induction false} SoundLost(ds: seq<Cell>, cs: seq<Cell>, ps: seq<Cell>, live: set<object>,
      lost: set<object>, log: seq<Message>, enqueued: seq<Message>, more: set<object>)
    requires Sound(ds, cs, ps, live, lost, log, enqueued) && more !! live
    ensures Sound(ds, cs, ps, live + more, lost + more, log, enqueued)
  {
  }

  lemma {:induction false} SoundAdded(ds: seq<Cell>, cs: seq<Cell>, ps: seq<Cell>, live: set<object>,
      lost: set<object>, log: seq<Message>, enqueued: seq<Message>, c: Cell)
    requires Sound(ds, cs, ps, live, lost, log, enqueued) && c.Owned() !! live && c.data != c.source
    ensures Sound(ds, cs, ps + [c], live + c.Owned(), lost, log, enqueued)
  {
    var all := ds + cs + ps;
    assert ds + cs + (ps + [c]) == all + [c];
    OwnedAppended(all, c);
    SeparateAppended(all, c);
  }

  /** A prepared cell changes hands and nothing else does. */
  lemma {:induction false} SoundLinked(ds: seq<Cell>, cs: seq<Cell>, ps: seq<Cell>, live: set<object>,
      lost: set<object>, log: seq<Message>, enqueued: seq<Message>, k: nat)
    requires Sound(ds, cs, ps, live, lost, log, enqueued) && k < |ps|
    ensures Sound(ds, cs + [ps[k]], ps[..k] + ps[k + 1..], live, lost, log, enqueued + [ps[k].Read()])
  {
    var a, b := ps[..k], ps[k + 1..];
    assert ds + cs + ps == (ds + cs) + a + [ps[k]] + b;
    Exchanged(ds + cs, a, ps[k], b);
    assert ds + (cs + [ps[k]]) + (a + b) == (ds + cs) + [ps[k]] + a + b;
    MessagesAppended(log + Messages(ds), cs, ps[k]);
  }

  lemma {:induction false} SoundDetached(cs: seq<Cell>, ps: seq<Cell>, live: set<object>, lost: set<object>,
      log: seq<Message>, enqueued: seq<Message>)
    requires Sound([], cs, ps, live, lost, log, enqueued)
    ensures Sound(cs, [], ps, live, lost, log, enqueued)
  {
    assert [] + cs + ps == cs + [] + ps;
    assert log + [] + Messages(cs) == log + Messages(cs) + [];
  }

  lemma {:induction false} SoundDelivered(ds: seq<Cell>, cs: seq<Cell>, ps: seq<Cell>, live: set<object>,
      lost: set<object>, log: seq<Message>, enqueued: seq<Message>)
    requires Sound(ds, cs, ps, live, lost, log, enqueued) && ds != []
    ensures Sound(ds[1..], cs, ps, live - ds[0].Owned(), lost, log + [ds[0].Read()], enqueued)
  {
    var all := ds + cs + ps;
    assert all[1..] == ds[1..] + cs + ps && all[0] == ds[0];
    OwnedTail(all);
    MessagesTail(log, ds, Messages(cs));
  }

  lemma {:induction false} SeparateJoin(a: seq<Cell>, b: seq<Cell>)
    requires Separate(a + b)
    ensures Separate(a) && Separate(b) && AllOwned(a) !! AllOwned(b)
  {
    assert forall i :: 0 <= i < |a| ==> a[i] == (a + b)[i];
    assert forall j :: 0 <= j < |b| ==> b[j] == (a + b)[|a| + j];
    OwnedDisjointAll(a, b);
  }

  lemma {:induction false} OwnedDisjointAll(a: seq<Cell>, b: seq<Cell>)
    requires forall i, j :: 0 <= i < |a| && 0 <= j < |b| ==> a[i].Owned() !! b[j].Owned()
    ensures AllOwned(a) !! AllOwned(b)
  {
    if a != [] {
      OwnedDisjoint(b, a[0]);
      OwnedDisjointAll(a[1..], b);
    }
  }

  lemma {:induction false} StillSeparate(front: seq<Cell>, a: seq<Cell>, c: Cell, b: seq<Cell>)
    requires Separate(front + a + [c] + b)
    ensures Separate(front + [c] + a + b)
  {
    var was, now := front + a + [c] + b, front + [c] + a + b;
    var m, n := |front|, |front| + |a|;
    assert forall i :: 0 <= i < |now| ==> now[i] == was[if i < m || i > n then i else if i == m then n else i - 1];
  }

  /** Moving one cell to the front of others changes neither what is owned nor that nothing is shared. */
  lemma {:induction false} Exchanged(front: seq<Cell>, a: seq<Cell>, c: Cell, b: seq<Cell>)
    requires Separate(front + a + [c] + b)
    ensures Separate(front + [c] + a + b)
    ensures AllOwned(front + [c] + a + b) == AllOwned(front + a + [c] + b)
  {
    StillSeparate(front, a, c, b);
    OwnedJoin(front + a + [c], b);
    OwnedJoin(front + a, [c]);
    OwnedJoin(front, a);
    OwnedJoin(front + [c] + a, b);
    OwnedJoin(front + [c], a);
    OwnedJoin(front, [c]);
  }

  lemma {:induction false} NodesAppended(cs: seq<Cell>, c: Cell, repr: set<MessageData>)
    requires Nodes(cs) <= repr && c.node in repr
    ensures Nodes(cs + [c]) <= repr
  {
  }

  lemma {:induction false} WithoutUnlinked(cs: seq<Cell>, k: nat)
    requires Unlinked(cs) && k < |cs|
    ensures Unlinked(cs[..k] + cs[k + 1..]) && Nodes(cs[..k] + cs[k + 1..]) <= Nodes(cs)
  {
  }

  lemma {:induction false} OwnedJoin(a: seq<Cell>, b: seq<Cell>)
    ensures AllOwned(a + b) == AllOwned(a) + AllOwned(b)
  {
    if a == [] {
      assert a + b == b;
    } else {
      OwnedJoin(a[1..], b);
      assert (a + b)[1..] == a[1..] + b;
    }
  }
}
