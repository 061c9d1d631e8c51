/**
 The threads of `MessageProtocol` at work on the list of `MessageQueue`: each of their steps is carried out
 in memory, so what is proved of their runs holds of the linked list, and no run loses memory.
 */
module MessageSystem {
  import opened Options
  import opened Transitions
  import Protocol = MessageProtocol
  import opened MessageQueue

  /** A call that gets as far as the lock; any other returns before it touches what threads share. */
  type Sendable = c: Call | c.size != 0 && c.size <= |c.data| && Succeeds(c.memory)
    witness Call("", 1, "a", Memory(true, true, true))

  type Threads = Protocol.State<Sendable>

  type Move = Protocol.Step<Sendable>

  function Bodies(ms: seq<Protocol.Message<Sendable>>): (items: seq<Message>)
    ensures |items| == |ms| && forall i :: 0 <= i < |ms| ==> items[i] == ms[i].body.Sent()
  {
    seq(|ms|, i requires 0 <= i < |ms| => ms[i].body.Sent())
  }

  /** What a producer has prepared and not linked yet. */
  function Carried(pc: Protocol.Producer<Sendable>): (m: Option<Message>) {
    if pc.Waiting? || pc.Locked? then Some(pc.m.body.Sent()) else None
  }

  ghost predicate Distinct(who: seq<nat>) {
    forall j, k :: 0 <= j < k < |who| ==> who[j] != who[k]
  }

  /** `who[k]` is the producer of `prepared[k]`. */
  ghost predicate Matches(prepared: seq<Cell>, who: seq<nat>, producers: seq<Protocol.Producer<Sendable>>) {
    && |who| == |prepared|
    && forall k :: 0 <= k < |who| ==>
      who[k] < |producers| && Carried(producers[who[k]]) == Some(prepared[k].Read())
  }

  ghost predicate Covers(who: seq<nat>, producers: seq<Protocol.Producer<Sendable>>) {
    forall p :: 0 <= p < |producers| && Carried(producers[p]).Some? ==> p in who
  }

  ghost predicate Prepared(prepared: seq<Cell>, who: seq<nat>, producers: seq<Protocol.Producer<Sendable>>) {
    Distinct(who) && Matches(prepared, who, producers) && Covers(who, producers)
  }

  /** The memory holds what the threads think it holds. */
  ghost predicate Agree(cells: seq<Cell>, detached: seq<Cell>, prepared: seq<Cell>, log: seq<Message>,
                        enqueued: seq<Message>, who: seq<nat>, s: Threads) {
    && Messages(cells) == Bodies(s.messageList)
    && Messages(detached) == Bodies(Protocol.Rest(s.consumer))
    && log == Bodies(s.delivered) && enqueued == Bodies(s.enqueued)
    && Prepared(prepared, who, s.producers)
  }

  ghost predicate Carries(q: Queue, who: seq<nat>, s: Threads)
    reads q
  {
    Agree(q.cells, q.detached, q.prepared, q.log, q.enqueued, who, s)
  }

  lemma {:induction false} PreparedMore(prepared: seq<Cell>, who: seq<nat>,
      producers: seq<Protocol.Producer<Sendable>>, p: nat, m: Protocol.Message<Sendable>, cell: Cell)
    requires Prepared(prepared, who, producers) && p < |producers| && producers[p].Ready?
    requires cell.Read() == m.body.Sent()
    ensures Prepared(prepared + [cell], who + [p], producers[p := Protocol.Waiting(m)])
  {
    assert forall k :: 0 <= k < |who| ==> who[k] != p;
    assert (who + [p])[|who|] == p;
    assert forall q :: q in who ==> q in who + [p];
  }

  lemma {:induction false} DistinctLess(who: seq<nat>, k: nat)
    requires Distinct(who) && k < |who|
    ensures Distinct(Without(who, k)) && who[k] !in Without(who, k)
    ensures forall q :: q in who && q != who[k] ==> q in Without(who, k)
  {
    forall q | q in who && q != who[k]
      ensures q in Without(who, k)
    {
      var j :| 0 <= j < |who| && who[j] == q;
      assert Without(who, k)[if j < k then j else j - 1] == q;
    }
  }

  lemma {:induction false} MatchesLess(prepared: seq<Cell>, who: seq<nat>,
      producers: seq<Protocol.Producer<Sendable>>, k: nat, now: seq<Protocol.Producer<Sendable>>)
    requires Matches(prepared, who, producers) && k < |who| && who[k] !in Without(who, k)
    requires now == producers[who[k] := Protocol.Linked]
    ensures Matches(Without(prepared, k), Without(who, k), now)
  {
    forall j | 0 <= j < |who| - 1
      ensures Without(who, k)[j] < |now|
      ensures Carried(now[Without(who, k)[j]]) == Some(Without(prepared, k)[j].Read())
    {
      var i := if j < k then j else j + 1;
      assert Without(who, k)[j] == who[i] && Without(prepared, k)[j] == prepared[i];
      assert Without(who, k)[j] in Without(who, k);
      assert now[who[i]] == producers[who[i]];
    }
  }

  lemma {:induction false} PreparedLess(prepared: seq<Cell>, who: seq<nat>,
      producers: seq<Protocol.Producer<Sendable>>, k: nat)
    requires Prepared(prepared, who, producers) && k < |who|
    ensures Prepared(Without(prepared, k), Without(who, k), producers[who[k] := Protocol.Linked])
  {
    var now := producers[who[k] := Protocol.Linked];
    DistinctLess(who, k);
    MatchesLess(prepared, who, producers, k, now);
    forall q | 0 <= q < |now| && Carried(now[q]).Some?
      ensures q in Without(who, k)
    {
      assert q != who[k] && now[q] == producers[q];
    }
  }

  lemma {:induction false} PreparedSame(prepared: seq<Cell>, who: seq<nat>,
      producers: seq<Protocol.Producer<Sendable>>, p: nat, pc: Protocol.Producer<Sendable>)
    requires Prepared(prepared, who, producers) && p < |producers| && Carried(pc) == Carried(producers[p])
    ensures Prepared(prepared, who, producers[p := pc])
  {
  }

  lemma {:induction false} AgreeCalled(cells: seq<Cell>, detached: seq<Cell>, prepared: seq<Cell>,
      log: seq<Message>, enqueued: seq<Message>, who: seq<nat>, s: Threads, p: nat, call: Sendable, cell: Cell)
    requires Agree(cells, detached, prepared, log, enqueued, who, s)
    requires Protocol.Enabled(s, Protocol.Call(p, call)) && cell.Read() == call.Sent()
    ensures Agree(cells, detached, prepared + [cell], log, enqueued, who + [p],
                  Protocol.Take(s, Protocol.Call(p, call)))
  {
    PreparedMore(prepared, who, s.producers, p, Protocol.Message(p, call), cell);
  }

  /** The other steps take or release the mutex, send the wakeup, or begin and end the callback. */
  predicate InMemory(move: Move) {
    move.Call? || move.Append? || move.Detach? || move.Deliver?
  }

  lemma {:induction false} AgreeStill(cells: seq<Cell>, detached: seq<Cell>, prepared: seq<Cell>,
      log: seq<Message>, enqueued: seq<Message>, who: seq<nat>, s: Threads, move: Move)
    requires Agree(cells, detached, prepared, log, enqueued, who, s)
    requires Protocol.Enabled(s, move) && !InMemory(move)
    ensures Agree(cells, detached, prepared, log, enqueued, who, Protocol.Take(s, move))
  {
    if move.Lock? || move.Unlock? || move.AsyncSend? {
      PreparedSame(prepared, who, s.producers, move.p, Protocol.Take(s, move).producers[move.p]);
    }
  }

  lemma {:induction false} AgreeAppended(cells: seq<Cell>, detached: seq<Cell>, prepared: seq<Cell>,
      log: seq<Message>, enqueued: seq<Message>, who: seq<nat>, s: Threads, k: nat)
    requires Agree(cells, detached, prepared, log, enqueued, who, s) && k < |who|
    requires Protocol.Enabled(s, Protocol.Append(who[k]))
    ensures Agree(cells + [prepared[k]], detached, Without(prepared, k), log, enqueued + [prepared[k].Read()],
                  Without(who, k), Protocol.Take(s, Protocol.Append(who[k])))
  {
    PreparedLess(prepared, who, s.producers, k);
    OwnedAppended(cells, prepared[k]);
    var m := s.producers[who[k]].m;
    assert Bodies(s.messageList + [m]) == Bodies(s.messageList) + [m.body.Sent()];
    assert Bodies(s.enqueued + [m]) == Bodies(s.enqueued) + [m.body.Sent()];
  }

  lemma {:induction false} AgreeDelivered(cells: seq<Cell>, detached: seq<Cell>, prepared: seq<Cell>,
      log: seq<Message>, enqueued: seq<Message>, who: seq<nat>, s: Threads)
    requires Agree(cells, detached, prepared, log, enqueued, who, s)
    requires Protocol.Enabled(s, Protocol.Deliver)
    ensures detached != []
    ensures Agree(cells, detached[1..], prepared, log + [detached[0].Read()], enqueued, who,
                  Protocol.Take(s, Protocol.Deliver))
  {
    NoMessages(detached);
    var rest := s.consumer.rest;
    assert Messages(detached)[0] == Bodies(rest)[0] && Messages(detached)[1..] == Bodies(rest[1..]);
    assert Bodies(s.delivered + [rest[0]]) == Bodies(s.delivered) + [rest[0].body.Sent()];
  }

  lemma {:induction false} SomePrepared(prepared: seq<Cell>, who: seq<nat>,
      producers: seq<Protocol.Producer<Sendable>>)
    requires Prepared(prepared, who, producers)
    ensures prepared != [] ==> exists p :: 0 <= p < |producers| && Carried(producers[p]).Some?
  {
    if prepared != [] {
      assert Carried(producers[who[0]]).Some?;
    }
  }

  function PlaceOf(who: seq<nat>, p: nat): (k: nat)
    requires p in who
    ensures k < |who| && who[k] == p
  {
    if who[0] == p then 0 else 1 + PlaceOf(who[1..], p)
  }

  lemma {:induction false} NoMessages(cs: seq<Cell>)
    ensures |Messages(cs)| == |cs|
  {
    if cs != [] { NoMessages(cs[1..]); }
  }

  /** `sendData` up to the lock. */
  method PerformCall(q: Queue, who: seq<nat>, ghost s: Threads, p: nat, call: Sendable) returns (who': seq<nat>)
    requires q.Valid() && Carries(q, who, s) && Protocol.Enabled(s, Protocol.Call(p, call))
    modifies q, q.repr
    ensures q.Valid() && fresh(q.repr - old(q.repr)) && q.lost == old(q.lost)
    ensures Carries(q, who', Protocol.Take(s, Protocol.Call(p, call)))
  {
    ghost var n, before := |q.prepared|, q.prepared;
    q.Prepare(call);
    assert q.prepared == before + [q.prepared[n]];
    AgreeCalled(q.cells, q.detached, before, q.log, q.enqueued, who, s, p, call, q.prepared[n]);
    who' := who + [p];
  }

  /** Its critical section. */
  method PerformAppend(q: Queue, who: seq<nat>, ghost s: Threads, p: nat) returns (who': seq<nat>)
    requires q.Valid() && Carries(q, who, s) && Protocol.Enabled(s, Protocol.Append(p))
    modifies q, q.repr
    ensures q.Valid() && fresh(q.repr - old(q.repr)) && q.lost == old(q.lost)
    ensures Carries(q, who', Protocol.Take(s, Protocol.Append(p)))
  {
    assert Carried(s.producers[p]).Some?;
    var k := PlaceOf(who, p);
    AgreeAppended(q.cells, q.detached, q.prepared, q.log, q.enqueued, who, s, k);
    q.Link(k);
    who' := Without(who, k);
  }

  method PerformDetach(q: Queue, who: seq<nat>, ghost s: Threads)
    requires q.Valid() && Carries(q, who, s) && Protocol.Enabled(s, Protocol.Detach)
    modifies q, q.repr
    ensures q.Valid() && fresh(q.repr - old(q.repr)) && q.lost == old(q.lost)
    ensures Carries(q, who, Protocol.Take(s, Protocol.Detach))
  {
    NoMessages(q.detached);
    q.Detach();
  }

  method PerformDeliver(q: Queue, who: seq<nat>, ghost s: Threads)
    requires q.Valid() && Carries(q, who, s) && Protocol.Enabled(s, Protocol.Deliver)
    modifies q, q.repr
    ensures q.Valid() && fresh(q.repr - old(q.repr)) && q.lost == old(q.lost)
    ensures Carries(q, who, Protocol.Take(s, Protocol.Deliver))
  {
    AgreeDelivered(q.cells, q.detached, q.prepared, q.log, q.enqueued, who, s);
    q.Turn();
  }

  /** Each step of a thread is carried out in memory, or leaves the memory alone. */
  method Perform(q: Queue, who: seq<nat>, ghost s: Threads, move: Move) returns (who': seq<nat>)
    requires q.Valid() && Carries(q, who, s) && Protocol.Enabled(s, move)
    modifies q, q.repr
    ensures q.Valid() && fresh(q.repr - old(q.repr)) && q.lost == old(q.lost)
    ensures Carries(q, who', Protocol.Take(s, move))
  {
    who' := who;
    match move
    case Call(p, body) => who' := PerformCall(q, who, s, p, body);
    case Append(p) => who' := PerformAppend(q, who, s, p);
    case Detach => PerformDetach(q, who, s);
    case Deliver => PerformDeliver(q, who, s);
    case _ => AgreeStill(q.cells, q.detached, q.prepared, q.log, q.enqueued, who, s, move);
  }

  method PerformAll(q: Queue, who: seq<nat>, ghost s: Threads, moves: seq<Move>) returns (who': seq<nat>)
    requires q.Valid() && Carries(q, who, s) && Runs(Protocol.System(), s, moves)
    modifies q, q.repr
    ensures q.Valid() && fresh(q.repr - old(q.repr)) && q.lost == old(q.lost)
    ensures Carries(q, who', After(Protocol.System(), s, moves))
    decreases |moves|
  {
    who' := who;
    if moves != [] {
      who' := Perform(q, who, s, moves[0]);
      who' := PerformAll(q, who', Protocol.Take(s, moves[0]), moves[1..]);
    }
  }

  /** Every run of the threads, from start-up: the list in memory holds what they sent, and once they all rest, each
      message has been delivered, in the order of its producer's calls, and all memory has been freed. */
  method RunThreads(producers: nat, moves: seq<Move>) returns (q: Queue)
    requires Runs(Protocol.System<Sendable>(), Protocol.Init<Sendable>(producers), moves)
    ensures q.Valid() && q.lost == {}
    ensures var s := After(Protocol.System<Sendable>(), Protocol.Init<Sendable>(producers), moves);
      && q.log == Bodies(s.delivered) && Messages(q.cells) == Bodies(s.messageList)
      && (Protocol.Stuck(s) ==>
           && q.live == {} && q.messageList == null
           && forall p :: 0 <= p < producers ==>
             Protocol.From(s.delivered, p) == Protocol.From(Protocol.Calls(moves), p))
  {
    q := new Queue();
    ghost var s := After(Protocol.System<Sendable>(), Protocol.Init<Sendable>(producers), moves);
    var who := PerformAll(q, [], Protocol.Init<Sendable>(producers), moves);
    if Protocol.Stuck(s) {
      Protocol.NothingIsStranded(producers, moves);
      Protocol.EveryRunIsSafe(producers, moves);
      Protocol.StuckMeansReady(s);
      NoMessages(q.cells);
      NoMessages(q.detached);
      SomePrepared(q.prepared, who, s.producers);
    }
  }
}
