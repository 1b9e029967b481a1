/** RdmaController: the map of clients, the slot for the connection event being
    handled, the polling counter, and the loops over the clients. What rdma_cm
    and the verbs library answer comes in as arguments. `order` is the order in
    which the client map is walked; erasing an entry leaves the order of the
    others. */
module Controllers {
  import opened Collections
  import opened Regions
  import opened CompletionQueues
  import MemoryPools
  import opened Preposts

  type Qp = nat

  /** `conn` is the client object itself: its counter and its receive queue. */
  datatype Client = Client(conn: Connection, qp: Qp, initiated: bool)

  datatype EventKind = ConnectRequest | Established(qp: Qp) | Disconnected(qp: Qp) | Unsupported

  datatype Event = Event(id: nat, kind: EventKind)

  /** One call of the handler as the environment shapes it. */
  datatype Env = Env(
    waitFails: bool,        // no event could be fetched
    event: Event,           // otherwise, this one
    refused: bool,          // the pre-connection callback is set and says no
    queueFails: bool,       // the completion queue cannot be created
    clientFails: bool,      // the client cannot be created
    client: Client,         // otherwise, this is it
    refill: Ending,         // how refilling all clients ends, if it is reached
    acceptFails: bool,
    disconnectFails: bool,
    ackFails: bool)

  /** Serving events; ended by a null client; or in a refill that does not end. */
  datatype Status = Serving | Crashed | Refilling

  /** What has been done so far: events fetched and acknowledged, requests
      rejected, requests accepted and with which client, clients announced as
      established, and clients destroyed after a disconnect. */
  datatype Log = Log(fetched: seq<nat>, acked: seq<nat>, rejected: seq<nat>,
                     accepted: seq<(nat, Client)>, established: seq<Client>, destroyed: seq<Client>)

  datatype Control = Control(clients: map<Qp, Client>, slot: Option<Event>, log: Log, status: Status)

  const NOTHING := Log([], [], [], [], [], [])

  function Ack(c: Control, fails: bool): Control {
    if c.slot == None || fails then c
    else c.(log := c.log.(acked := c.log.acked + [c.slot.value.id]), slot := None)
  }

  /** A map insertion does not replace an entry. */
  function Inserted(clients: map<Qp, Client>, client: Client): map<Qp, Client> {
    if client.qp in clients then clients else clients[client.qp := client]
  }

  function Handle(c: Control, env: Env): Control {
    if c.status != Serving || env.waitFails then c
    else
      Dispatched(c.(slot := Some(env.event), log := c.log.(fetched := c.log.fetched + [env.event.id])), env)
  }

  function Dispatched(c: Control, env: Env): Control {
    match env.event.kind
    case ConnectRequest => Connect(c, env)
    case Established(qp) =>
      if qp !in c.clients then c.(status := Crashed)
      else Ack(c.(log := c.log.(established := c.log.established + [c.clients[qp]])), env.ackFails)
    case Disconnected(qp) =>
      if qp !in c.clients then c.(status := Crashed)
      else Ended(Ack(c, env.ackFails), c.clients[qp], qp)
    case Unsupported => Ack(c, env.ackFails)
  }

  function Ended(c: Control, client: Client, qp: Qp): Control {
    c.(clients := c.clients - {qp}, log := c.log.(destroyed := c.log.destroyed + [client]))
  }

  /** The call gets as far as refilling the clients. */
  predicate Refills(c: Control, env: Env) {
    c.status == Serving && !env.waitFails && Requests(env)
  }

  predicate Requests(env: Env) {
    env.event.kind.ConnectRequest? && !env.queueFails && !env.clientFails
  }

  /** The refill comes between mapping the client and accepting it: if it throws
      or does not end, the client stays mapped and the event in the slot. */
  function Connect(c: Control, env: Env): Control {
    if env.queueFails || env.clientFails then Asked(c, env)
    else
      var added := Asked(c, env).(clients := Inserted(c.clients, env.client));
      match env.refill
      case Throws => added
      case Loops => added.(status := Refilling)
      case Returns => Ack(Answered(added, env), env.ackFails)
  }

  function Asked(c: Control, env: Env): Control {
    if env.refused then Reject(c, env) else c
  }

  function Reject(c: Control, env: Env): Control {
    c.(log := c.log.(rejected := c.log.rejected + [env.event.id]))
  }

  function Answered(c: Control, env: Env): Control {
    if env.acceptFails then Reject(c.(clients := c.clients - {env.client.qp}), env)
    else c.(log := c.log.(accepted := c.log.accepted + [(env.event.id, env.client)]))
  }

  /** Making a connection of our own: the client (or its queue pair) cannot be
      created, which ends in a null client; or this is it, mapped whether or not
      connecting succeeds, and all clients are refilled. */
  function Peer(c: Control, client: Option<Client>, refill: Ending): Control {
    if client == None then c.(status := Crashed)
    else c.(clients := Inserted(c.clients, client.value.(initiated := true)),
            status := if refill.Loops? then Refilling else c.status)
  }

  // --------------------------------------------------------- refilling clients

  /** The clients in the order of the walk, and their objects. */
  function InOrder(order: seq<Qp>, clients: map<Qp, Client>): (cs: seq<Client>)
    requires Walks(order, clients)
    ensures |cs| == |order|
  {
    seq(|order|, i requires 0 <= i < |order| => assert order[i] in Elements(order); clients[order[i]])
  }

  function Conns(order: seq<Qp>, clients: map<Qp, Client>): (conns: seq<Connection>)
    requires Walks(order, clients)
    ensures |conns| == |order|
  {
    seq(|order|, i requires 0 <= i < |order| => assert order[i] in Elements(order); clients[order[i]].conn)
  }

  /** The pool and what the clients of a walk hold. */
  datatype Stock = Stock(pools: MemoryPools.Pools, holdings: seq<Holding>)

  ghost function StockOf(pool: MemoryPools.MemoryPool, conns: seq<Connection>): (stock: Stock)
    reads pool, pool.small, pool.medium, pool.large, conns
    ensures |stock.holdings| == |conns|
  {
    Stock(pool.View(), Held(conns))
  }

  /** A refill: where it ended, what it took off the free list, and that each
      client has its share on top of what it had. */
  ghost predicate AllRefilled(was: Stock, now: Stock, budget: nat, fault: Option<nat>, end: Ending) {
    var goal := GoalOf(was.pools.small, Waits(was.holdings), budget, fault);
    && end == goal.end
    && now == Stock(was.pools.(small := Dispensed(was.pools.small, goal.pops)),
                    Given(was.holdings, goal.shares, |was.holdings|))
  }

  ghost function Touched(pool: MemoryPools.MemoryPool, conns: seq<Connection>): set<object> {
    Elements(conns) + {pool, pool.small, pool.medium, pool.large}
  }

  class RdmaController {
    const memoryPool: MemoryPools.MemoryPool
    var clients: map<Qp, Client>
    var event: Option<Event>
    var eventPollCount: nat
    ghost var log: Log
    ghost var status: Status

    constructor (pool: MemoryPools.MemoryPool)
      ensures View() == Control(map[], None, NOTHING, Serving) && eventPollCount == 0 && memoryPool == pool
    {
      memoryPool, clients, event, eventPollCount := pool, map[], None, 0;
      log, status := NOTHING, Serving;
    }

    ghost function View(): Control
      reads this
    {
      Control(clients, event, log, status)
    }

    method WaitForEvent(fails: bool, e: Event) returns (err: int)
      modifies this`event, this`log
      ensures fails ==> err != 0 && View() == old(View())
      ensures !fails ==> err == 0 &&
                         View() == old(View()).(slot := Some(e), log := old(log).(fetched := old(log).fetched + [e.id]))
    {
      if fails {
        return 1;
      }
      event, log := Some(e), log.(fetched := log.fetched + [e.id]);
      return 0;
    }

    method AckEvent(fails: bool) returns (err: int)
      modifies this`event, this`log
      ensures View() == Ack(old(View()), fails)
      ensures err == 0 <==> old(event) != None && !fails
    {
      if event == None || fails {
        return 1;
      }
      log := log.(acked := log.acked + [event.value.id]);
      event := None;
      return 0;
    }

    /** All clients in the order of the walk, under the lock of the map. */
    method RefillClients(order: seq<Qp>, budget: nat, fault: Option<nat>, ghost conns: seq<Connection>)
      returns (end: Ending)
      requires Walks(order, clients) && conns == Conns(order, clients) && Ready(memoryPool, conns)
      modifies Touched(memoryPool, conns)
      ensures unchanged(this)
      ensures AllRefilled(old(StockOf(memoryPool, conns)), StockOf(memoryPool, conns), budget, fault, end)
    {
      end := RefillClientReceives(Conns(order, clients), memoryPool, budget, fault);
    }

    /** Maps a new client, unless its number is taken, and refills all. */
    method MapAndRefill(client: Client, order: seq<Qp>, budget: nat, fault: Option<nat>, ghost conns: seq<Connection>)
      returns (end: Ending)
      requires Admits(client, order, conns)
      modifies this`clients, Touched(memoryPool, conns)
      ensures View() == old(View()).(clients := Inserted(old(clients), client)) && eventPollCount == old(eventPollCount)
      ensures AllRefilled(old(StockOf(memoryPool, conns)), StockOf(memoryPool, conns), budget, fault, end)
    {
      ghost var stock := StockOf(memoryPool, conns);
      if client.qp !in clients {
        clients := clients[client.qp := client];
      }
      assert StockOf(memoryPool, conns) == stock;
      end := RefillClients(order, budget, fault, conns);
    }

    /** The map with this client in it is walked in this order, over these
        clients, none of them twice and all with this pool. */
    ghost predicate Admits(client: Client, order: seq<Qp>, conns: seq<Connection>)
      reads this, conns
    {
      && Walks(order, Inserted(clients, client)) && conns == Conns(order, Inserted(clients, client))
      && Ready(memoryPool, conns)
    }

    /** One event. `order` is the walk of the map if the clients are refilled. */
    method EventChannelHandler(env: Env, order: seq<Qp>, budget: nat, fault: Option<nat>, ghost conns: seq<Connection>)
      returns (end: Ending)
      requires status == Serving
      requires Refills(View(), env) ==> Admits(env.client, order, conns)
      modifies this
      modifies if Refills(View(), env) then Touched(memoryPool, conns) else {}
      ensures View() == Handle(old(View()), env.(refill := end)) && eventPollCount == old(eventPollCount)
      ensures Refills(old(View()), env) ==>
                AllRefilled(old(StockOf(memoryPool, conns)), StockOf(memoryPool, conns), budget, fault, end)
    {
      end := Returns;
      var err := WaitForEvent(env.waitFails, env.event);
      if err != 0 {
        return;
      }
      var kind := event.value.kind;
      var served;
      served, end := Dispatch(env, order, budget, fault, conns);
      ghost var stock := StockOf(memoryPool, conns);
      if served && !kind.Disconnected? {
        err := AckEvent(env.ackFails);
      }
      assert StockOf(memoryPool, conns) == stock;
    }

    /** The cases of the handler; `served` when control gets past them. */
    method Dispatch(env: Env, order: seq<Qp>, budget: nat, fault: Option<nat>, ghost conns: seq<Connection>)
      returns (served: bool, end: Ending)
      requires status == Serving && event == Some(env.event)
      requires Requests(env) ==> Admits(env.client, order, conns)
      modifies this
      modifies if Requests(env) then Touched(memoryPool, conns) else {}
      ensures (if served && !env.event.kind.Disconnected? then Ack(View(), env.ackFails) else View())
              == Dispatched(old(View()), env.(refill := end))
      ensures eventPollCount == old(eventPollCount)
      ensures Requests(env) ==>
                AllRefilled(old(StockOf(memoryPool, conns)), StockOf(memoryPool, conns), budget, fault, end)
    {
      served, end := true, Returns;
      match env.event.kind {
        case ConnectRequest =>
          served, end := ConnectRequested(env, order, budget, fault, conns);
        case Established(qp) =>
          if qp in clients {
            log := log.(established := log.established + [clients[qp]]);
          } else {
            served, status := false, Crashed;
          }
        case Disconnected(qp) =>
          if qp in clients {
            ClientDisconnected(clients[qp], qp, env.disconnectFails, env.ackFails);
          } else {
            served, status := false, Crashed;
          }
        case Unsupported =>
      }
    }

    /** The case of a disconnect by the peer: the event is acknowledged before
        the client goes. Whether disconnecting succeeded is only logged. */
    method ClientDisconnected(client: Client, qp: Qp, disconnectFails: bool, ackFails: bool)
      modifies this`clients, this`event, this`log
      ensures View() == Ended(Ack(old(View()), ackFails), client, qp)
    {
      var err := AckEvent(ackFails);
      clients := clients - {qp};
      log := log.(destroyed := log.destroyed + [client]);
    }

    /** The case of a connection request; `served` when it gets to its end. */
    method ConnectRequested(env: Env, order: seq<Qp>, budget: nat, fault: Option<nat>, ghost conns: seq<Connection>)
      returns (served: bool, end: Ending)
      requires !env.queueFails && !env.clientFails ==> Admits(env.client, order, conns)
      modifies this`clients, this`log, this`status
      modifies if env.queueFails || env.clientFails then {} else Touched(memoryPool, conns)
      ensures served <==> !env.queueFails && !env.clientFails && end.Returns?
      ensures (if served then Ack(View(), env.ackFails) else View()) == Connect(old(View()), env.(refill := end))
      ensures eventPollCount == old(eventPollCount)
      ensures !env.queueFails && !env.clientFails ==>
                AllRefilled(old(StockOf(memoryPool, conns)), StockOf(memoryPool, conns), budget, fault, end)
    {
      end := Returns;
      ghost var before := StockOf(memoryPool, conns);
      if env.refused {
        log := log.(rejected := log.rejected + [env.event.id]);
      }
      if env.queueFails {
        return false, end;
      }
      if env.clientFails {
        return false, end;
      }
      assert StockOf(memoryPool, conns) == before;
      end := MapAndRefill(env.client, order, budget, fault, conns);
      ghost var after := StockOf(memoryPool, conns);
      served := end.Returns?;
      if end.Loops? {
        status := Refilling;
      } else if served {
        if env.acceptFails {
          clients := clients - {env.client.qp};
          log := log.(rejected := log.rejected + [env.event.id]);
        } else {
          log := log.(accepted := log.accepted + [(env.event.id, env.client)]);
        }
      }
      assert StockOf(memoryPool, conns) == after;
    }

    /** A connection of our own. `made` is none when no client with a queue pair
        comes about; `mapped` is returned when refilling returns. */
    method MakeServerToServerConnection(made: Option<Client>, connectFails: bool, order: seq<Qp>, budget: nat,
                                        fault: Option<nat>, ghost conns: seq<Connection>)
      returns (mapped: Option<Client>, end: Ending)
      requires made.Some? ==> Admits(made.value.(initiated := true), order, conns)
      modifies this`clients, this`status
      modifies if made == None then {} else Touched(memoryPool, conns)
      ensures View() == Peer(old(View()), made, end)
      ensures mapped == if made.Some? && end.Returns? then Some(made.value.(initiated := true)) else None
      ensures made.Some? ==>
                AllRefilled(old(StockOf(memoryPool, conns)), StockOf(memoryPool, conns), budget, fault, end)
    {
      mapped, end := None, Returns;
      if made == None {
        status := Crashed;
        return;
      }
      var client := made.value.(initiated := true);
      end := MapAndRefill(client, order, budget, fault, conns);
      ghost var after := StockOf(memoryPool, conns);
      if end.Loops? {
        status := Refilling;
      } else if end.Returns? {
        mapped := Some(client);
      }
      assert StockOf(memoryPool, conns) == after;
    }

    /** Whether the disconnect succeeded is only logged. */
    method RemoveServerToServerConnection(client: Client, disconnectFails: bool)
      modifies this`clients
      ensures clients == old(clients) - {client.qp}
    {
      clients := clients - {client.qp};
    }

    /** The inner loop of removeAllInitiatedConnections looks at the first entry again and again
        when that entry was not initiated here; `budget` bounds how often it may
        look. The contract says how far it gets with any budget. */
    method RemoveAllInitiatedConnections(order: seq<Qp>, disconnectFails: Qp -> bool, budget: nat)
      returns (done: bool, left: seq<Qp>)
      requires Keyed(clients) && Walks(order, clients)
      modifies this`clients
      ensures var p, n := InitiatedPrefix(order, old(clients)), CountInitiated(order, old(clients));
              var k := if p < budget then p else budget;
              && (done <==> p == n && n <= budget)
              && left == order[k..]
              && clients == old(clients) - Elements(order[..k])
    {
      left := order;
      var steps := 0;
      var stuck := false;
      ghost var k := 0;
      Untouched(order, clients);
      while CountInitiated(left, clients) > 0 && steps < budget
        invariant RemovedSoFar(order, old(clients), k, left, clients)
        invariant InWalk(left, clients, k, stuck, steps, budget)
        decreases budget - steps
      {
        CountZeroEmpty(left, clients);
        var removed, spent := WalkFromBegin(left[0], disconnectFails(left[0]), budget - steps);
        steps := steps + spent;
        if removed {
          OneMoreRemoved(order, old(clients), k, left);
          left := left[1..];
          k := k + 1;
        } else {
          stuck := true;
        }
      }
      done := CountInitiated(left, clients) == 0;
      RemovalStops(order, old(clients), k, left, clients, stuck, steps, budget);
    }

    /** The inner loop: its iterator stays at the first entry, `c`. */
    method WalkFromBegin(c: Qp, disconnectFails: bool, budget: nat) returns (removed: bool, spent: nat)
      requires Keyed(clients) && c in clients && budget > 0
      modifies this`clients
      ensures removed <==> old(clients)[c].initiated
      ensures clients == if removed then old(clients) - {c} else old(clients)
      ensures spent == if removed then 1 else budget
    {
      spent := 0;
      while spent < budget
        invariant clients == old(clients)
        invariant spent <= budget && (spent > 0 ==> !clients[c].initiated)
      {
        spent := spent + 1;
        if clients[c].initiated {
          RemoveServerToServerConnection(clients[c], disconnectFails);
          return true, spent;
        }
      }
      return false, spent;
    }

    /** Drains every client's queue in turn, calling the completion function with
        each completion and its client. `queues` is what the device holds, by
        place in the walk. A failed work completion ends the process; a failed
        poll throws, which loses nothing but that poll. */
    method PollCompletionQueues(order: seq<Qp>, queues: seq<seq<Answer>>, hasCallback: bool)
      returns (ntot: nat, end: PollEnd, queues': seq<seq<Answer>>, calls: seq<(Client, Answer)>)
      requires Walks(order, clients) && |queues| == |order|
      ensures Handed(Drain(InOrder(order, clients), queues), hasCallback, ntot, calls, end)
      ensures end.Finished? ==> queues' == Empty(|order|)
      ensures end.Thrown? ==>
                && |queues'| == |queues| && ntot < |Drain(InOrder(order, clients), queues)|
                && Drain(InOrder(order, clients), queues') == Drain(InOrder(order, clients), queues)[ntot + 1..]
    {
      var cs := InOrder(order, clients);
      var at, own;
      ntot, end, calls, at, own := DrainInTurn(cs, queues, hasCallback);
      queues' := Empty(|order|);
      if end.Thrown? {
        BrokenTail(cs, queues, at, own + 1, ntot + 1);
        queues' := Empty(at) + [queues[at][own + 1..]] + queues[at + 1..];
      }
    }

    /** The loop over the clients; short of the end it stops at the queue at place
        `at`, `own` of its entries gone. */
    method DrainInTurn(cs: seq<Client>, queues: seq<seq<Answer>>, hasCallback: bool)
      returns (ntot: nat, end: PollEnd, calls: seq<(Client, Answer)>, at: nat, own: nat)
      requires |queues| == |cs|
      ensures Handed(Drain(cs, queues), hasCallback, ntot, calls, end)
      ensures !end.Finished? ==>
                && at < |cs| && own < |queues[at]|
                && ntot == |Drain(cs, queues)| - |Drain(cs[at..], queues[at..])| + own
    {
      ghost var all := Drain(cs, queues);
      ghost var done, rest := [], all;
      assert cs[0..] == cs && queues[0..] == queues;
      ntot, end, calls, at, own := 0, Finished, [], 0, 0;
      while at < |cs|
        invariant at <= |cs| && all == done + rest && rest == Drain(cs[at..], queues[at..])
        invariant HandedSoFar(done, hasCallback, ntot, calls)
        invariant end.Finished?
      {
        var more;
        own, end, more := DrainQueue(cs[at], queues[at], hasCallback);
        DrainSplit(cs, queues, at);
        DrainStep(done, With(cs[at], queues[at]), Drain(cs[at + 1..], queues[at + 1..]),
                  hasCallback, ntot, calls, own, more, end);
        calls, ntot := calls + more, ntot + own;
        if !end.Finished? {
          return;
        }
        done, rest := done + With(cs[at], queues[at]), Drain(cs[at + 1..], queues[at + 1..]);
        at := at + 1;
      }
      assert rest == [];
      assert all[..ntot] == done;
    }

    /** Polls one queue entry by entry until a poll finds nothing or fails. */
    method DrainQueue(client: Client, queue: seq<Answer>, hasCallback: bool)
      returns (n: nat, end: PollEnd, calls: seq<(Client, Answer)>)
      ensures Handed(With(client, queue), hasCallback, n, calls, end)
    {
      n, end, calls := 0, Finished, [];
      var nc := 1;
      while nc > 0
        invariant n <= |queue| && AllGood(With(client, queue)[..n])
        invariant calls == if hasCallback then With(client, queue)[..n] else []
        invariant nc == 0 ==> n == |queue|
        decreases nc, |queue| - n
      {
        nc := if n < |queue| then 1 else 0;
        if nc > 0 {
          match queue[n] {
            case PollFails =>
              end := Thrown;
              return;
            case Got(completion) =>
              if !completion.ok {
                end := Terminated;
                return;
              }
          }
          if hasCallback {
            calls := calls + [(client, queue[n])];
          }
        }
        n := n + nc;
      }
    }

    /** Drains the completion queues, then reads and increments the counter, and
        at every tenth value polls the event channel, where `ready` is what one
        call of the handler finds, if anything, and `answer` what the poll says.
        An exception of the drain, or a failed completion, ends it before that. */
    method EventMonitor(order: seq<Qp>, queues: seq<seq<Answer>>, hasCallback: bool,
                        ready: Option<Env>, answer: int,
                        walk: seq<Qp>, budget: nat, fault: Option<nat>, ghost conns: seq<Connection>)
      returns (drained: nat, handled: int, end: PollEnd, queues': seq<seq<Answer>>, calls: seq<(Client, Answer)>,
               refill: Ending)
      requires status == Serving && eventPollCount < UINT32
      requires Walks(order, clients) && |queues| == |order|
      requires ready.Some? && Refills(View(), ready.value) ==> Admits(ready.value.client, walk, conns)
      modifies this
      modifies if ready.Some? && Refills(View(), ready.value) then Touched(memoryPool, conns) else {}
      ensures Handed(Drain(InOrder(order, old(clients)), queues), hasCallback, drained, calls, end)
      ensures end.Finished? ==> queues' == Empty(|order|)
      ensures eventPollCount == CountAfter(old(eventPollCount), end) < UINT32
      ensures View() == if Due(old(eventPollCount), end) && ready.Some?
                        then Handle(old(View()), ready.value.(refill := refill)) else old(View())
      ensures end.Finished? && refill.Returns? ==>
                handled == drained + if Due(old(eventPollCount), end) then answer else 0
      ensures if Due(old(eventPollCount), end) && ready.Some? && Refills(old(View()), ready.value) then
                AllRefilled(old(StockOf(memoryPool, conns)), StockOf(memoryPool, conns), budget, fault, refill)
              else StockOf(memoryPool, conns) == old(StockOf(memoryPool, conns))
    {
      refill := Returns;
      drained, end, queues', calls := PollCompletionQueues(order, queues, hasCallback);
      handled := drained;
      if !end.Finished? {
        return;
      }
      ghost var stock := StockOf(memoryPool, conns);
      var due := NextTurn();
      assert StockOf(memoryPool, conns) == stock;
      if due {
        refill := PollEventChannel(ready, walk, budget, fault, conns);
        handled := handled + answer;
      }
    }

    /** Every tenth turn is for the event channel. */
    method NextTurn() returns (due: bool)
      requires eventPollCount < UINT32
      modifies this`eventPollCount
      ensures due == PollsAt(old(eventPollCount)) && eventPollCount == Advance(old(eventPollCount), 1) < UINT32
    {
      due := eventPollCount % 10 == 0;
      eventPollCount := (eventPollCount + 1) % UINT32;
    }

    /** A poll of the event channel; with something ready, it calls the handler. */
    method PollEventChannel(ready: Option<Env>, walk: seq<Qp>, budget: nat, fault: Option<nat>,
                            ghost conns: seq<Connection>)
      returns (refill: Ending)
      requires status == Serving
      requires ready.Some? && Refills(View(), ready.value) ==> Admits(ready.value.client, walk, conns)
      modifies this
      modifies if ready.Some? && Refills(View(), ready.value) then Touched(memoryPool, conns) else {}
      ensures eventPollCount == old(eventPollCount)
      ensures View() == if ready.Some? then Handle(old(View()), ready.value.(refill := refill)) else old(View())
      ensures if ready.Some? && Refills(old(View()), ready.value) then
                AllRefilled(old(StockOf(memoryPool, conns)), StockOf(memoryPool, conns), budget, fault, refill)
              else StockOf(memoryPool, conns) == old(StockOf(memoryPool, conns))
    {
      refill := Returns;
      if ready.Some? {
        refill := EventChannelHandler(ready.value, walk, budget, fault, conns);
      }
    }
  }

  predicate PollsAt(count: nat) {
    count % 10 == 0
  }

  /** A call whose drain finishes reads and increments the counter; one whose
      drain throws has left before that. */
  predicate Due(count: nat, end: PollEnd) {
    end.Finished? && PollsAt(count)
  }

  function CountAfter(count: nat, end: PollEnd): nat {
    if end.Finished? then Advance(count, 1) else count
  }

  /** The 32-bit counter `k` calls later. */
  function Advance(count: nat, k: nat): nat {
    (count + k) % UINT32
  }

  // -------------------------------------------------------- walking the map

  ghost predicate Keyed(clients: map<Qp, Client>) {
    forall qp :: qp in clients ==> clients[qp].qp == qp
  }

  ghost predicate Walks(order: seq<Qp>, clients: map<Qp, Client>) {
    Distinct(order) && Elements(order) == clients.Keys
  }

  function CountInitiated(order: seq<Qp>, clients: map<Qp, Client>): nat {
    if order == [] then 0
    else (if order[0] in clients && clients[order[0]].initiated then 1 else 0) + CountInitiated(order[1..], clients)
  }

  /** How many entries at the front of the walk were initiated here. */
  function InitiatedPrefix(order: seq<Qp>, clients: map<Qp, Client>): (n: nat)
    ensures n <= |order|
  {
    if order == [] || order[0] !in clients || !clients[order[0]].initiated then 0
    else 1 + InitiatedPrefix(order[1..], clients)
  }

  // ---------------------------------------------------------------- draining

  /** A drain empties all queues, meets a failed completion or a failed poll. */
  datatype PollEnd = Finished | Terminated | Thrown

  function With(client: Client, queue: seq<Answer>): (all: seq<(Client, Answer)>)
    ensures |all| == |queue|
  {
    seq(|queue|, i requires 0 <= i < |queue| => (client, queue[i]))
  }

  /** All there is to poll, in the order of the walk. */
  function Drain(cs: seq<Client>, queues: seq<seq<Answer>>): seq<(Client, Answer)>
    requires |queues| == |cs|
  {
    if cs == [] then [] else With(cs[0], queues[0]) + Drain(cs[1..], queues[1..])
  }

  predicate AllGood(all: seq<(Client, Answer)>) {
    forall i :: 0 <= i < |all| ==> all[i].1.Got? && all[i].1.completion.ok
  }

  /** Where a drain of `all` stops, at the end or at the first bad entry, and
      that the completion function, if there is one, was handed all before that. */
  predicate Handed(all: seq<(Client, Answer)>, hasCallback: bool, ntot: nat,
                   calls: seq<(Client, Answer)>, end: PollEnd) {
    && ntot <= |all| && HandedSoFar(all[..ntot], hasCallback, ntot, calls)
    && match end
       case Finished => ntot == |all|
       case Thrown => ntot < |all| && all[ntot].1.PollFails?
       case Terminated => ntot < |all| && all[ntot].1.Got? && !all[ntot].1.completion.ok
  }

  /** All of `done` is good and was handed over. */
  predicate HandedSoFar(done: seq<(Client, Answer)>, hasCallback: bool, ntot: nat, calls: seq<(Client, Answer)>) {
    ntot == |done| && AllGood(done) && calls == if hasCallback then done else []
  }

  function Empty(n: nat): (queues: seq<seq<Answer>>)
    ensures |queues| == n
  {
    seq(n, _ => [])
  }

  /** The first `gone` entries of the drain, `n` of them of the queue at place
      `i`, are gone from the queues, and nothing else. */
  lemma BrokenTail(cs: seq<Client>, queues: seq<seq<Answer>>, i: nat, n: nat, gone: nat)
    requires |queues| == |cs| && i < |cs| && n <= |queues[i]|
    requires gone == |Drain(cs, queues)| - |Drain(cs[i..], queues[i..])| + n
    ensures gone <= |Drain(cs, queues)|
    ensures Drain(cs, Empty(i) + [queues[i][n..]] + queues[i + 1..]) == Drain(cs, queues)[gone..]
  {
    DrainSplit(cs, queues, i);
    DrainBroken(cs, queues, i, n);
    DrainSuffix(cs, queues, i);
  }

  lemma {:induction false} DrainSuffix(cs: seq<Client>, queues: seq<seq<Answer>>, i: nat)
    requires |queues| == |cs| && i <= |cs|
    ensures var all, rest := Drain(cs, queues), Drain(cs[i..], queues[i..]);
            |rest| <= |all| && all[|all| - |rest|..] == rest
  {
    if i == 0 {
      assert cs[0..] == cs && queues[0..] == queues;
    } else {
      DrainSuffix(cs[1..], queues[1..], i - 1);
      assert cs[1..][i - 1..] == cs[i..] && queues[1..][i - 1..] == queues[i..];
    }
  }

  lemma DrainSplit(cs: seq<Client>, queues: seq<seq<Answer>>, i: nat)
    requires |queues| == |cs| && i < |cs|
    ensures Drain(cs[i..], queues[i..]) == With(cs[i], queues[i]) + Drain(cs[i + 1..], queues[i + 1..])
  {
    assert cs[i..][1..] == cs[i + 1..] && queues[i..][1..] == queues[i + 1..];
  }

  /** The drain of one queue, `mine`, in the drain of all, the rest to come. */
  lemma DrainStep(done: seq<(Client, Answer)>, mine: seq<(Client, Answer)>,
                  rest: seq<(Client, Answer)>, hasCallback: bool,
                  ntot: nat, calls: seq<(Client, Answer)>, n: nat, more: seq<(Client, Answer)>, end: PollEnd)
    requires HandedSoFar(done, hasCallback, ntot, calls) && Handed(mine, hasCallback, n, more, end)
    ensures end.Finished? ==> HandedSoFar(done + mine, hasCallback, ntot + n, calls + more)
    ensures done + (mine + rest) == done + mine + rest
    ensures !end.Finished? ==> Handed(done + mine + rest, hasCallback, ntot + n, calls + more, end)
  {
    var all := done + mine + rest;
    assert all[..ntot + n] == done + mine[..n];
    assert n == |mine| ==> mine[..n] == mine;
    assert !end.Finished? ==> all[ntot + n] == mine[n];
  }

  /** With the queues before place `i` empty and `n` of its own entries gone,
      what is left to drain is the rest. */
  lemma {:induction false} DrainBroken(cs: seq<Client>, queues: seq<seq<Answer>>, i: nat, n: nat)
    requires |queues| == |cs| && i < |cs| && n <= |queues[i]|
    ensures Drain(cs, Empty(i) + [queues[i][n..]] + queues[i + 1..])
            == With(cs[i], queues[i])[n..] + Drain(cs[i + 1..], queues[i + 1..])
  {
    var now := Empty(i) + [queues[i][n..]] + queues[i + 1..];
    if i == 0 {
      assert now[1..] == queues[1..];
      assert With(cs[0], queues[0][n..]) == With(cs[0], queues[0])[n..];
    } else {
      DrainBroken(cs[1..], queues[1..], i - 1, n);
      assert now[1..] == Empty(i - 1) + [queues[i][n..]] + queues[i + 1..];
    }
  }

  /** After `k` removals from the front of the walk `order` of the map `was`. */
  ghost predicate RemovedSoFar(order: seq<Qp>, was: map<Qp, Client>, k: nat, left: seq<Qp>, now: map<Qp, Client>) {
    && k <= |order| && left == order[k..] && now == was - Elements(order[..k])
    && Keyed(now) && Walks(left, now)
    && InitiatedPrefix(left, now) == InitiatedPrefix(order, was) - k
    && CountInitiated(left, now) == CountInitiated(order, was) - k
  }

  predicate InWalk(left: seq<Qp>, now: map<Qp, Client>, k: nat, stuck: bool, steps: nat, budget: nat) {
    if stuck then InitiatedPrefix(left, now) == 0 && k <= steps == budget else steps == k <= budget
  }

  lemma RemovalStops(order: seq<Qp>, was: map<Qp, Client>, k: nat, left: seq<Qp>, now: map<Qp, Client>,
                     stuck: bool, steps: nat, budget: nat)
    requires RemovedSoFar(order, was, k, left, now) && InWalk(left, now, k, stuck, steps, budget)
    requires CountInitiated(left, now) == 0 || steps >= budget
    ensures var p, n := InitiatedPrefix(order, was), CountInitiated(order, was);
            && k == (if p < budget then p else budget)
            && (CountInitiated(left, now) == 0 <==> p == n && n <= budget)
  {
    PrefixWithinCount(left, now);
  }

  lemma Untouched(order: seq<Qp>, was: map<Qp, Client>)
    requires Keyed(was) && Walks(order, was)
    ensures RemovedSoFar(order, was, 0, order, was)
  {
    assert was - Elements(order[..0]) == was;
  }

  lemma OneMoreRemoved(order: seq<Qp>, was: map<Qp, Client>, k: nat, left: seq<Qp>)
    requires var now := was - Elements(order[..if k <= |order| then k else 0]);
             RemovedSoFar(order, was, k, left, now) && left != [] && now[left[0]].initiated
    ensures k < |order|
    ensures was - Elements(order[..k]) - {left[0]} == was - Elements(order[..k + 1])
    ensures RemovedSoFar(order, was, k + 1, left[1..], was - Elements(order[..k + 1]))
  {
    DropFirst(left, was - Elements(order[..k]));
    assert order[..k + 1] == order[..k] + [left[0]];
    assert Elements(order[..k + 1]) == Elements(order[..k]) + {left[0]};
    assert was - Elements(order[..k]) - {left[0]} == was - Elements(order[..k + 1]);
  }

  lemma {:induction false} PrefixWithinCount(order: seq<Qp>, clients: map<Qp, Client>)
    ensures InitiatedPrefix(order, clients) <= CountInitiated(order, clients)
  {
    if order == [] {
    } else {
      PrefixWithinCount(order[1..], clients);
    }
  }

  lemma CountZeroEmpty(order: seq<Qp>, clients: map<Qp, Client>)
    requires CountInitiated(order, clients) > 0
    ensures order != []
  {
  }

  /** Taking the first entry off the map changes nothing for the others. */
  lemma DropFirst(order: seq<Qp>, clients: map<Qp, Client>)
    requires order != [] && Walks(order, clients) && clients[order[0]].initiated
    ensures var rest := clients - {order[0]};
            && Walks(order[1..], rest)
            && CountInitiated(order[1..], rest) == CountInitiated(order, clients) - 1
            && InitiatedPrefix(order[1..], rest) == InitiatedPrefix(order, clients) - 1
  {
    Unaffected(order[1..], clients, order[0]);
    assert order == [order[0]] + order[1..];
  }

  lemma {:induction false} Unaffected(order: seq<Qp>, clients: map<Qp, Client>, qp: Qp)
    requires qp !in order
    ensures CountInitiated(order, clients - {qp}) == CountInitiated(order, clients)
    ensures InitiatedPrefix(order, clients - {qp}) == InitiatedPrefix(order, clients)
  {
    if order == [] {
    } else {
      Unaffected(order[1..], clients, qp);
    }
  }
}
