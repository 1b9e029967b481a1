/** Whole runs of the controller: which events are acknowledged, what the client
    map holds, how often the event channel is polled, who gets which completion,
    and when removing the connections of our own comes to an end. */
module ControllerRuns {
  import opened Collections
  import opened Regions
  import opened CompletionQueues
  import opened Controllers
  import PoolContainers
  import opened Preposts

  // ---------------------------------------------------------- acknowledgement

  const FRESH := Control(map[], None, NOTHING, Serving)

  function Handled(c: Control, envs: seq<Env>): Control {
    if envs == [] then c else Handle(Handled(c, envs[..|envs| - 1]), envs[|envs| - 1])
  }

  /** A call that fetches its event and does not acknowledge it: the client
      cannot be built, refilling throws or does not end, the event names no
      client, or the acknowledgement fails. */
  predicate Leaks(c: Control, env: Env) {
    && c.status.Serving? && !env.waitFails
    && match env.event.kind
       case ConnectRequest => env.queueFails || env.clientFails || !env.refill.Returns? || env.ackFails
       case Established(qp) => qp !in c.clients || env.ackFails
       case Disconnected(qp) => qp !in c.clients || env.ackFails
       case Unsupported => env.ackFails
  }

  function LeaksIn(c: Control, envs: seq<Env>): nat {
    if envs == [] then 0
    else
      var before := envs[..|envs| - 1];
      LeaksIn(c, before) + if Leaks(Handled(c, before), envs[|envs| - 1]) then 1 else 0
  }

  /** One call acknowledges the event it fetched and no other, or leaks it. */
  lemma HandleAcks(c: Control, env: Env)
    ensures var c' := Handle(c, env);
            if !c.status.Serving? || env.waitFails then c' == c
            else
              && c'.log.fetched == c.log.fetched + [env.event.id]
              && c'.log.acked == c.log.acked + (if Leaks(c, env) then [] else [env.event.id])
              && c'.slot == (if Leaks(c, env) then Some(env.event) else None)
  {
  }

  /** Over every run from the start, each event fetched is acknowledged exactly
      once and in order, and none is pending between calls, exactly when no call
      leaks; each leak leaves one event unacknowledged for good. */
  lemma {:induction false} AcknowledgedExactly(envs: seq<Env>)
    ensures var c := Handled(FRESH, envs);
            && |c.log.fetched| - |c.log.acked| == LeaksIn(FRESH, envs)
            && (c.log.acked == c.log.fetched && c.slot == None <==> LeaksIn(FRESH, envs) == 0)
  {
    if envs == [] {
    } else {
      var before := envs[..|envs| - 1];
      AcknowledgedExactly(before);
      HandleAcks(Handled(FRESH, before), envs[|envs| - 1]);
    }
  }

  /** A request that leaks: one that gets a client, or fails to, and no further. */
  lemma RequestLeaks(id: nat, client: Client, queueFails: bool, clientFails: bool, refill: Ending)
    requires queueFails || clientFails || !refill.Returns?
    ensures var env := Env(false, Event(id, ConnectRequest), false, queueFails, clientFails,
                          client, refill, false, false, false);
            var c := Handled(FRESH, [env]);
            && c.log.fetched == [id] && c.log.acked == [] && c.slot == Some(env.event) && LeaksIn(FRESH, [env]) == 1
            && c.clients == (if queueFails || clientFails then map[] else map[client.qp := client])
            && c.log.accepted == []
  {
    var env := Env(false, Event(id, ConnectRequest), false, queueFails, clientFails,
                  client, refill, false, false, false);
    assert [env][..0] == [];
    assert Handled(FRESH, [env]) == Handle(FRESH, env);
  }

  /** Whether a request is answered by the refill it waits for is told by the
      pool: the new client, which waits for nothing yet, wants a full complement
      on top of what the others miss, and if the free blocks cover that and no
      post is refused first, and only then, the refill returns. */
  lemma RefillReturnsExactly(p: PoolContainers.Pool, ws: seq<nat>, i: nat, fault: Option<nat>)
    requires i < |ws| && ws[i] == 0
    ensures TotalDeficit(ws, MAX_PREPOSTS) == MAX_PREPOSTS + TotalDeficit(ws[..i] + ws[i + 1..], MAX_PREPOSTS)
    ensures var wanted := MAX_PREPOSTS + TotalDeficit(ws[..i] + ws[i + 1..], MAX_PREPOSTS);
            && ((exists budget :: GoalOf(p, ws, budget, fault).end.Returns?)
                <==> wanted <= |p.free| && (fault.Some? ==> wanted <= fault.value))
            && ((forall budget :: GoalOf(p, ws, budget, fault).end.Loops?)
                <==> |p.free| < wanted && (fault.Some? ==> |p.free| <= fault.value))
  {
    var d := TotalDeficit(ws, MAX_PREPOSTS);
    TotalDeficitWithout(ws, i, MAX_PREPOSTS);
    RefillEnds(d, |p.free|, fault);
    assert forall budget :: GoalOf(p, ws, budget, fault).end == Ends(d, |p.free|, budget, fault);
    if budget :| Ends(d, |p.free|, budget, fault).Returns? {
      assert GoalOf(p, ws, budget, fault).end.Returns?;
    }
    if budget :| !Ends(d, |p.free|, budget, fault).Loops? {
      assert !GoalOf(p, ws, budget, fault).end.Loops?;
    }
  }

  lemma {:induction false} TotalDeficitWithout(ws: seq<nat>, i: nat, preposts: nat)
    requires i < |ws|
    ensures TotalDeficit(ws, preposts) == Deficit(ws[i], preposts) + TotalDeficit(ws[..i] + ws[i + 1..], preposts)
  {
    var last := |ws| - 1;
    if i == last {
      assert ws[..i] + ws[i + 1..] == ws[..last];
    } else {
      TotalDeficitWithout(ws[..last], i, preposts);
      assert (ws[..i] + ws[i + 1..])[..last - 1] == ws[..last][..i] + ws[..last][i + 1..];
    }
  }

  // ------------------------------------------------------------- client map

  datatype Op =
    | Serve(env: Env)
    | MakePeer(made: Option<Client>, refill: Ending)
    | RemovePeer(qp: Qp)

  /** A refill that does not end keeps the lock of the map, and a null client ends
      the process: nothing follows either. */
  function Apply(c: Control, op: Op): Control {
    if !c.status.Serving? then c
    else
      match op
      case Serve(env) => Handle(c, env)
      case MakePeer(made, refill) => Peer(c, made, refill)
      case RemovePeer(qp) => c.(clients := c.clients - {qp})
  }

  function After(ops: seq<Op>): Control {
    if ops == [] then FRESH else Apply(After(ops[..|ops| - 1]), ops[|ops| - 1])
  }

  /** What should be mapped, told from the events alone. `open` are the
      connections: accepted requests until the peer disconnects, and our own
      until we remove them. `orphans` are clients mapped for a request that was
      never answered, because refilling them threw or did not end. `status` is
      how it stands with the process: an event for a queue pair no client has,
      or a connection of our own whose client cannot be made, crashes it. */
  datatype Expected = Expected(open: map<Qp, Client>, orphans: map<Qp, Client>, status: Status)

  function Expect(e: Expected, op: Op): Expected {
    if e.status != Serving then e
    else
      match op
      case MakePeer(None, _) => e.(status := Crashed)
      case MakePeer(Some(client), refill) =>
        e.(open := e.open[client.qp := client.(initiated := true)],
           status := if refill.Loops? then Refilling else Serving)
      case RemovePeer(qp) => e.(open := e.open - {qp})
      case Serve(env) =>
        if env.waitFails then e
        else
          match env.event.kind
          case ConnectRequest =>
            if env.queueFails || env.clientFails then e
            else if !env.refill.Returns? then
              e.(orphans := e.orphans[env.client.qp := env.client],
                 status := if env.refill.Loops? then Refilling else Serving)
            else if env.acceptFails then e
            else e.(open := e.open[env.client.qp := env.client])
          case Established(qp) => if Known(e, qp) then e else e.(status := Crashed)
          case Disconnected(qp) => if Known(e, qp) then e.(open := e.open - {qp}) else e.(status := Crashed)
          case Unsupported => e
  }

  predicate Known(e: Expected, qp: Qp) {
    qp in e.open || qp in e.orphans
  }

  function ExpectedAfter(ops: seq<Op>): Expected {
    if ops == [] then Expected(map[], map[], Serving) else Expect(ExpectedAfter(ops[..|ops| - 1]), ops[|ops| - 1])
  }

  /** What is assumed of the connection manager and of callers: a new queue pair
      has a number no client has; established and disconnected events are not
      about connections of our own, nor about clients never accepted; peers
      removed are our own. */
  predicate Plausible(e: Expected, op: Op) {
    match op
    case MakePeer(None, _) => true
    case MakePeer(Some(client), _) => !Known(e, client.qp)
    case RemovePeer(qp) => qp in e.open && e.open[qp].initiated
    case Serve(env) =>
      !env.waitFails ==>
        match env.event.kind
        case ConnectRequest => !Known(e, env.client.qp) && !env.client.initiated
        case Established(qp) => Known(e, qp) ==> qp in e.open && !e.open[qp].initiated
        case Disconnected(qp) => Known(e, qp) ==> qp in e.open && !e.open[qp].initiated
        case Unsupported => true
  }

  predicate PlausibleRun(ops: seq<Op>) {
    forall i :: 0 <= i < |ops| ==> Plausible(ExpectedAfter(ops[..i]), ops[i])
  }

  ghost predicate MapIs(c: Control, e: Expected) {
    && c.clients == e.open + e.orphans && e.open.Keys !! e.orphans.Keys && Keyed(e.open) && Keyed(e.orphans)
    && c.status == e.status
  }

  /** Over every plausible run the client map is the open connections and the
      orphans, keyed by their own numbers, up to the first null client met, which
      is told from the events too; so it is the open connections exactly when no
      refill of a new client has failed. */
  lemma {:induction false} ClientMapExact(ops: seq<Op>)
    requires PlausibleRun(ops)
    ensures MapIs(After(ops), ExpectedAfter(ops))
    ensures After(ops).clients == ExpectedAfter(ops).open <==> ExpectedAfter(ops).orphans == map[]
  {
    if ops == [] {
    } else {
      var before := ops[..|ops| - 1];
      assert forall i :: 0 <= i < |before| ==> before[..i] == ops[..i];
      ClientMapExact(before);
      assert Plausible(ExpectedAfter(before), ops[|ops| - 1]);
      MapStep(After(before), ExpectedAfter(before), ops[|ops| - 1]);
    }
    var e := ExpectedAfter(ops);
    if qp :| qp in e.orphans {
      assert qp in After(ops).clients && qp !in e.open;
    }
    assert e.orphans == map[] ==> e.open + e.orphans == e.open;
  }

  lemma MapStep(c: Control, e: Expected, op: Op)
    requires MapIs(c, e) && Plausible(e, op)
    ensures MapIs(Apply(c, op), Expect(e, op))
  {
    if e.status != Serving {
    } else {
      match op
      case MakePeer(None, _) =>
      case MakePeer(Some(client), refill) => MapInsert(c.clients, e, client.(initiated := true));
      case RemovePeer(qp) => MapRemove(c.clients, e, qp);
      case Serve(env) =>
        if !env.waitFails {
          match env.event.kind
          case ConnectRequest => MapRequest(c, e, env);
          case Disconnected(qp) =>
            if qp in e.open {
              MapRemove(c.clients, e, qp);
            }
          case _ =>
        }
    }
  }

  /** A request leaves the map as it was, or adds its client. */
  lemma RequestClients(c: Control, env: Env)
    requires c.status.Serving? && !env.waitFails && env.event.kind.ConnectRequest?
    ensures var c', now := Handle(c, env), Inserted(c.clients, env.client);
            && c'.status == (if Requests(env) && env.refill.Loops? then Refilling else Serving)
            && c'.clients == if !Requests(env) then c.clients
                             else if env.refill.Returns? && env.acceptFails then now - {env.client.qp} else now
  {
  }

  lemma MapRequest(c: Control, e: Expected, env: Env)
    requires MapIs(c, e) && e.status == Serving && Plausible(e, Serve(env))
    requires !env.waitFails && env.event.kind.ConnectRequest?
    ensures MapIs(Handle(c, env), Expect(e, Serve(env)))
  {
    RequestClients(c, env);
    MapInsert(c.clients, e, env.client);
  }

  lemma MapInsert(clients: map<Qp, Client>, e: Expected, client: Client)
    requires clients == e.open + e.orphans && client.qp !in e.open && client.qp !in e.orphans
    ensures var now := Inserted(clients, client);
            && now == e.open[client.qp := client] + e.orphans
            && now == e.open + e.orphans[client.qp := client]
            && now - {client.qp} == clients
  {
  }

  lemma MapRemove(clients: map<Qp, Client>, e: Expected, qp: Qp)
    requires clients == e.open + e.orphans && qp in e.open && e.open.Keys !! e.orphans.Keys
    ensures clients - {qp} == (e.open - {qp}) + e.orphans && clients[qp] == e.open[qp]
  {
  }

  lemma OrphanStep(e: Expected, op: Op, qp: Qp)
    requires Plausible(e, op) && qp in e.orphans
    ensures qp in Expect(e, op).orphans && Expect(e, op).orphans[qp] == e.orphans[qp]
  {
  }

  /** An orphan stays in the map for good. */
  lemma OrphansStay(ops: seq<Op>, more: seq<Op>, qp: Qp)
    requires PlausibleRun(ops + more) && qp in ExpectedAfter(ops).orphans
    ensures qp in After(ops + more).clients && After(ops + more).clients[qp] == ExpectedAfter(ops).orphans[qp]
  {
    OrphansExpected(ops, more, qp);
    ClientMapExact(ops + more);
  }

  lemma {:induction false} OrphansExpected(ops: seq<Op>, more: seq<Op>, qp: Qp)
    requires PlausibleRun(ops + more) && qp in ExpectedAfter(ops).orphans
    ensures qp in ExpectedAfter(ops + more).orphans
    ensures ExpectedAfter(ops + more).orphans[qp] == ExpectedAfter(ops).orphans[qp]
    decreases |more|
  {
    if more == [] {
      assert ops + more == ops;
    } else {
      var before, op := ops + more[..|more| - 1], more[|more| - 1];
      assert ops + more == before + [op];
      RunSplit(before, op);
      OrphansExpected(ops, more[..|more| - 1], qp);
      OrphanStep(ExpectedAfter(before), op, qp);
    }
  }

  /** Should a new client come with the number of a mapped one, which the runs
      above exclude, the map keeps the older client; if the newer is accepted it
      is answered and never mapped, and if not, it is the older that goes. */
  lemma TakenNumber(c: Control, env: Env)
    requires c.status.Serving? && !env.waitFails && env.event.kind.ConnectRequest?
    requires !env.queueFails && !env.clientFails && env.client.qp in c.clients
    ensures var c' := Handle(c, env);
            && (!env.refill.Returns? || !env.acceptFails ==> c'.clients == c.clients)
            && (env.refill.Returns? && !env.acceptFails ==>
                  c'.log.accepted == c.log.accepted + [(env.event.id, env.client)])
            && (env.refill.Returns? && env.acceptFails ==> c'.clients == c.clients - {env.client.qp})
  {
    RequestClients(c, env);
  }

  /** The event of a plausible run that announces or ends a connection does so
      to the client that was accepted on that queue pair, if there is one; if
      not, it meets a null client. A request whose client is not accepted
      restores the map, unless its refill failed. */
  lemma EventsFindTheirClient(ops: seq<Op>, env: Env)
    requires PlausibleRun(ops + [Serve(env)]) && !env.waitFails && ExpectedAfter(ops).status == Serving
    ensures var c, c', kind, open := After(ops), After(ops + [Serve(env)]), env.event.kind, ExpectedAfter(ops).open;
            && (kind.Established? && kind.qp in open ==>
                  c'.log.established == c.log.established + [open[kind.qp]])
            && (kind.Disconnected? && kind.qp in open ==>
                  c'.log.destroyed == c.log.destroyed + [open[kind.qp]] && kind.qp !in c'.clients)
            && ((kind.Established? || kind.Disconnected?) && kind.qp !in open ==>
                  c'.status == Crashed && c'.clients == c.clients
                  && c'.log == c.log.(fetched := c.log.fetched + [env.event.id]))
            && (kind.ConnectRequest? && env.refill.Returns? && env.acceptFails ==> c'.clients == c.clients)
  {
    RunSplit(ops, Serve(env));
    ClientMapExact(ops);
    var e := ExpectedAfter(ops);
    match env.event.kind
    case ConnectRequest => MapInsert(After(ops).clients, e, env.client);
    case Established(qp) => MapFinds(After(ops).clients, e, qp);
    case Disconnected(qp) => MapFinds(After(ops).clients, e, qp);
    case Unsupported =>
  }

  lemma MapFinds(clients: map<Qp, Client>, e: Expected, qp: Qp)
    requires clients == e.open + e.orphans && e.open.Keys !! e.orphans.Keys
    ensures qp in clients <==> Known(e, qp)
    ensures qp in e.open ==> clients[qp] == e.open[qp]
  {
  }

  /** The call that makes a connection of our own maps its client, whether or not
      connecting succeeds, and leaves everything else; if no client can be made
      the process is gone, and with it every later call. */
  lemma PeerMappedOrCrash(ops: seq<Op>, made: Option<Client>, refill: Ending, more: seq<Op>)
    requires PlausibleRun(ops + [MakePeer(made, refill)]) && ExpectedAfter(ops).status == Serving
    ensures var c, c' := After(ops), After(ops + [MakePeer(made, refill)]);
            if made == None then
              c' == c.(status := Crashed) && After(ops + [MakePeer(made, refill)] + more) == c'
            else
              && c'.clients == c.clients[made.value.qp := made.value.(initiated := true)]
              && c'.log == c.log && c'.slot == c.slot
              && (c'.status == if refill.Loops? then Refilling else Serving)
  {
    RunSplit(ops, MakePeer(made, refill));
    ClientMapExact(ops);
    if made == None {
      NothingFollows(ops + [MakePeer(made, refill)], more);
    } else {
      MapFinds(After(ops).clients, ExpectedAfter(ops), made.value.qp);
    }
  }

  /** A process that is gone, or stuck in a refill, does nothing more. */
  lemma {:induction false} NothingFollows(ops: seq<Op>, more: seq<Op>)
    requires After(ops).status != Serving
    ensures After(ops + more) == After(ops)
    decreases |more|
  {
    if more == [] {
      assert ops + more == ops;
    } else {
      NothingFollows(ops, more[..|more| - 1]);
      assert (ops + more)[..|ops + more| - 1] == ops + more[..|more| - 1];
    }
  }

  lemma RunSplit(ops: seq<Op>, op: Op)
    requires PlausibleRun(ops + [op])
    ensures PlausibleRun(ops) && Plausible(ExpectedAfter(ops), op)
    ensures After(ops + [op]) == Apply(After(ops), op) && ExpectedAfter(ops + [op]) == Expect(ExpectedAfter(ops), op)
  {
    var all := ops + [op];
    assert all[..|ops|] == ops && all[|ops|] == op;
    assert forall i :: 0 <= i < |ops| ==> all[..i] == ops[..i] && all[i] == ops[i];
  }

  // ---------------------------------------------------------------- refusals

  /** A refusal by the pre-connection callback is sent to the peer and then the
      request is served as if there had been none: the map, the slot, the
      acknowledgements and the accepted clients are the same with it. */
  lemma RefusalChangesNothing(c: Control, env: Env)
    requires env.refused && !env.waitFails && c.status.Serving? && env.event.kind.ConnectRequest?
    ensures var with, without := Handle(c, env), Handle(c, env.(refused := false));
            && with == without.(log := without.log.(rejected := with.log.rejected))
            && with.log.rejected[..|c.log.rejected| + 1] == c.log.rejected + [env.event.id]
  {
  }

  /** The call at place `i` fetches the request with this number. */
  predicate RequestAt(envs: seq<Env>, i: int, id: nat) {
    && 0 <= i < |envs| && Handled(FRESH, envs[..i]).status.Serving?
    && !envs[i].waitFails && envs[i].event == Event(id, ConnectRequest)
  }

  /** Its queue, its client, the refill and the accept all succeed. */
  predicate Succeeds(env: Env) {
    !env.queueFails && !env.clientFails && env.refill.Returns? && !env.acceptFails
  }

  predicate Rejects(env: Env) {
    env.refused || (!env.queueFails && !env.clientFails && env.refill.Returns? && env.acceptFails)
  }

  function Ids(accepted: seq<(nat, Client)>): set<nat> {
    set a | a in accepted :: a.0
  }

  lemma LogGrows(c: Control, env: Env)
    ensures var c' := Handle(c, env);
            if c.status.Serving? && !env.waitFails && env.event.kind.ConnectRequest? then
              && (forall id :: id in c'.log.rejected <==> id in c.log.rejected || (id == env.event.id && Rejects(env)))
              && c'.log.accepted == c.log.accepted + if Succeeds(env) then [(env.event.id, env.client)] else []
            else c'.log.rejected == c.log.rejected && c'.log.accepted == c.log.accepted
  {
  }

  lemma IdsAppend(accepted: seq<(nat, Client)>, a: (nat, Client))
    ensures Ids(accepted + [a]) == Ids(accepted) + {a.0}
  {
    assert forall x :: x in accepted + [a] <==> x in accepted || x == a;
  }

  predicate RejectedAt(envs: seq<Env>, i: int, id: nat) {
    RequestAt(envs, i, id) && Rejects(envs[i])
  }

  predicate AcceptedAt(envs: seq<Env>, i: int, id: nat) {
    RequestAt(envs, i, id) && Succeeds(envs[i])
  }

  lemma SameBefore(envs: seq<Env>, i: int, id: nat)
    requires envs != [] && i < |envs| - 1
    ensures RequestAt(envs[..|envs| - 1], i, id) <==> RequestAt(envs, i, id)
    ensures RejectedAt(envs[..|envs| - 1], i, id) <==> RejectedAt(envs, i, id)
    ensures AcceptedAt(envs[..|envs| - 1], i, id) <==> AcceptedAt(envs, i, id)
  {
    if 0 <= i {
      assert envs[..|envs| - 1][..i] == envs[..i];
    }
  }

  /** What the log says was rejected and accepted, told from the calls. */
  lemma {:induction false} LogSays(envs: seq<Env>, id: nat)
    ensures id in Handled(FRESH, envs).log.rejected <==> exists i :: RejectedAt(envs, i, id)
    ensures id in Ids(Handled(FRESH, envs).log.accepted) <==> exists i :: AcceptedAt(envs, i, id)
  {
    if envs == [] {
    } else {
      var last := |envs| - 1;
      var before := envs[..last];
      LogSays(before, id);
      LogGrows(Handled(FRESH, before), envs[last]);
      assert RequestAt(envs, last, id) <==> Handled(FRESH, before).status.Serving? && !envs[last].waitFails
                                            && envs[last].event == Event(id, ConnectRequest);
      IdsAppend(Handled(FRESH, before).log.accepted, (envs[last].event.id, envs[last].client));
      RejectedBefore(before, envs, id);
      AcceptedBefore(before, envs, id);
    }
  }

  lemma RejectedBefore(before: seq<Env>, envs: seq<Env>, id: nat)
    requires envs != [] && before == envs[..|envs| - 1]
    ensures (exists i :: RejectedAt(envs, i, id)) <==>
              (exists i :: RejectedAt(before, i, id)) || RejectedAt(envs, |before|, id)
  {
    if i :| RejectedAt(envs, i, id) && i < |before| {
      SameBefore(envs, i, id);
    }
    if i :| RejectedAt(before, i, id) {
      SameBefore(envs, i, id);
    }
  }

  lemma AcceptedBefore(before: seq<Env>, envs: seq<Env>, id: nat)
    requires envs != [] && before == envs[..|envs| - 1]
    ensures (exists i :: AcceptedAt(envs, i, id)) <==>
              (exists i :: AcceptedAt(before, i, id)) || AcceptedAt(envs, |before|, id)
  {
    if i :| AcceptedAt(envs, i, id) && i < |before| {
      SameBefore(envs, i, id);
    }
    if i :| AcceptedAt(before, i, id) {
      SameBefore(envs, i, id);
    }
  }

  /** Events have different numbers. */
  predicate Numbered(envs: seq<Env>) {
    forall i, j :: 0 <= i < j < |envs| && !envs[i].waitFails && !envs[j].waitFails ==>
      envs[i].event.id != envs[j].event.id
  }

  /** A request is rejected exactly when the callback refuses it or its client
      cannot be accepted, and accepted exactly when nothing of it fails. */
  lemma RejectedExactly(envs: seq<Env>, id: nat)
    ensures id in Handled(FRESH, envs).log.rejected <==>
              exists i :: RequestAt(envs, i, id)
                          && (envs[i].refused || (!envs[i].queueFails && !envs[i].clientFails
                                                  && envs[i].refill.Returns? && envs[i].acceptFails))
    ensures id in Ids(Handled(FRESH, envs).log.accepted) <==>
              exists i :: RequestAt(envs, i, id) && !envs[i].queueFails && !envs[i].clientFails
                          && envs[i].refill.Returns? && !envs[i].acceptFails
  {
    LogSays(envs, id);
    assert forall i :: RejectedAt(envs, i, id) <==> RequestAt(envs, i, id) && Rejects(envs[i]);
    assert forall i :: AcceptedAt(envs, i, id) <==> RequestAt(envs, i, id) && Succeeds(envs[i]);
  }

  /** Over every run, the requests that were rejected and accepted both are
      exactly those the callback refused while everything after it succeeded. */
  lemma RejectedAndAccepted(envs: seq<Env>, id: nat)
    requires Numbered(envs)
    ensures id in Handled(FRESH, envs).log.rejected && id in Ids(Handled(FRESH, envs).log.accepted)
            <==> exists i :: RequestAt(envs, i, id) && envs[i].refused && Succeeds(envs[i])
  {
    LogSays(envs, id);
    if id in Handled(FRESH, envs).log.rejected && id in Ids(Handled(FRESH, envs).log.accepted) {
      var i :| RejectedAt(envs, i, id);
      var j :| AcceptedAt(envs, j, id);
      assert i == j;
      assert envs[i].refused;
    }
    if i :| RequestAt(envs, i, id) && envs[i].refused && Succeeds(envs[i]) {
      assert RejectedAt(envs, i, id) && AcceptedAt(envs, i, id);
    }
  }

  /** Such a run: one request, refused, and its client accepted and mapped. */
  lemma RefusedClientServed(id: nat, client: Client)
    ensures var env := Env(false, Event(id, ConnectRequest), true, false, false, client, Returns, false, false, false);
            var c := Handled(FRESH, [env]);
            && Numbered([env]) && c.log.rejected == [id] && c.log.accepted == [(id, client)]
            && c.clients == map[client.qp := client] && c.log.acked == [id]
  {
    var env := Env(false, Event(id, ConnectRequest), true, false, false, client, Returns, false, false, false);
    assert [env][..0] == [];
    assert Handled(FRESH, [env]) == Handle(FRESH, env);
  }

  // ---------------------------------------------------------------- fairness

  /** How many of `n` calls, the first with the counter at `count`, poll the
      channel, when the drain of every one of them finishes. */
  function Polls(count: nat, n: nat): nat {
    if n == 0 then 0
    else Polls(count, n - 1) + if PollsAt(Advance(count, n - 1)) then 1 else 0
  }

  lemma AdvanceTwice(count: nat, a: nat, b: nat)
    ensures Advance(Advance(count, a), b) == Advance(count, a + b)
  {
    var q := (count + a) / UINT32;
    ModPlus((count + a) % UINT32 + b, q);
    assert count + a == q * UINT32 + (count + a) % UINT32;
  }

  lemma {:induction false} ModPlus(x: nat, q: nat)
    ensures (x + q * UINT32) % UINT32 == x % UINT32
  {
    if q == 0 {
    } else {
      ModPlus(x, q - 1);
      assert (x + (q - 1) * UINT32 + UINT32) % UINT32 == (x + (q - 1) * UINT32) % UINT32;
    }
  }

  lemma {:induction false} PollsSplit(count: nat, m: nat, n: nat)
    ensures Polls(count, m + n) == Polls(count, m) + Polls(Advance(count, m), n)
    decreases n
  {
    if n == 0 {
    } else {
      PollsSplit(count, m, n - 1);
      AdvanceTwice(count, m, n - 1);
    }
  }

  /** Any ten such calls in a row poll at least once, even across the wrap. */
  lemma TenCallsPoll(count: nat)
    requires count < UINT32
    ensures Polls(count, 10) >= 1
  {
    var k := (10 - count % 10) % 10;
    if count + k < UINT32 {
      assert PollsAt(Advance(count, k));
      OnePoll(count, k, 10);
    } else {
      var z := UINT32 - count;
      assert Advance(count, z) == 0;
      OnePoll(count, z, 10);
    }
  }

  lemma {:induction false} OnePoll(count: nat, k: nat, n: nat)
    requires k < n && PollsAt(Advance(count, k))
    ensures Polls(count, n) >= 1
  {
    if k == n - 1 {
    } else {
      OnePoll(count, k, n - 1);
    }
  }

  /** Any n such calls in a row poll the event channel at least n/10 times,
      wherever the 32-bit counter stands and wraps. */
  lemma {:induction false} PollingIsFair(count: nat, n: nat)
    requires count < UINT32
    ensures Polls(count, n) >= n / 10
    decreases n
  {
    if n < 10 {
    } else {
      TenCallsPoll(count);
      PollingIsFair(Advance(count, 10), n - 10);
      PollsSplit(count, 10, n - 10);
    }
  }

  /** After a poll the next one comes exactly ten such calls later, except that the
      last value polled before the wrap is followed after six. */
  lemma NextPoll(count: nat, k: nat)
    requires count < UINT32 && PollsAt(count)
    requires 0 < k <= if count == 4294967290 then 6 else 10
    ensures PollsAt(Advance(count, k)) <==> k == if count == 4294967290 then 6 else 10
  {
    if count == 4294967290 {
      assert Advance(count, k) == if k < 6 then count + k else 0;
    } else {
      assert count + k < UINT32;
    }
  }

  /** Calls of eventMonitor told by how their drains end: the counter after
      them, how many finished, and how many polled the channel. */
  function CountAt(count: nat, ends: seq<PollEnd>): nat {
    if ends == [] then count else CountAfter(CountAt(count, ends[..|ends| - 1]), ends[|ends| - 1])
  }

  function Finishing(ends: seq<PollEnd>): nat {
    if ends == [] then 0 else Finishing(ends[..|ends| - 1]) + if ends[|ends| - 1].Finished? then 1 else 0
  }

  function PollsOver(count: nat, ends: seq<PollEnd>): nat {
    if ends == [] then 0
    else
      var before := ends[..|ends| - 1];
      PollsOver(count, before) + if Due(CountAt(count, before), ends[|ends| - 1]) then 1 else 0
  }

  lemma {:induction false} OnlyFinishedCount(count: nat, ends: seq<PollEnd>)
    requires count < UINT32
    ensures CountAt(count, ends) == Advance(count, Finishing(ends))
    ensures PollsOver(count, ends) == Polls(count, Finishing(ends))
  {
    if ends == [] {
    } else {
      OnlyFinishedCount(count, ends[..|ends| - 1]);
      AdvanceTwice(count, Finishing(ends[..|ends| - 1]), 1);
    }
  }

  /** Over all calls, failed ones included, the channel is polled as often as the
      calls that finish would poll it alone: at least once in ten of those. */
  lemma FairToFinishedCalls(count: nat, ends: seq<PollEnd>)
    requires count < UINT32
    ensures PollsOver(count, ends) == Polls(count, Finishing(ends)) >= Finishing(ends) / 10
  {
    OnlyFinishedCount(count, ends);
    PollingIsFair(count, Finishing(ends));
  }

  /** The finished calls before the next poll: up to the next multiple of ten, or
      to the wrap. */
  function Wait(count: nat): nat
    requires count < UINT32
  {
    var k := (10 - count % 10) % 10;
    if count + k < UINT32 then k else UINT32 - count
  }

  /** Calls poll the channel at all exactly when enough of them finish. */
  lemma PolledExactly(count: nat, ends: seq<PollEnd>)
    requires count < UINT32
    ensures PollsOver(count, ends) > 0 <==> Finishing(ends) > Wait(count)
    ensures Wait(count) < 10
  {
    OnlyFinishedCount(count, ends);
    FirstPoll(count, Finishing(ends));
  }

  lemma WaitEnds(count: nat, k: nat)
    requires count < UINT32 && k <= Wait(count)
    ensures PollsAt(Advance(count, k)) <==> k == Wait(count)
  {
    if count + k < UINT32 {
      var q, r := count / 10, count % 10;
      assert count + k == 10 * q + (r + k);
    } else {
      assert Advance(count, k) == 0;
    }
  }

  lemma {:induction false} FirstPoll(count: nat, n: nat)
    requires count < UINT32
    ensures Polls(count, n) > 0 <==> n > Wait(count)
  {
    if n == 0 {
    } else {
      FirstPoll(count, n - 1);
      if n - 1 <= Wait(count) {
        WaitEnds(count, n - 1);
      }
    }
  }

  /** One broken queue starves the channel: while every drain throws, no number of
      calls polls it, wherever the counter stands. */
  lemma {:induction false} FailingDrainsStarve(count: nat, n: nat)
    ensures PollsOver(count, seq(n, _ => Thrown)) == 0 && CountAt(count, seq(n, _ => Thrown)) == count
  {
    if n == 0 {
    } else {
      FailingDrainsStarve(count, n - 1);
      assert seq(n, _ => Thrown)[..n - 1] == seq(n - 1, _ => Thrown);
    }
  }

  /** So a tenth of all calls poll, wherever the counter stands, exactly when the
      failed ones leave as many full tens. */
  lemma FairToAllCallsExactly(ends: seq<PollEnd>)
    ensures |ends| < UINT32 ==>
              ((forall count :: 0 <= count < UINT32 ==> PollsOver(count, ends) >= |ends| / 10)
               <==> Finishing(ends) / 10 >= |ends| / 10)
  {
    if |ends| < UINT32 {
      FinishingBound(ends);
      forall count | 0 <= count < UINT32 ensures PollsOver(count, ends) >= Finishing(ends) / 10 {
        FairToFinishedCalls(count, ends);
      }
      OnlyFinishedCount(1, ends);
      PollsFromOne(Finishing(ends));
      assert PollsOver(1, ends) == Finishing(ends) / 10;
    }
  }

  lemma {:induction false} FinishingBound(ends: seq<PollEnd>)
    ensures Finishing(ends) <= |ends|
  {
    if ends == [] {
    } else {
      FinishingBound(ends[..|ends| - 1]);
    }
  }

  lemma {:induction false} PollsFromOne(n: nat)
    requires n < UINT32
    ensures Polls(1, n) == n / 10
  {
    if n == 0 {
    } else {
      PollsFromOne(n - 1);
      assert Advance(1, n - 1) == n;
    }
  }

  // ------------------------------------------------------------------- drain

  /** What was polled of the queue of one client's number, in the order it came. */
  function Of(calls: seq<(Client, Answer)>, qp: Qp): seq<Answer> {
    if calls == [] then []
    else Of(calls[..|calls| - 1], qp) + if calls[|calls| - 1].0.qp == qp then [calls[|calls| - 1].1] else []
  }

  lemma {:induction false} OfAppend(a: seq<(Client, Answer)>, b: seq<(Client, Answer)>, qp: Qp)
    ensures Of(a + b, qp) == Of(a, qp) + Of(b, qp)
  {
    if b == [] {
      assert a + b == a;
    } else {
      OfAppend(a, b[..|b| - 1], qp);
      assert (a + b)[..|a + b| - 1] == a + b[..|b| - 1];
    }
  }

  lemma {:induction false} OfWith(client: Client, queue: seq<Answer>, qp: Qp)
    ensures Of(With(client, queue), qp) == if client.qp == qp then queue else []
  {
    if queue == [] {
    } else {
      var last := |queue| - 1;
      OfWith(client, queue[..last], qp);
      assert With(client, queue)[..last] == With(client, queue[..last]);
    }
  }

  ghost predicate Apart(cs: seq<Client>) {
    forall i, j :: 0 <= i < j < |cs| ==> cs[i].qp != cs[j].qp
  }

  /** Whatever order the map is walked in, a full drain hands every client
      exactly its own queue, in the queue's order and once each. */
  lemma {:induction false} DrainPerClient(cs: seq<Client>, queues: seq<seq<Answer>>, i: nat)
    requires |queues| == |cs| && Apart(cs) && i < |cs|
    ensures Of(Drain(cs, queues), cs[i].qp) == queues[i]
  {
    OfWith(cs[0], queues[0], cs[i].qp);
    OfAppend(With(cs[0], queues[0]), Drain(cs[1..], queues[1..]), cs[i].qp);
    if i == 0 {
      DrainToNoOther(cs[1..], queues[1..], cs[0].qp);
    } else {
      DrainPerClient(cs[1..], queues[1..], i - 1);
    }
  }

  /** Nothing is handed to anyone who is not a client. */
  lemma {:induction false} DrainToNoOther(cs: seq<Client>, queues: seq<seq<Answer>>, qp: Qp)
    requires |queues| == |cs| && forall i :: 0 <= i < |cs| ==> cs[i].qp != qp
    ensures Of(Drain(cs, queues), qp) == []
  {
    if cs == [] {
    } else {
      DrainToNoOther(cs[1..], queues[1..], qp);
      OfWith(cs[0], queues[0], qp);
      OfAppend(With(cs[0], queues[0]), Drain(cs[1..], queues[1..]), qp);
    }
  }

  /** The walk of a keyed map has no number twice. */
  lemma WalkApart(order: seq<Qp>, clients: map<Qp, Client>)
    requires Keyed(clients) && Walks(order, clients)
    ensures Apart(InOrder(order, clients)) && forall i :: 0 <= i < |order| ==> InOrder(order, clients)[i].qp == order[i]
  {
    assert forall i :: 0 <= i < |order| ==> order[i] in Elements(order);
  }

  /** A drain finishes exactly when every entry is a good completion; if not, it
      stops at the first that is none. Only good ones are handed over: all of
      them up to there, if there is a completion function. */
  lemma DrainStopsExactly(all: seq<(Client, Answer)>, hasCallback: bool, ntot: nat,
                          calls: seq<(Client, Answer)>, end: PollEnd)
    requires Handed(all, hasCallback, ntot, calls, end)
    ensures end.Finished? <==> forall i :: 0 <= i < |all| ==> all[i].1.Got? && all[i].1.completion.ok
    ensures forall i :: 0 <= i < ntot ==> all[i].1.Got? && all[i].1.completion.ok
    ensures ntot < |all| ==> (end.Thrown? && all[ntot].1.PollFails?)
                             || (end.Terminated? && all[ntot].1.Got? && !all[ntot].1.completion.ok)
    ensures ntot <= |all| && calls == if hasCallback then all[..ntot] else []
  {
    assert forall i :: 0 <= i < ntot ==> all[..ntot][i] == all[i];
  }

  /** What one drain of a keyed map hands out: each client gets what was polled of
      its own queue, in order; all of it when the drain finishes, and otherwise
      a prefix, nothing out of turn. */
  lemma EachGetsItsOwn(order: seq<Qp>, clients: map<Qp, Client>, queues: seq<seq<Answer>>,
                       ntot: nat, calls: seq<(Client, Answer)>, end: PollEnd, i: nat)
    requires Keyed(clients) && Walks(order, clients) && |queues| == |order| && i < |order|
    requires Handed(Drain(InOrder(order, clients), queues), true, ntot, calls, end)
    ensures Of(calls, order[i]) <= queues[i]
    ensures end.Finished? ==> Of(calls, order[i]) == queues[i]
    ensures forall qp :: qp !in clients ==> Of(calls, qp) == []
  {
    var cs := InOrder(order, clients);
    var all := Drain(cs, queues);
    WalkApart(order, clients);
    DrainPerClient(cs, queues, i);
    assert all == calls + all[ntot..];
    OfAppend(calls, all[ntot..], order[i]);
    assert end.Finished? ==> calls == all;
    forall qp | qp !in clients ensures Of(calls, qp) == [] {
      assert forall k :: 0 <= k < |order| ==> order[k] in Elements(order);
      DrainToNoOther(cs, queues, qp);
      OfAppend(calls, all[ntot..], qp);
    }
  }

  // ----------------------------------------------------------------- removal

  /** No connection of our own comes after a foreign one in the walk. */
  ghost predicate OwnFirst(order: seq<Qp>, clients: map<Qp, Client>)
    requires Elements(order) <= clients.Keys
  {
    forall i, j :: 0 <= i < j < |order| && clients[order[j]].initiated ==> clients[order[i]].initiated
  }

  function Foreign(clients: map<Qp, Client>): map<Qp, Client> {
    map qp | qp in clients && !clients[qp].initiated :: clients[qp]
  }

  lemma {:induction false} CountIsPrefix(order: seq<Qp>, clients: map<Qp, Client>)
    requires Elements(order) <= clients.Keys
    ensures InitiatedPrefix(order, clients) == CountInitiated(order, clients) <==> OwnFirst(order, clients)
    ensures forall i :: 0 <= i < InitiatedPrefix(order, clients) ==> clients[order[i]].initiated
    ensures CountInitiated(order, clients) == 0 <==> forall i :: 0 <= i < |order| ==> !clients[order[i]].initiated
    ensures InitiatedPrefix(order, clients) < |order| ==> !clients[order[InitiatedPrefix(order, clients)]].initiated
  {
    if order == [] {
    } else {
      var rest := order[1..];
      assert order[0] in Elements(order) && Elements(rest) <= Elements(order);
      CountIsPrefix(rest, clients);
      PrefixWithinCount(rest, clients);
      assert forall i :: 0 <= i < |rest| ==> rest[i] == order[i + 1];
      if clients[order[0]].initiated {
        if OwnFirst(rest, clients) {
          assert OwnFirst(order, clients);
        }
        assert OwnFirst(order, clients) ==> OwnFirst(rest, clients);
      } else if CountInitiated(order, clients) > 0 {
        var j :| 0 <= j < |rest| && clients[rest[j]].initiated;
        assert clients[order[j + 1]].initiated;
      }
    }
  }

  /** Removing all connections of our own comes to an end, given iterations
      enough, exactly when none of them comes after a foreign one in the walk;
      what is left then are the foreign ones, unchanged. Whatever the walk, only
      connections of our own are ever removed. `p` and `n` are as in the
      contract of RemoveAllInitiatedConnections. */
  lemma RemovalEnds(order: seq<Qp>, clients: map<Qp, Client>)
    requires Walks(order, clients)
    ensures var p, n := InitiatedPrefix(order, clients), CountInitiated(order, clients);
            && (p == n <==> OwnFirst(order, clients))
            && (p == n ==> clients - Elements(order[..p]) == Foreign(clients))
            && (forall k :: 0 <= k <= p ==> Foreign(clients) == Foreign(clients - Elements(order[..k])))
  {
    CountIsPrefix(order, clients);
    var p, n := InitiatedPrefix(order, clients), CountInitiated(order, clients);
    forall k | 0 <= k <= p ensures Foreign(clients) == Foreign(clients - Elements(order[..k])) {
      assert forall qp :: qp in Elements(order[..k]) ==> clients[qp].initiated;
    }
    if p == n {
      forall qp | qp in clients ensures qp in Elements(order[..p]) <==> clients[qp].initiated {
        var i :| 0 <= i < |order| && order[i] == qp;
        if i < p {
          assert order[..p][i] == qp;
        } else {
          assert !clients[order[p]].initiated;
        }
      }
    }
  }

  /** One foreign connection before one of our own is enough to spin for ever. */
  lemma RemovalCanSpin(own: Client, foreign: Client)
    requires own.initiated && !foreign.initiated && own.qp != foreign.qp
    ensures var clients := map[foreign.qp := foreign, own.qp := own];
            var order := [foreign.qp, own.qp];
            Walks(order, clients) && InitiatedPrefix(order, clients) == 0 && CountInitiated(order, clients) == 1
  {
    var order := [foreign.qp, own.qp];
    var clients := map[foreign.qp := foreign, own.qp := own];
    assert order[1..] == [own.qp] && [own.qp][1..] == [];
    assert CountInitiated([own.qp], clients) == 1 + CountInitiated([], clients);
    assert Elements(order) == {foreign.qp, own.qp};
  }
}
