/** The controller and the small blocks together. A refill is a stretch of block
    steps: posts of the thread that refills, and whatever other threads do to
    the blocks meanwhile; how it ends is told by the counters it sees. So the
    runs here are those of the event handler with the pool it depends on. */
module ServiceRuns {
  import opened Collections
  import opened Regions
  import opened Controllers
  import Preposts
  import B = BlockAccounting
  import R = ControllerRuns

  datatype Service = Service(c: Control, s: B.System)

  /** `during` is what happens to the blocks while the clients are refilled;
      `Blocks` is a block step at any other time. */
  datatype Act =
    | Serve(env: Env, during: seq<B.Step>)
    | MakePeer(client: Client, refill: Preposts.Ending, during: seq<B.Step>)
    | RemovePeer(qp: Qp)
    | Blocks(step: B.Step)

  /** Steps that connect or close no client. */
  predicate OnBlocks(step: B.Step) {
    !step.Connect? && !step.Close?
  }

  /** A refill of all clients of `s`, so far: no client comes or goes, for the
      map is locked. It returns when it has seen each client full at some time;
      it throws at a refused post; else some client is not full and it goes on. */
  ghost predicate RefillOf(s: B.System, during: seq<B.Step>, end: Preposts.Ending) {
    && B.Run(s, during) && (forall i :: 0 <= i < |during| ==> OnBlocks(during[i]))
    && match end
       case Returns => forall qp :: qp in s.waiting ==> SeenFull(s, during, qp)
       case Throws => during != [] && during[|during| - 1].PostThrows?
       case Loops => exists qp :: qp in s.waiting && !SeenFull(s, during, qp)
  }

  ghost predicate SeenFull(s: B.System, during: seq<B.Step>, qp: Qp)
    requires B.Run(s, during)
  {
    exists k :: 0 <= k <= |during| && FullAt(s, during, k, qp)
  }

  ghost predicate FullAt(s: B.System, during: seq<B.Step>, k: nat, qp: Qp)
    requires B.Run(s, during) && k <= |during|
  {
    RunPrefix(s, during, k);
    var w := B.End(s, during[..k]).waiting;
    qp in w && w[qp] >= B.PREPOSTS
  }

  lemma {:induction false} RunPrefix(s: B.System, steps: seq<B.Step>, k: nat)
    requires B.Run(s, steps) && k <= |steps|
    ensures B.Run(s, steps[..k])
    decreases k
  {
    if k == 0 {
    } else {
      RunPrefix(B.Apply(s, steps[0]), steps[1..], k - 1);
      assert steps[..k][1..] == steps[1..][..k - 1];
    }
  }

  /** Queue-pair numbers of live clients are unique, and disconnects and removals
      are about mapped clients. A refill that goes on keeps the handler. */
  ghost predicate Enabled(j: Service, act: Act) {
    match act
    case Serve(env, during) =>
      && j.c.status.Serving?
      && (if Refills(j.c, env) then
            env.client.qp !in j.s.waiting && RefillOf(Connected(j.s, env.client.qp), during, env.refill)
          else during == [])
      && (!env.waitFails && env.event.kind.Disconnected? ==> env.event.kind.qp in j.s.waiting)
    case MakePeer(client, refill, during) =>
      j.c.status.Serving? && client.qp !in j.s.waiting && RefillOf(Connected(j.s, client.qp), during, refill)
    case RemovePeer(qp) => j.c.status.Serving? && qp in j.s.waiting
    case Blocks(step) => OnBlocks(step) && B.Enabled(j.s, step)
  }

  function Connected(s: B.System, qp: Qp): B.System {
    s.(waiting := s.waiting[qp := 0])
  }

  function Closed(s: B.System, qp: Qp): B.System {
    if qp in s.waiting then B.Apply(s, B.Close(qp)) else s
  }

  ghost function Apply(j: Service, act: Act): Service
    requires Enabled(j, act)
  {
    match act
    case Serve(env, during) => Service(Handle(j.c, env), ServedBlocks(j, env, during))
    case MakePeer(client, refill, during) =>
      Service(Peer(j.c, Some(client), refill), B.End(Connected(j.s, client.qp), during))
    case RemovePeer(qp) => Service(j.c.(clients := j.c.clients - {qp}), Closed(j.s, qp))
    case Blocks(step) => j.(s := B.Apply(j.s, step))
  }

  ghost function ServedBlocks(j: Service, env: Env, during: seq<B.Step>): B.System
    requires Enabled(j, Serve(env, during))
  {
    if Refills(j.c, env) then
      var refilled := B.End(Connected(j.s, env.client.qp), during);
      if env.refill.Returns? && env.acceptFails then Closed(refilled, env.client.qp) else refilled
    else if !env.waitFails && env.event.kind.Disconnected? then Closed(j.s, env.event.kind.qp)
    else j.s
  }

  /** Where a sequence of acts leads, if each is enabled in its turn. */
  ghost function Reached(j: Service, acts: seq<Act>): Option<Service> {
    if acts == [] then Some(j)
    else
      match Reached(j, acts[..|acts| - 1])
      case Some(m) => if Enabled(m, acts[|acts| - 1]) then Some(Apply(m, acts[|acts| - 1])) else None
      case None => None
  }

  ghost predicate Run(j: Service, acts: seq<Act>) {
    Reached(j, acts).Some?
  }

  ghost function End(j: Service, acts: seq<Act>): Service
    requires Run(j, acts)
  {
    Reached(j, acts).value
  }

  // -------------------------------------------------------------- invariants

  /** The mapped clients are those the blocks know. */
  ghost predicate Inv(j: Service) {
    B.Inv(j.s) && j.c.clients.Keys == j.s.waiting.Keys
  }

  lemma BlocksKept(s: B.System, step: B.Step)
    requires B.Inv(s) && B.Enabled(s, step)
    ensures var s' := B.Apply(s, step);
            && B.Inv(s') && s'.small.blocks == s.small.blocks && s.stranded <= s'.stranded
            && (OnBlocks(step) ==> s'.waiting.Keys == s.waiting.Keys)
  {
    B.StepInv(s, step);
  }

  lemma {:induction false} RefillKept(s: B.System, during: seq<B.Step>)
    requires B.Inv(s) && B.Run(s, during) && forall i :: 0 <= i < |during| ==> OnBlocks(during[i])
    ensures var e := B.End(s, during);
            B.Inv(e) && e.small.blocks == s.small.blocks && s.stranded <= e.stranded && e.waiting.Keys == s.waiting.Keys
    decreases |during|
  {
    if during == [] {
    } else {
      BlocksKept(s, during[0]);
      RefillKept(B.Apply(s, during[0]), during[1..]);
    }
  }

  lemma ConnectedKept(s: B.System, qp: Qp)
    requires B.Inv(s) && qp !in s.waiting
    ensures B.Inv(Connected(s, qp)) && Connected(s, qp) == B.Apply(s, B.Connect(qp))
  {
    B.StepInv(s, B.Connect(qp));
  }

  lemma ClosedKept(s: B.System, qp: Qp)
    requires B.Inv(s) && qp in s.waiting
    ensures var s' := Closed(s, qp);
            && B.Inv(s') && s'.small == s.small && s.stranded <= s'.stranded
            && |s'.stranded| == |s.stranded| + s.waiting[qp] && s'.waiting.Keys == s.waiting.Keys - {qp}
  {
    B.CloseStep(s, qp);
  }

  /** What one event does to the keys of the map. */
  lemma ServedKeys(c: Control, env: Env)
    requires c.status.Serving?
    requires !env.waitFails && env.event.kind.Disconnected? ==> env.event.kind.qp in c.clients
    ensures var keys, keys' := c.clients.Keys, Handle(c, env).clients.Keys;
            if Refills(c, env) then
              keys' == if env.refill.Returns? && env.acceptFails then (keys + {env.client.qp}) - {env.client.qp}
                       else keys + {env.client.qp}
            else keys' == if !env.waitFails && env.event.kind.Disconnected? then keys - {env.event.kind.qp} else keys
  {
  }

  lemma ServedKept(j: Service, env: Env, during: seq<B.Step>)
    requires Inv(j) && Enabled(j, Serve(env, during))
    ensures var s' := ServedBlocks(j, env, during);
            && B.Inv(s') && s'.small.blocks == j.s.small.blocks && j.s.stranded <= s'.stranded
            && s'.waiting.Keys == Handle(j.c, env).clients.Keys
  {
    ServedKeys(j.c, env);
    if Refills(j.c, env) {
      var e := RequestKept(j.s, env.client.qp, during);
      if env.refill.Returns? && env.acceptFails {
        ClosedKept(e, env.client.qp);
      }
    } else if !env.waitFails && env.event.kind.Disconnected? {
      ClosedKept(j.s, env.event.kind.qp);
    }
  }

  lemma RequestKept(s: B.System, qp: Qp, during: seq<B.Step>) returns (e: B.System)
    requires B.Inv(s) && qp !in s.waiting
    requires B.Run(Connected(s, qp), during) && forall i :: 0 <= i < |during| ==> OnBlocks(during[i])
    ensures e == B.End(Connected(s, qp), during)
    ensures B.Inv(e) && e.small.blocks == s.small.blocks && s.stranded <= e.stranded
            && e.waiting.Keys == s.waiting.Keys + {qp}
  {
    ConnectedKept(s, qp);
    RefillKept(Connected(s, qp), during);
    e := B.End(Connected(s, qp), during);
  }

  /** Serving an event keeps the accounts, and the map in step with them. */
  lemma ServeKept(j: Service, env: Env, during: seq<B.Step>)
    requires Inv(j) && Enabled(j, Serve(env, during))
    ensures var j' := Apply(j, Serve(env, during));
            Inv(j') && j'.s.small.blocks == j.s.small.blocks && j.s.stranded <= j'.s.stranded
  {
    ServedKept(j, env, during);
  }

  lemma StepInv(j: Service, act: Act)
    requires Inv(j) && Enabled(j, act)
    ensures Inv(Apply(j, act))
    ensures Apply(j, act).s.small.blocks == j.s.small.blocks && j.s.stranded <= Apply(j, act).s.stranded
  {
    match act
    case Serve(env, during) => ServeKept(j, env, during);
    case MakePeer(client, refill, during) =>
      ConnectedKept(j.s, client.qp);
      RefillKept(Connected(j.s, client.qp), during);
    case RemovePeer(qp) => ClosedKept(j.s, qp);
    case Blocks(step) => BlocksKept(j.s, step);
  }

  lemma {:induction false} RunInv(j: Service, acts: seq<Act>)
    requires Inv(j) && Run(j, acts)
    ensures Inv(End(j, acts))
    ensures End(j, acts).s.small.blocks == j.s.small.blocks && j.s.stranded <= End(j, acts).s.stranded
  {
    if acts == [] {
    } else {
      RunInv(j, acts[..|acts| - 1]);
      StepInv(End(j, acts[..|acts| - 1]), acts[|acts| - 1]);
    }
  }

  /** A fresh controller over a pool just built. */
  ghost predicate Init(j: Service) {
    j.c == R.FRESH && B.Init(j.s)
  }

  lemma InitInv(j: Service)
    requires Init(j)
    ensures Inv(j)
  {
    B.InitInv(j.s);
  }

  // ------------------------------------------- what runs of the parts they are

  /** The block steps an act consists of. */
  ghost function StepsOf(j: Service, act: Act): seq<B.Step> {
    match act
    case Serve(env, during) =>
      if Refills(j.c, env) then
        [B.Connect(env.client.qp)] + during
        + if env.refill.Returns? && env.acceptFails then [B.Close(env.client.qp)] else []
      else if !env.waitFails && env.event.kind.Disconnected? then [B.Close(env.event.kind.qp)]
      else []
    case MakePeer(client, _, during) => [B.Connect(client.qp)] + during
    case RemovePeer(qp) => [B.Close(qp)]
    case Blocks(step) => [step]
  }

  ghost function BlockSteps(j: Service, acts: seq<Act>): seq<B.Step>
    requires Run(j, acts)
  {
    if acts == [] then []
    else
      RunUnsnoc(j, acts);
      BlockSteps(j, acts[..|acts| - 1]) + StepsOf(End(j, acts[..|acts| - 1]), acts[|acts| - 1])
  }

  lemma OneStep(s: B.System, step: B.Step)
    requires B.Enabled(s, step)
    ensures B.Run(s, [step]) && B.End(s, [step]) == B.Apply(s, step)
  {
  }

  /** Connecting a client, a refill, and closing it again if it is not accepted. */
  lemma RefillIsSteps(s: B.System, qp: Qp, during: seq<B.Step>)
    requires B.Inv(s) && qp !in s.waiting
    requires B.Run(Connected(s, qp), during) && forall i :: 0 <= i < |during| ==> OnBlocks(during[i])
    ensures var e := B.End(Connected(s, qp), during);
            && B.Run(s, [B.Connect(qp)] + during) && B.End(s, [B.Connect(qp)] + during) == e
            && B.Run(s, [B.Connect(qp)] + during + [B.Close(qp)])
            && B.End(s, [B.Connect(qp)] + during + [B.Close(qp)]) == Closed(e, qp)
  {
    var e := RequestKept(s, qp, during);
    ConnectedKept(s, qp);
    var steps := B.RunCons(s, B.Connect(qp), during);
    OneStep(e, B.Close(qp));
    B.RunAppend(s, steps, [B.Close(qp)]);
  }

  lemma ActIsSteps(j: Service, act: Act)
    requires Inv(j) && Enabled(j, act)
    ensures B.Run(j.s, StepsOf(j, act)) && B.End(j.s, StepsOf(j, act)) == Apply(j, act).s
  {
    match act
    case Serve(env, during) =>
      if Refills(j.c, env) {
        RefillIsSteps(j.s, env.client.qp, during);
        assert [B.Connect(env.client.qp)] + during + [] == [B.Connect(env.client.qp)] + during;
      } else if !env.waitFails && env.event.kind.Disconnected? {
        OneStep(j.s, B.Close(env.event.kind.qp));
      }
    case MakePeer(client, _, during) => RefillIsSteps(j.s, client.qp, during);
    case RemovePeer(qp) => OneStep(j.s, B.Close(qp));
    case Blocks(step) => OneStep(j.s, step);
  }

  /** Over every run, what becomes of the blocks is the run of exactly these block
      steps: a new client is connected, its refill runs, and it is closed if the
      accept fails; a disconnect and a removal close; the rest does nothing. So
      what was stranded is told by the clients closed and the posts refused. */
  lemma {:induction false} BlocksOfService(j: Service, acts: seq<Act>)
    requires Inv(j) && Run(j, acts)
    ensures var steps := BlockSteps(j, acts);
            && B.Run(j.s, steps) && B.End(j.s, steps) == End(j, acts).s
            && |End(j, acts).s.stranded| == |j.s.stranded| + B.ClosedWith(j.s, steps) + B.Refused(steps)
  {
    if acts == [] {
    } else {
      var front, last := acts[..|acts| - 1], acts[|acts| - 1];
      RunUnsnoc(j, acts);
      RunInv(j, front);
      BlocksOfService(j, front);
      ActIsSteps(End(j, front), last);
      B.RunAppend(j.s, BlockSteps(j, front), StepsOf(End(j, front), last));
    }
    B.StrandedExactly(j.s, BlockSteps(j, acts));
  }

  /** The calls of the controller in a run, as they stand. */
  function CallsOf(acts: seq<Act>): seq<R.Op> {
    if acts == [] then []
    else
      CallsOf(acts[..|acts| - 1])
      + match acts[|acts| - 1]
        case Serve(env, _) => [R.Serve(env)]
        case MakePeer(client, refill, _) => [R.MakePeer(Some(client), refill)]
        case RemovePeer(qp) => [R.RemovePeer(qp)]
        case Blocks(_) => []
  }

  /** And what becomes of the controller is a run of its calls alone. */
  lemma {:induction false} ControlOfService(j: Service, acts: seq<Act>)
    requires Init(j) && Run(j, acts)
    ensures End(j, acts).c == R.After(CallsOf(acts))
  {
    if acts == [] {
    } else {
      var front, last := acts[..|acts| - 1], acts[|acts| - 1];
      RunUnsnoc(j, acts);
      ControlOfService(j, front);
      var before, calls := CallsOf(front), CallsOf(acts);
      if last.Blocks? {
        assert before + [] == before;
      } else {
        assert calls[..|calls| - 1] == before;
      }
    }
  }

  // --------------------------------------------------- when a request is served

  /** An undisturbed refill for a new client can return exactly when the free
      blocks cover its full complement and what the other clients miss. */
  lemma ServedExactly(s: B.System, qp: Qp, others: seq<Qp>)
    requires qp !in s.waiting && B.Lists(others, s.waiting)
    ensures (exists during :: B.PostsOnly(during) && RefillOf(Connected(s, qp), during, Preposts.Returns))
            <==> B.PREPOSTS + B.Missing(s.waiting, others) <= |s.small.free|
  {
    var s', qps := Connected(s, qp), others + [qp];
    assert qps[..|others|] == others && qps[|others|] == qp;
    MissingElsewhere(s.waiting, others, qp);
    assert B.Lists(qps, s'.waiting);
    B.RefillExact(s', qps);
    forall during | B.Run(s', during) && B.PostsOnly(during)
      ensures RefillOf(s', during, Preposts.Returns) <==> B.AllFull(B.End(s', during))
    {
      PostsFill(s', during);
    }
  }

  /** The receives missing are the deficits the refill loop sees. */
  lemma {:induction false} MissingIsDeficit(waiting: map<Qp, nat>, qps: seq<Qp>)
    requires forall i :: 0 <= i < |qps| ==> qps[i] in waiting && waiting[qps[i]] < UINT32
    ensures B.Missing(waiting, qps)
            == Preposts.TotalDeficit(seq(|qps|, i requires 0 <= i < |qps| => waiting[qps[i]]), B.PREPOSTS)
  {
    if qps == [] {
    } else {
      var ws := seq(|qps|, i requires 0 <= i < |qps| => waiting[qps[i]]);
      var before := qps[..|qps| - 1];
      MissingIsDeficit(waiting, before);
      assert ws[..|qps| - 1] == seq(|before|, i requires 0 <= i < |before| => waiting[before[i]]);
    }
  }

  lemma {:induction false} MissingElsewhere(waiting: map<Qp, nat>, qps: seq<Qp>, qp: Qp)
    requires qp !in qps
    ensures B.Missing(waiting[qp := 0], qps) == B.Missing(waiting, qps)
  {
    if qps == [] {
    } else {
      MissingElsewhere(waiting, qps[..|qps| - 1], qp);
    }
  }

  /** With posts only, a client once full stays full. */
  lemma PostsFill(s: B.System, during: seq<B.Step>)
    requires B.Run(s, during) && B.PostsOnly(during)
    ensures RefillOf(s, during, Preposts.Returns) <==> B.AllFull(B.End(s, during))
  {
    var e := B.End(s, during);
    assert during[..|during|] == during;
    PostsGrow(s, during, 0);
    forall qp | qp in s.waiting ensures SeenFull(s, during, qp) <==> e.waiting[qp] >= B.PREPOSTS {
      if k :| 0 <= k <= |during| && FullAt(s, during, k, qp) {
        PostsGrow(s, during, k);
      }
      if e.waiting[qp] >= B.PREPOSTS {
        assert FullAt(s, during, |during|, qp);
      }
    }
  }

  lemma {:induction false} PostsGrow(s: B.System, steps: seq<B.Step>, k: nat)
    requires B.Run(s, steps) && B.PostsOnly(steps) && k <= |steps|
    ensures B.Run(s, steps[..k])
    ensures var m, e := B.End(s, steps[..k]).waiting, B.End(s, steps).waiting;
            m.Keys == e.Keys == s.waiting.Keys && forall qp :: qp in m ==> m[qp] <= e[qp]
    decreases |steps|
  {
    if steps == [] {
    } else {
      var s' := B.Apply(s, steps[0]);
      if k == 0 {
        PostsGrow(s', steps[1..], 0);
        assert steps[1..][..0] == [];
      } else {
        PostsGrow(s', steps[1..], k - 1);
        assert steps[..k][1..] == steps[1..][..k - 1];
      }
    }
  }

  // ------------------------------------------------------------- a dry server

  ghost predicate Dry(j: Service) {
    Inv(j) && j.s.stranded == j.s.small.blocks
  }

  predicate IsRequest(act: Act) {
    act.Serve? && !act.env.waitFails && act.env.event.kind.ConnectRequest?
  }

  lemma StaysDry(j: Service, act: Act)
    requires Dry(j) && Enabled(j, act)
    ensures Dry(Apply(j, act))
  {
    StepInv(j, act);
    B.Sizes(Apply(j, act).s);
    SubsetSize(j.s.stranded, Apply(j, act).s.stranded);
    SubsetSize(Apply(j, act).s.stranded, Apply(j, act).s.small.blocks);
  }

  /** No thread can do anything with the blocks any more. */
  lemma DryBlocksRest(s: B.System, step: B.Step)
    requires B.Inv(s) && s.stranded == s.small.blocks && OnBlocks(step)
    ensures !B.Enabled(s, step)
  {
    B.DryForEver(s, []);
  }

  /** So a refill that includes a new client neither returns nor throws. */
  lemma DryRefillGoesOn(s: B.System, qp: Qp, during: seq<B.Step>, end: Preposts.Ending)
    requires B.Inv(s) && s.stranded == s.small.blocks && qp !in s.waiting
    requires RefillOf(Connected(s, qp), during, end)
    ensures end.Loops? && during == []
  {
    var s' := Connected(s, qp);
    ConnectedKept(s, qp);
    if during != [] {
      DryBlocksRest(s', during[0]);
    }
    assert qp in s'.waiting && s'.waiting[qp] == 0;
  }

  /** One event at a dry server: a request is neither accepted nor acknowledged,
      and if its client can be made at all, it is the last event ever handled. */
  lemma DryRequest(j: Service, act: Act)
    requires Dry(j) && Enabled(j, act)
    ensures var j' := Apply(j, act);
            && j'.c.log.accepted == j.c.log.accepted
            && (IsRequest(act) ==>
                  && j'.c.log.acked == j.c.log.acked && j'.c.slot == Some(act.env.event)
                  && (Refills(j.c, act.env) ==> j'.c.status == Refilling))
  {
    if act.Serve? && Refills(j.c, act.env) {
      DryRefillGoesOn(j.s, act.env.client.qp, act.during, act.env.refill);
    }
  }

  /** Over every run from a dry server, no connection request is accepted and
      none is acknowledged. */
  lemma {:induction false} DryServerAnswersNoOne(j: Service, acts: seq<Act>)
    requires Dry(j) && Run(j, acts)
    ensures Dry(End(j, acts)) && End(j, acts).c.log.accepted == j.c.log.accepted
    ensures forall i :: 0 <= i < |acts| && IsRequest(acts[i]) ==> Unanswered(j, acts, i)
  {
    if acts == [] {
    } else {
      var last := |acts| - 1;
      DryServerAnswersNoOne(j, acts[..last]);
      DryRequest(End(j, acts[..last]), acts[last]);
      StaysDry(End(j, acts[..last]), acts[last]);
      assert acts[..last + 1] == acts;
      forall i | 0 <= i < |acts| && IsRequest(acts[i]) ensures Unanswered(j, acts, i) {
        if i < last {
          UnansweredLonger(j, acts, i);
        }
      }
    }
  }

  /** The act at place `i` acknowledges nothing and accepts no one. */
  ghost predicate Unanswered(j: Service, acts: seq<Act>, i: nat)
    requires i < |acts|
  {
    && Run(j, acts[..i]) && Run(j, acts[..i + 1])
    && End(j, acts[..i + 1]).c.log.acked == End(j, acts[..i]).c.log.acked
    && End(j, acts[..i + 1]).c.log.accepted == End(j, acts[..i]).c.log.accepted
  }

  lemma UnansweredLonger(j: Service, acts: seq<Act>, i: nat)
    requires i < |acts| - 1 && Unanswered(j, acts[..|acts| - 1], i)
    ensures Unanswered(j, acts, i)
  {
    assert acts[..|acts| - 1][..i] == acts[..i] && acts[..|acts| - 1][..i + 1] == acts[..i + 1];
  }

  // ------------------------------------------------------------ silent peers

  function Request(id: nat, client: Client): Env {
    Env(false, Event(id, ConnectRequest), false, false, false, client, Preposts.Returns, false, false, false)
  }

  function Goodbye(id: nat, client: Client): Env {
    Env(false, Event(id, Disconnected(client.qp)), false, false, false, client, Preposts.Returns, false, false, false)
  }

  ghost predicate Idle(j: Service) {
    Inv(j) && j.c.status.Serving? && j.c.clients == map[]
  }

  lemma RequestServed(c: Control, client: Client, id: nat)
    requires c.status.Serving? && c.clients == map[]
    ensures Refills(c, Request(id, client))
    ensures Handle(c, Request(id, client))
            == Control(map[client.qp := client], None,
                       c.log.(fetched := c.log.fetched + [id], acked := c.log.acked + [id],
                              accepted := c.log.accepted + [(id, client)]), Serving)
  {
  }

  /** A refill of one new client, all else being quiet. */
  lemma QuietRefill(s: B.System, qp: Qp) returns (during: seq<B.Step>)
    requires B.Inv(s) && s.waiting == map[] && |s.small.free| >= B.PREPOSTS
    ensures RefillOf(Connected(s, qp), during, Preposts.Returns)
    ensures var e := B.End(Connected(s, qp), during);
            && e.waiting == map[qp := B.PREPOSTS] && e.stranded == s.stranded
            && e.small.blocks == s.small.blocks && |e.small.free| == |s.small.free| - B.PREPOSTS
  {
    var s0 := Connected(s, qp);
    during := B.RefillIsPosts(s0, qp, B.PREPOSTS);
    PostsFill(s0, during);
  }

  /** A client connects and is accepted: a full complement is posted for it. */
  lemma PeerJoins(j: Service, client: Client, id: nat) returns (act: Act)
    requires Idle(j) && |j.s.small.free| >= B.PREPOSTS
    ensures Enabled(j, act)
    ensures var e := Apply(j, act);
            && Inv(e) && e.c.status.Serving? && e.c.clients == map[client.qp := client]
            && e.c.log.accepted == j.c.log.accepted + [(id, client)] && e.c.log.acked == j.c.log.acked + [id]
            && e.s.waiting == map[client.qp := B.PREPOSTS] && e.s.small.blocks == j.s.small.blocks
            && |e.s.small.free| == |j.s.small.free| - B.PREPOSTS && |e.s.stranded| == |j.s.stranded|
  {
    assert j.s.waiting.Keys == {};
    assert j.s.waiting == map[];
    var during := QuietRefill(j.s, client.qp);
    RequestServed(j.c, client, id);
    act := Serve(Request(id, client), during);
    ServeKept(j, Request(id, client), during);
  }

  /** It disconnects without having sent anything: its blocks are gone. */
  lemma PeerLeaves(j: Service, client: Client, id: nat) returns (act: Act)
    requires Inv(j) && j.c.status.Serving? && j.c.clients == map[client.qp := client] && client.qp in j.s.waiting
    ensures Enabled(j, act)
    ensures var e := Apply(j, act);
            && Idle(e) && e.s.small == j.s.small
            && e.c.log.accepted == j.c.log.accepted && e.c.log.acked == j.c.log.acked + [id]
            && |e.s.stranded| == |j.s.stranded| + j.s.waiting[client.qp]
  {
    act := Serve(Goodbye(id, client), []);
    ServeKept(j, Goodbye(id, client), []);
    ClosedKept(j.s, client.qp);
  }

  lemma SilentPeer(j: Service, client: Client, id: nat) returns (acts: seq<Act>)
    requires Idle(j) && |j.s.small.free| >= B.PREPOSTS
    ensures Run(j, acts)
    ensures var e := End(j, acts);
            && Idle(e) && e.s.small.blocks == j.s.small.blocks
            && |e.s.small.free| == |j.s.small.free| - B.PREPOSTS && |e.s.stranded| == |j.s.stranded| + B.PREPOSTS
            && e.c.log.accepted == j.c.log.accepted + [(id, client)] && e.c.log.acked == j.c.log.acked + [id] + [id + 1]
  {
    var first := PeerJoins(j, client, id);
    var second := PeerLeaves(Apply(j, first), client, id + 1);
    acts := [first, second];
    TwoActs(j, first, second);
  }

  lemma RunSnoc(j: Service, acts: seq<Act>, a: Act)
    requires Run(j, acts) && Enabled(End(j, acts), a)
    ensures Run(j, acts + [a]) && End(j, acts + [a]) == Apply(End(j, acts), a)
  {
    assert (acts + [a])[..|acts|] == acts;
  }

  lemma RunUnsnoc(j: Service, acts: seq<Act>)
    requires Run(j, acts) && acts != []
    ensures var front, last := acts[..|acts| - 1], acts[|acts| - 1];
            Run(j, front) && Enabled(End(j, front), last) && End(j, acts) == Apply(End(j, front), last)
  {
  }

  lemma TwoActs(j: Service, a: Act, b: Act)
    requires Enabled(j, a) && Enabled(Apply(j, a), b)
    ensures Run(j, [a, b]) && End(j, [a, b]) == Apply(Apply(j, a), b)
  {
    RunSnoc(j, [], a);
    assert [] + [a] == [a];
    RunSnoc(j, [a], b);
    assert [a] + [b] == [a, b];
  }

  lemma {:induction false} RunAppend(j: Service, a: seq<Act>, b: seq<Act>)
    requires Run(j, a) && Run(End(j, a), b)
    ensures Run(j, a + b) && End(j, a + b) == End(End(j, a), b)
    decreases |b|
  {
    if b == [] {
      assert a + b == a;
    } else {
      var front, last := b[..|b| - 1], b[|b| - 1];
      RunUnsnoc(End(j, a), b);
      RunAppend(j, a, front);
      RunSnoc(j, a + front, last);
      assert a + b == a + front + [last];
    }
  }

  /** Two such clients, one after the other, and a server with 64 small blocks
      will never again accept a connection or acknowledge a request for one. */
  lemma TwoSilentPeersSilenceTheServer(j: Service, a: Client, b: Client, id: nat) returns (acts: seq<Act>)
    requires Init(j) && |j.s.small.blocks| == 64
    ensures Run(j, acts) && End(j, acts).c.log.acked == [id, id + 1, id + 2, id + 3]
    ensures End(j, acts).c.log.accepted == [(id, a), (id + 2, b)] && End(j, acts).c.clients == map[]
    ensures forall later, i :: Run(End(j, acts), later) && 0 <= i < |later| && IsRequest(later[i]) ==>
              Unanswered(End(j, acts), later, i)
              && End(End(j, acts), later).c.log.accepted == End(j, acts).c.log.accepted
  {
    acts := TwoSilentPeers(j, a, b, id);
    AnswersNoOne(End(j, acts));
  }

  lemma TwoSilentPeers(j: Service, a: Client, b: Client, id: nat) returns (acts: seq<Act>)
    requires Init(j) && |j.s.small.blocks| == 64
    ensures Run(j, acts) && Dry(End(j, acts)) && End(j, acts).c.clients == map[]
    ensures End(j, acts).c.log.acked == [id, id + 1, id + 2, id + 3]
    ensures End(j, acts).c.log.accepted == [(id, a), (id + 2, b)]
  {
    InitInv(j);
    var first := SilentPeer(j, a, id);
    var m := End(j, first);
    assert m.c.log.acked == [id, id + 1] && m.c.log.accepted == [(id, a)];
    var second := SilentPeer(m, b, id + 2);
    acts := first + second;
    RunAppend(j, first, second);
    AllStranded(End(m, second).s);
  }

  lemma AllStranded(s: B.System)
    requires B.Inv(s) && |s.stranded| >= |s.small.blocks|
    ensures s.stranded == s.small.blocks
  {
    B.Sizes(s);
    SubsetSize(s.stranded, s.small.blocks);
  }

  lemma AnswersNoOne(e: Service)
    requires Dry(e)
    ensures forall later, i :: Run(e, later) && 0 <= i < |later| && IsRequest(later[i]) ==>
              Unanswered(e, later, i) && End(e, later).c.log.accepted == e.c.log.accepted
  {
    forall later, i | Run(e, later) && 0 <= i < |later| && IsRequest(later[i])
      ensures Unanswered(e, later, i) && End(e, later).c.log.accepted == e.c.log.accepted
    {
      DryServerAnswersNoOne(e, later);
    }
  }
}
