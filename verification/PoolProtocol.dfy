/** N threads in `push` and `pop` of one pool_container. Every step is one
    thread taking or releasing the mutex, running one critical section, being
    put to sleep by the condition variable, or being woken by it. As in C++11
    clause 30.5, waiting releases the mutex and blocks in one step, notify_one
    unblocks some blocked thread if there is one, a blocked thread may also
    wake for no reason, and a woken thread must take the mutex again and test
    the predicate again. notify_one comes after the unlock, as a step of its own. */
module PoolProtocol {
  import opened Collections
  import opened Regions
  import opened PoolContainers

  type Tid = nat

  /** Where a thread stands. Between its calls it is `Idle`. Threads are numbered. */
  datatype PC =
    | Idle
    | PopEntry                      // called pop, has not got the mutex yet
    | Asleep                        // blocked on the condition variable
    | Waking                        // unblocked, has not got the mutex back yet
    | PopLocked                     // holds the mutex, about to test the predicate
    | PushEntry(block: Region)      // called push, has not got the mutex yet
    | PushLocked(block: Region)     // holds the mutex, block not yet stored
    | PushStored                    // holds the mutex, block stored
    | Notifying                     // released the mutex, notify_one still to come

  /** `held` says which thread has been handed which block. */
  datatype State = State(pool: Pool, owner: Option<Tid>, pc: seq<PC>, held: set<(Tid, Region)>)

  datatype Step =
    | CallPop(t: Tid)
    | CallPush(t: Tid, block: Region)
    | Lock(t: Tid)
    | TestAndTake(t: Tid)
    | Store(t: Tid)
    | Unlock(t: Tid)
    | Notify(t: Tid, woken: Option<Tid>)
    | WakeSpuriously(t: Tid)
    | HandOver(t: Tid, to: Tid, block: Region)

  predicate At(s: State, t: Tid, p: PC) {
    t < |s.pc| && s.pc[t] == p
  }

  predicate InSection(p: PC) {
    p.PopLocked? || p.PushLocked? || p.PushStored?
  }

  /** A caller may push only a block it holds; nothing else is asked of callers. */
  ghost predicate Enabled(s: State, step: Step) {
    match step
    case CallPop(t) => At(s, t, Idle)
    case CallPush(t, b) => At(s, t, Idle) && (t, b) in s.held
    case Lock(t) => t < |s.pc| && s.owner == None && (s.pc[t].PopEntry? || s.pc[t].Waking? || s.pc[t].PushEntry?)
    case TestAndTake(t) => At(s, t, PopLocked)
    case Store(t) => t < |s.pc| && s.pc[t].PushLocked?
    case Unlock(t) => At(s, t, PushStored)
    case Notify(t, woken) =>
      && At(s, t, Notifying)
      && (match woken
          case Some(w) => At(s, w, Asleep)
          case None => forall w: Tid :: !At(s, w, Asleep))
    case WakeSpuriously(t) => At(s, t, Asleep)
    case HandOver(t, to, b) => At(s, t, Idle) && to < |s.pc| && (t, b) in s.held
  }

  function Apply(s: State, step: Step): State
    requires Enabled(s, step)
  {
    match step
    case CallPop(t) => s.(pc := s.pc[t := PopEntry])
    case CallPush(t, b) => s.(pc := s.pc[t := PushEntry(b)])
    case Lock(t) =>
      s.(owner := Some(t),
         pc := s.pc[t := if s.pc[t].PushEntry? then PushLocked(s.pc[t].block) else PopLocked])
    case TestAndTake(t) =>
      if s.pool.free == [] then
        s.(owner := None, pc := s.pc[t := Asleep])
      else
        s.(pool := Popped(s.pool), owner := None, pc := s.pc[t := Idle],
           held := s.held + {(t, Top(s.pool))})
    case Store(t) =>
      s.(pool := Pushed(s.pool, s.pc[t].block), pc := s.pc[t := PushStored],
         held := s.held - {(t, s.pc[t].block)})
    case Unlock(t) => s.(owner := None, pc := s.pc[t := Notifying])
    case Notify(t, woken) =>
      s.(pc := if woken.Some? then s.pc[woken.value := Waking][t := Idle] else s.pc[t := Idle])
    case WakeSpuriously(t) => s.(pc := s.pc[t := Waking])
    case HandOver(t, to, b) => s.(held := s.held - {(t, b)} + {(to, b)})
  }

  /** A successful AllocatePool has just returned and no thread is in the pool. */
  ghost predicate Init(s: State) {
    && Balanced(s.pool) && Quiescent(s.pool) && |s.pool.blocks| <= s.pool.maxChunks
    && s.owner == None && s.held == {}
    && (forall t :: 0 <= t < |s.pc| ==> s.pc[t] == Idle)
  }

  ghost predicate Run(s: State, steps: seq<Step>)
    decreases |steps|
  {
    steps == [] || (Enabled(s, steps[0]) && Run(Apply(s, steps[0]), steps[1..]))
  }

  ghost function End(s: State, steps: seq<Step>): State
    requires Run(s, steps)
    decreases |steps|
  {
    if steps == [] then s else End(Apply(s, steps[0]), steps[1..])
  }

  // ---------------------------------------------------------------- counting

  datatype Kind = KIdle | KPopEntry | KAsleep | KWaking | KPopLocked
    | KPushEntry | KPushLocked | KPushStored | KNotifying

  function KindOf(p: PC): Kind {
    match p
    case Idle => KIdle
    case PopEntry => KPopEntry
    case Asleep => KAsleep
    case Waking => KWaking
    case PopLocked => KPopLocked
    case PushEntry(_) => KPushEntry
    case PushLocked(_) => KPushLocked
    case PushStored => KPushStored
    case Notifying => KNotifying
  }

  function Count(pc: seq<PC>, k: Kind): nat {
    if pc == [] then 0
    else Count(pc[..|pc| - 1], k) + One(KindOf(pc[|pc| - 1]) == k)
  }

  function One(b: bool): nat {
    if b then 1 else 0
  }

  /** Moving one thread changes two counts by one, or none. */
  lemma {:induction false} CountMove(pc: seq<PC>, t: Tid, p: PC, k: Kind)
    requires t < |pc|
    ensures Count(pc[t := p], k) == Count(pc, k) - One(KindOf(pc[t]) == k) + One(KindOf(p) == k)
  {
    var last := |pc| - 1;
    if t == last {
      assert pc[t := p][..last] == pc[..last];
    } else {
      assert pc[t := p][..last] == pc[..last][t := p];
      CountMove(pc[..last], t, p, k);
    }
  }

  lemma {:induction false} CountZero(pc: seq<PC>, k: Kind)
    ensures Count(pc, k) == 0 <==> forall t :: 0 <= t < |pc| ==> KindOf(pc[t]) != k
  {
    if pc == [] {
    } else {
      var last := |pc| - 1;
      CountZero(pc[..last], k);
      assert forall t :: 0 <= t < last ==> pc[..last][t] == pc[t];
    }
  }

  // -------------------------------------------------------------- invariants

  /** The mutex excludes: its owner is the one thread inside a critical section. */
  ghost predicate Exclusive(s: State) {
    && (s.owner.Some? ==> s.owner.value < |s.pc| && InSection(s.pc[s.owner.value]))
    && (forall t :: 0 <= t < |s.pc| && InSection(s.pc[t]) ==> s.owner == Some(t))
  }

  /** Every block is on the free list once or with one holder, never both; the
      use count is the number of blocks held. */
  ghost predicate Owned(s: State) {
    && Balanced(s.pool)
    && |s.pool.blocks| <= s.pool.maxChunks
    && s.pool.useCount == |s.held|
    && (forall t, b :: (t, b) in s.held ==> t < |s.pc| && b in s.pool.blocks && b !in s.pool.free)
    && (forall t, u, b :: (t, b) in s.held && (u, b) in s.held ==> t == u)
    && (forall b :: b in s.pool.blocks && b !in s.pool.free ==> exists t :: (t, b) in s.held)
    && (forall t :: 0 <= t < |s.pc| && (s.pc[t].PushEntry? || s.pc[t].PushLocked?) ==> (t, s.pc[t].block) in s.held)
  }

  /** Wake-ups still on their way: threads that will test the predicate again,
      and pushers that will notify. */
  predicate Pledge(p: PC) {
    p.Waking? || p.PopLocked? || p.PushStored? || p.Notifying?
  }

  function Promised(pc: seq<PC>): nat {
    Count(pc, KWaking) + Count(pc, KPopLocked) + Count(pc, KPushStored) + Count(pc, KNotifying)
  }

  ghost predicate Promising(s: State) {
    Count(s.pc, KAsleep) > 0 ==> |s.pool.free| <= Promised(s.pc)
  }

  lemma PromisedMove(pc: seq<PC>, t: Tid, p: PC)
    requires t < |pc|
    ensures Promised(pc[t := p]) == Promised(pc) - One(Pledge(pc[t])) + One(Pledge(p))
  {
    CountMove(pc, t, p, KWaking);
    CountMove(pc, t, p, KPopLocked);
    CountMove(pc, t, p, KPushStored);
    CountMove(pc, t, p, KNotifying);
  }

  ghost predicate Inv(s: State) {
    Exclusive(s) && Owned(s) && Promising(s)
  }

  lemma InitInv(s: State)
    requires Init(s)
    ensures Inv(s)
  {
    CountZero(s.pc, KAsleep);
    DistinctSize(s.pool.free);
    SubsetSize(Elements(s.pool.free), s.pool.blocks);
  }

  lemma ExclusiveStep(s: State, step: Step)
    requires Exclusive(s) && Enabled(s, step)
    ensures Exclusive(Apply(s, step))
  {
  }

  /** The bound survives moving one thread when blocks and wake-ups on their
      way keep in step, and only an empty list puts a thread to sleep. */
  lemma PromisingMove(s: State, s': State, t: Tid, p: PC)
    requires Promising(s) && t < |s.pc| && s'.pc == s.pc[t := p]
    requires s'.pool.free == []
             || (!p.Asleep? && |s'.pool.free| + One(Pledge(s.pc[t])) <= |s.pool.free| + One(Pledge(p)))
    ensures Promising(s')
  {
    CountMove(s.pc, t, p, KAsleep);
    PromisedMove(s.pc, t, p);
  }

  lemma PromisingNotify(s: State, t: Tid, w: Tid)
    requires Promising(s) && At(s, t, Notifying) && At(s, w, Asleep)
    ensures Promising(s.(pc := s.pc[w := Waking][t := Idle]))
  {
    CountZero(s.pc, KAsleep);
    PromisedMove(s.pc, w, Waking);
    PromisedMove(s.pc[w := Waking], t, Idle);
  }

  lemma PromisingStep(s: State, step: Step)
    requires Promising(s) && Enabled(s, step)
    ensures Promising(Apply(s, step))
  {
    if step.Notify? {
      match step.woken
      case Some(w) => PromisingNotify(s, step.t, w);
      case None =>
        forall u | 0 <= u < |s.pc| ensures KindOf(s.pc[u]) != KAsleep {
          assert !At(s, u, Asleep);
        }
        CountZero(Apply(s, step).pc, KAsleep);
    } else if !step.HandOver? {
      PromisingMove(s, Apply(s, step), step.t, Apply(s, step).pc[step.t]);
    }
  }

  lemma OwnedStep(s: State, step: Step)
    requires Exclusive(s) && Owned(s) && Enabled(s, step)
    ensures Owned(Apply(s, step))
  {
    match step
    case TestAndTake(t) => if s.pool.free != [] { OwnedTake(s, t); }
    case Store(t) => OwnedStore(s, t);
    case HandOver(t, to, b) => OwnedHandOver(s, t, to, b);
    case _ =>
      assert Apply(s, step).held == s.held && Apply(s, step).pool == s.pool;
  }

  lemma OwnedTake(s: State, t: Tid)
    requires Owned(s) && Enabled(s, TestAndTake(t)) && s.pool.free != []
    ensures Owned(Apply(s, TestAndTake(t)))
  {
    var s' := Apply(s, TestAndTake(t));
    var b := Top(s.pool);
    assert s.pool.free == s'.pool.free + [b];
    assert b !in s'.pool.free;
    assert (t, b) !in s.held;
    assert forall x :: x in s.pool.free <==> x in s'.pool.free || x == b;
    assert forall u, x :: (u, x) in s'.held <==> (u, x) in s.held || (u == t && x == b);
    forall x | x in s'.pool.blocks && x !in s'.pool.free ensures exists u :: (u, x) in s'.held {
      if x == b {
        assert (t, x) in s'.held;
      } else {
        var u :| (u, x) in s.held;
        assert (u, x) in s'.held;
      }
    }
  }

  lemma OwnedStore(s: State, t: Tid)
    requires Exclusive(s) && Owned(s) && Enabled(s, Store(t))
    ensures Owned(Apply(s, Store(t)))
  {
    var s' := Apply(s, Store(t));
    var b := s.pc[t].block;
    assert (t, b) in s.held;
    assert s'.held + {(t, b)} == s.held;
    assert forall x :: x in s'.pool.free <==> x in s.pool.free || x == b;
    forall x | x in s'.pool.blocks && x !in s'.pool.free ensures exists u :: (u, x) in s'.held {
      var u :| (u, x) in s.held;
      assert (u, x) in s'.held;
    }
  }

  lemma OwnedHandOver(s: State, t: Tid, to: Tid, b: Region)
    requires Owned(s) && Enabled(s, HandOver(t, to, b))
    ensures Owned(Apply(s, HandOver(t, to, b)))
  {
    var s' := Apply(s, HandOver(t, to, b));
    if t == to {
      assert s'.held == s.held;
    } else {
      assert (to, b) !in s.held;
      assert s'.held == (s.held - {(t, b)}) + {(to, b)};
    }
    forall x | x in s'.pool.blocks && x !in s'.pool.free ensures exists u :: (u, x) in s'.held {
      var u :| (u, x) in s.held;
      assert (u, x) in s'.held || (to, x) in s'.held;
    }
  }

  lemma {:induction false} RunInv(s: State, steps: seq<Step>)
    requires Inv(s) && Run(s, steps)
    ensures Inv(End(s, steps))
    ensures End(s, steps).pool.blocks == s.pool.blocks && End(s, steps).pool.maxChunks == s.pool.maxChunks
    decreases |steps|
  {
    if steps == [] {
    } else {
      ExclusiveStep(s, steps[0]);
      OwnedStep(s, steps[0]);
      PromisingStep(s, steps[0]);
      RunInv(Apply(s, steps[0]), steps[1..]);
    }
  }

  // ------------------------------------------------------------ main results

  lemma PromiseKept(s: State, t: Tid)
    requires Inv(s) && At(s, t, Asleep)
    ensures |s.pool.free| <= Promised(s.pc)
    ensures s.owner == None ==> |s.pool.free| <= Count(s.pc, KWaking) + Count(s.pc, KNotifying)
  {
    assert KindOf(s.pc[t]) == KAsleep;
    CountZero(s.pc, KAsleep);
    CountZero(s.pc, KPopLocked);
    CountZero(s.pc, KPushStored);
  }

  /** While some thread sleeps in `pop`, the free blocks never outnumber the
      wake-ups still on their way. With the mutex free these are the waiters
      woken but not resumed and the pushers between unlock and notify. */
  lemma NoLostWakeup(s0: State, steps: seq<Step>)
    requires Init(s0) && Run(s0, steps)
    ensures var s := End(s0, steps);
            (exists t: Tid :: At(s, t, Asleep)) ==>
              && |s.pool.free| <= Promised(s.pc)
              && (s.owner == None ==> |s.pool.free| <= Count(s.pc, KWaking) + Count(s.pc, KNotifying))
  {
    InitInv(s0);
    RunInv(s0, steps);
    var s := End(s0, steps);
    if t: Tid :| At(s, t, Asleep) {
      PromiseKept(s, t);
    }
  }

  /** However N threads interleave, as long as each pushes only what it holds:
      the free list repeats nothing and stays within the pool, no block has two
      holders or is both held and free, the count is the number held, the pool
      neither grows nor shrinks, and the push of a block already free, which
      would end the process, does not occur. */
  lemma ExclusiveOwnership(s0: State, steps: seq<Step>)
    requires Init(s0) && Run(s0, steps)
    ensures var s := End(s0, steps);
            && Distinct(s.pool.free) && Elements(s.pool.free) <= s.pool.blocks
            && |s.pool.free| + s.pool.useCount == |s.pool.blocks|
            && s.pool.useCount == |s.held|
            && (forall t, u, b :: (t, b) in s.held && (u, b) in s.held ==> t == u)
            && (forall t, b :: (t, b) in s.held ==> b in s.pool.blocks && b !in s.pool.free)
            && (forall b :: b in s0.pool.blocks ==> b in s.pool.free || exists t :: (t, b) in s.held)
            && s.pool.blocks == s0.pool.blocks && |s.pool.blocks| <= s.pool.maxChunks
            && (forall t :: 0 <= t < |s.pc| && s.pc[t].PushLocked? ==> s.pc[t].block !in s.pool.free)
            && (forall t, u :: 0 <= t < |s.pc| && 0 <= u < |s.pc| ==>
                  InSection(s.pc[t]) && InSection(s.pc[u]) ==> t == u)
  {
    InitInv(s0);
    RunInv(s0, steps);
  }

  /** Steps of calls already made: no new call, no spurious wake-up. */
  predicate Internal(step: Step) {
    step.Lock? || step.TestAndTake? || step.Store? || step.Unlock? || step.Notify?
  }

  /** An upper bound on the internal steps left: what each thread may still need. */
  function Work(pc: seq<PC>): nat {
    6 * Count(pc, KPushEntry) + 5 * Count(pc, KPushLocked) + 4 * Count(pc, KPushStored)
    + 3 * Count(pc, KNotifying) + 2 * Count(pc, KPopEntry) + 2 * Count(pc, KWaking)
    + Count(pc, KPopLocked)
  }

  function WorkOf(p: PC): nat {
    match p
    case PushEntry(_) => 6
    case PushLocked(_) => 5
    case PushStored => 4
    case Notifying => 3
    case PopEntry => 2
    case Waking => 2
    case PopLocked => 1
    case _ => 0
  }

  /** Pops not yet served, and blocks that are or will be there to serve them. */
  function Poppers(pc: seq<PC>): nat {
    Count(pc, KPopEntry) + Count(pc, KAsleep) + Count(pc, KWaking) + Count(pc, KPopLocked)
  }

  function Pushers(pc: seq<PC>): nat {
    Count(pc, KPushEntry) + Count(pc, KPushLocked)
  }

  function Demand(s: State): nat {
    Poppers(s.pc)
  }

  function Offer(s: State): nat {
    |s.pool.free| + Pushers(s.pc)
  }

  lemma WorkMove(pc: seq<PC>, t: Tid, p: PC)
    requires t < |pc|
    ensures Work(pc[t := p]) == Work(pc) - WorkOf(pc[t]) + WorkOf(p)
  {
    CountMove(pc, t, p, KPushEntry);
    CountMove(pc, t, p, KPushLocked);
    CountMove(pc, t, p, KPushStored);
    CountMove(pc, t, p, KNotifying);
    CountMove(pc, t, p, KPopEntry);
    CountMove(pc, t, p, KWaking);
    CountMove(pc, t, p, KPopLocked);
  }

  predicate Popping(p: PC) {
    p.PopEntry? || p.Asleep? || p.Waking? || p.PopLocked?
  }

  predicate Pushing(p: PC) {
    p.PushEntry? || p.PushLocked?
  }

  lemma PartiesMove(pc: seq<PC>, t: Tid, p: PC)
    requires t < |pc|
    ensures Poppers(pc[t := p]) == Poppers(pc) - One(Popping(pc[t])) + One(Popping(p))
    ensures Pushers(pc[t := p]) == Pushers(pc) - One(Pushing(pc[t])) + One(Pushing(p))
  {
    CountMove(pc, t, p, KPopEntry);
    CountMove(pc, t, p, KAsleep);
    CountMove(pc, t, p, KWaking);
    CountMove(pc, t, p, KPopLocked);
    CountMove(pc, t, p, KPushEntry);
    CountMove(pc, t, p, KPushLocked);
  }

  ghost predicate Settled(s: State) {
    forall step :: Enabled(s, step) ==> !Internal(step)
  }

  /** What moving one thread does to the work left and to the parties. */
  lemma Move(pc: seq<PC>, t: Tid, p: PC)
    requires t < |pc|
    ensures Work(pc[t := p]) == Work(pc) - WorkOf(pc[t]) + WorkOf(p)
    ensures Poppers(pc[t := p]) - Pushers(pc[t := p])
            == Poppers(pc) - Pushers(pc) - Stake(pc[t]) + Stake(p)
  {
    WorkMove(pc, t, p);
    PartiesMove(pc, t, p);
  }

  function Stake(p: PC): int {
    One(Popping(p)) - One(Pushing(p))
  }

  /** Each step takes work away and leaves the balance of demand and offer. */
  ghost predicate Settling(s: State, s': State) {
    Work(s'.pc) < Work(s.pc) && Demand(s') - Offer(s') == Demand(s) - Offer(s)
  }

  lemma SettlingMove(s: State, s': State, t: Tid, p: PC)
    requires t < |s.pc| && s'.pc == s.pc[t := p] && WorkOf(p) < WorkOf(s.pc[t])
    requires |s'.pool.free| - Stake(p) == |s.pool.free| - Stake(s.pc[t])
    ensures Settling(s, s')
  {
    Move(s.pc, t, p);
  }

  lemma SettlingNotify(s: State, m: State, s': State, t: Tid, w: Tid)
    requires At(s, t, Notifying) && At(s, w, Asleep)
    requires m == s.(pc := s.pc[w := Waking]) && s' == m.(pc := m.pc[t := Idle])
    ensures Settling(s, s')
  {
    Move(s.pc, w, Waking);
    Move(m.pc, t, Idle);
  }

  lemma InternalStep(s: State, step: Step)
    requires Enabled(s, step) && Internal(step)
    ensures Settling(s, Apply(s, step))
  {
    if step.Notify? && step.woken.Some? {
      SettlingNotify(s, s.(pc := s.pc[step.woken.value := Waking]), Apply(s, step), step.t, step.woken.value);
    } else {
      SettlingMove(s, Apply(s, step), step.t, Apply(s, step).pc[step.t]);
    }
  }

  /** What a run of `n` internal steps from `s` to `e` amounts to. */
  ghost predicate SettledBy(s: State, n: nat, e: State) {
    n + Work(e.pc) <= Work(s.pc) && Demand(e) - Offer(e) == Demand(s) - Offer(s)
  }

  lemma SettledByOneMore(s: State, s': State, n: nat, e: State)
    requires Settling(s, s') && SettledBy(s', n, e)
    ensures SettledBy(s, n + 1, e)
  {
  }

  lemma RunHead(s: State, steps: seq<Step>) returns (s': State)
    requires Run(s, steps) && steps != []
    ensures Enabled(s, steps[0]) && s' == Apply(s, steps[0])
    ensures Run(s', steps[1..]) && End(s, steps) == End(s', steps[1..])
  {
    s' := Apply(s, steps[0]);
  }

  lemma {:induction false} InternalRun(s: State, steps: seq<Step>)
    requires Run(s, steps) && forall i :: 0 <= i < |steps| ==> Internal(steps[i])
    ensures SettledBy(s, |steps|, End(s, steps))
    decreases |steps|
  {
    if steps == [] {
    } else {
      var s' := RunHead(s, steps);
      InternalStep(s, steps[0]);
      InternalRun(s', steps[1..]);
      SettledByOneMore(s, s', |steps| - 1, End(s', steps[1..]));
    }
  }

  /** Unless every thread is between calls or asleep, some thread can move. */
  lemma NotStuck(s: State)
    requires Exclusive(s) && Settled(s)
    ensures forall t :: 0 <= t < |s.pc| ==> s.pc[t].Idle? || s.pc[t].Asleep?
  {
    forall t | 0 <= t < |s.pc| ensures s.pc[t].Idle? || s.pc[t].Asleep? {
      if s.owner.Some? {
        var u := s.owner.value;
        var step := match s.pc[u]
          case PopLocked => TestAndTake(u)
          case PushLocked(_) => Store(u)
          case _ => Unlock(u);
        assert Enabled(s, step) && Internal(step);
      } else if s.pc[t].Notifying? {
        if w: Tid :| At(s, w, Asleep) {
          assert Enabled(s, Notify(t, Some(w)));
        } else {
          assert Enabled(s, Notify(t, None));
        }
      } else if !s.pc[t].Idle? && !s.pc[t].Asleep? {
        assert Enabled(s, Lock(t));
      }
    }
  }

  /** From any reachable state, whatever the scheduler does with the calls
      already made, they are over within `Work` steps; then a thread still
      asleep means an empty free list, and how many sleep and how many blocks
      are left does not depend on the schedule. */
  lemma EveryScheduleSettlesAlike(s0: State, history: seq<Step>, s: State, steps: seq<Step>, e: State)
    requires Init(s0) && Run(s0, history) && s == End(s0, history)
    requires Run(s, steps) && e == End(s, steps) && forall i :: 0 <= i < |steps| ==> Internal(steps[i])
    ensures |steps| <= Work(s.pc)
    ensures Settled(e) ==>
              && (forall t :: 0 <= t < |e.pc| ==> e.pc[t].Idle? || e.pc[t].Asleep?)
              && ((exists t: Tid :: At(e, t, Asleep)) ==> e.pool.free == [])
              && Count(e.pc, KAsleep) == (if Demand(s) > Offer(s) then Demand(s) - Offer(s) else 0)
              && |e.pool.free| == (if Offer(s) > Demand(s) then Offer(s) - Demand(s) else 0)
  {
    InitInv(s0);
    RunInv(s0, history);
    RunInv(s, steps);
    SettlesAlike(s, steps, e);
  }

  lemma SettlesAlike(s: State, steps: seq<Step>, e: State)
    requires Inv(e) && Run(s, steps) && e == End(s, steps)
    requires forall i :: 0 <= i < |steps| ==> Internal(steps[i])
    ensures |steps| <= Work(s.pc)
    ensures Settled(e) ==>
              && (forall t :: 0 <= t < |e.pc| ==> e.pc[t].Idle? || e.pc[t].Asleep?)
              && ((exists t: Tid :: At(e, t, Asleep)) ==> e.pool.free == [])
              && Count(e.pc, KAsleep) == (if Demand(s) > Offer(s) then Demand(s) - Offer(s) else 0)
              && |e.pool.free| == (if Offer(s) > Demand(s) then Offer(s) - Demand(s) else 0)
  {
    InternalRun(s, steps);
    if Settled(e) {
      SettledCounts(e);
    }
  }

  lemma SettledCounts(e: State)
    requires Inv(e) && Settled(e)
    ensures forall t :: 0 <= t < |e.pc| ==> e.pc[t].Idle? || e.pc[t].Asleep?
    ensures Demand(e) == Count(e.pc, KAsleep) && Offer(e) == |e.pool.free|
    ensures Count(e.pc, KAsleep) > 0 ==> e.pool.free == []
    ensures (exists t: Tid :: At(e, t, Asleep)) ==> Count(e.pc, KAsleep) > 0
  {
    NotStuck(e);
    forall k | k != KIdle && k != KAsleep ensures Count(e.pc, k) == 0 {
      CountZero(e.pc, k);
    }
    CountZero(e.pc, KAsleep);
    if t: Tid :| At(e, t, Asleep) {
      assert KindOf(e.pc[t]) == KAsleep;
    }
  }

  /** Such a run to the end always exists. */
  lemma {:induction false} SomeScheduleSettles(s: State) returns (steps: seq<Step>)
    ensures Run(s, steps) && (forall i :: 0 <= i < |steps| ==> Internal(steps[i])) && Settled(End(s, steps))
    decreases Work(s.pc)
  {
    steps := [];
    if step :| Enabled(s, step) && Internal(step) {
      InternalStep(s, step);
      var rest := SomeScheduleSettles(Apply(s, step));
      steps := RunCons(s, step, rest);
    }
  }

  /** A push, and a pop, by one thread while no other moves. */
  function PushSteps(t: Tid, b: Region): seq<Step> {
    [CallPush(t, b), Lock(t), Store(t), Unlock(t), Notify(t, None)]
  }

  function PopSteps(t: Tid): seq<Step> {
    [CallPop(t), Lock(t), TestAndTake(t)]
  }

  lemma PushAlone(s: State, t: Tid, b: Region)
    requires At(s, t, Idle) && (t, b) in s.held && s.owner == None && forall w: Tid :: !At(s, w, Asleep)
    ensures Run(s, PushSteps(t, b))
    ensures End(s, PushSteps(t, b)) == s.(pool := Pushed(s.pool, b), held := s.held - {(t, b)})
  {
    var s3 := s.(pc := s.pc[t := PushStored], owner := Some(t), pool := Pushed(s.pool, b), held := s.held - {(t, b)});
    var s4 := s3.(pc := s3.pc[t := Notifying], owner := None);
    assert forall w: Tid :: At(s4, w, Asleep) ==> At(s, w, Asleep);
    assert s4.pc[t := Idle] == s.pc;
    var run := RunCons(s4, Notify(t, None), []);
    run := RunCons(s3, Unlock(t), run);
    var s2 := s.(pc := s.pc[t := PushLocked(b)], owner := Some(t));
    assert s2.pc[t := PushStored] == s3.pc;
    run := RunCons(s2, Store(t), run);
    var s1 := s.(pc := s.pc[t := PushEntry(b)]);
    assert s1.pc[t := PushLocked(b)] == s2.pc;
    run := RunCons(s1, Lock(t), run);
    run := RunCons(s, CallPush(t, b), run);
    assert run == PushSteps(t, b);
  }

  lemma PopAlone(s: State, t: Tid)
    requires At(s, t, Idle) && s.owner == None && s.pool.free != []
    ensures Run(s, PopSteps(t))
    ensures End(s, PopSteps(t)) == s.(pool := Popped(s.pool), held := s.held + {(t, Top(s.pool))})
  {
    var s2 := s.(pc := s.pc[t := PopLocked], owner := Some(t));
    assert s2.pc[t := Idle] == s.pc;
    var run := RunCons(s2, TestAndTake(t), []);
    var s1 := s.(pc := s.pc[t := PopEntry]);
    assert s1.pc[t := PopLocked] == s2.pc;
    run := RunCons(s1, Lock(t), run);
    run := RunCons(s, CallPop(t), run);
    assert run == PopSteps(t);
  }

  lemma {:induction false} RunAppend(s: State, a: seq<Step>, b: seq<Step>)
    requires Run(s, a) && Run(End(s, a), b)
    ensures Run(s, a + b) && End(s, a + b) == End(End(s, a), b)
    decreases |a|
  {
    if a == [] {
      assert a + b == b;
    } else {
      RunAppend(Apply(s, a[0]), a[1..], b);
      assert (a + b)[1..] == a[1..] + b;
    }
  }

  /** An undisturbed pop undoes the push before it: the same block comes back
      and the whole state is as before. */
  lemma PopUndoesPush(s: State, t: Tid, b: Region)
    requires At(s, t, Idle) && (t, b) in s.held && s.owner == None && forall w: Tid :: !At(s, w, Asleep)
    ensures Run(s, PushSteps(t, b) + PopSteps(t)) && End(s, PushSteps(t, b) + PopSteps(t)) == s
  {
    PushAlone(s, t, b);
    var m := End(s, PushSteps(t, b));
    PopAlone(m, t);
    assert Popped(m.pool).free == s.pool.free;
    assert m.held + {(t, b)} == s.held;
    RunAppend(s, PushSteps(t, b), PopSteps(t));
  }

  lemma RunCons(s: State, step: Step, rest: seq<Step>) returns (run: seq<Step>)
    requires Enabled(s, step) && Run(Apply(s, step), rest)
    ensures run == [step] + rest && Run(s, run) && End(s, run) == End(Apply(s, step), rest)
  {
    run := [step] + rest;
    assert run[1..] == rest;
  }
}
