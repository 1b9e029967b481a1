/** RdmaConnectionBase and RdmaClient as far as receives go: a counter of
    waiting receives, blocks posted to the receive queue, and the loops that
    refill the queue of one client and of all. The refill loop has no way out
    when the pool is dry, so `budget` bounds its iterations from outside: the
    code goes on looping if every budget runs out. A post that the device
    refuses throws; `fault` says how many posts it accepts before that. */
module Preposts {
  import opened Collections
  import opened Regions
  import opened PoolContainers
  import opened MemoryPools

  const MAX_PREPOSTS: nat := 32
  const UINT64: nat := 0x1_0000_0000_0000_0000

  /** The pool after `k` pops, and the blocks popped, first one first. */
  function Dispensed(p: Pool, k: nat): Pool
    requires k <= |p.free|
  {
    p.(free := p.free[..|p.free| - k], useCount := p.useCount + k)
  }

  function Taken(p: Pool, k: nat): seq<Region>
    requires k <= |p.free|
  {
    seq(k, i requires 0 <= i < k => p.free[|p.free| - 1 - i])
  }

  /** What the counter shows once it is narrowed to 32 bits. */
  function NumReceives(waiting: nat): nat {
    waiting % UINT32
  }

  function Deficit(waiting: nat, preposts: nat): nat {
    if NumReceives(waiting) < preposts then preposts - NumReceives(waiting) else 0
  }

  function TotalDeficit(waits: seq<nat>, preposts: nat): nat {
    if waits == [] then 0
    else TotalDeficit(waits[..|waits| - 1], preposts) + Deficit(waits[|waits| - 1], preposts)
  }

  function Min(a: nat, b: nat): nat {
    if a < b then a else b
  }

  /** How a refill ends: with every deficit made up, with the exception of a
      refused post, or not within its budget. */
  datatype Ending = Returns | Throws | Loops

  function Ends(deficit: nat, free: nat, budget: nat, fault: Option<nat>): Ending {
    if deficit <= free && deficit <= budget && (fault.Some? ==> deficit <= fault.value) then Returns
    else if fault.Some? && fault.value < deficit && fault.value < free && fault.value < budget then Throws
    else Loops
  }

  /** The posts a refill makes that are accepted. */
  function Posts(deficit: nat, free: nat, budget: nat, fault: Option<nat>): (n: nat)
    ensures n <= deficit && n <= free && n <= budget
    ensures Ends(deficit, free, budget, fault).Returns? ==> n == deficit
    ensures Ends(deficit, free, budget, fault).Throws? ==> fault == Some(n) && n < deficit && n < free
  {
    var n := Min(deficit, Min(free, budget));
    if fault.Some? then Min(n, fault.value) else n
  }

  /** The blocks a refill pops: a refused post has popped its block already. */
  function Pops(deficit: nat, free: nat, budget: nat, fault: Option<nat>): (n: nat)
    ensures n <= free
  {
    Posts(deficit, free, budget, fault) + if Ends(deficit, free, budget, fault).Throws? then 1 else 0
  }

  /** The fault as it stands after `k` more accepted posts. */
  function Later(fault: Option<nat>, k: nat): Option<nat>
    requires fault.Some? ==> k <= fault.value
  {
    if fault.Some? then Some(fault.value - k) else None
  }

  class Connection {
    const pool: MemoryPool
    var waitingReceives: nat
    var receiveQueue: seq<Region>

    ghost predicate Valid() {
      pool.Valid()
    }

    constructor (pool: MemoryPool)
      ensures this.pool == pool && waitingReceives == 0 && receiveQueue == []
    {
      this.pool, waitingReceives, receiveQueue := pool, 0, [];
    }

    /** Unsigned 64-bit arithmetic: one receive too many taken off a zero
        counter makes it huge, and refilling believes it has plenty. */
    method PopReceive()
      requires waitingReceives < UINT64
      modifies this`waitingReceives
      ensures waitingReceives < UINT64
      ensures old(waitingReceives) > 0 ==> waitingReceives == old(waitingReceives) - 1
      ensures old(waitingReceives) == 0 ==>
                forall preposts :: 0 <= preposts < UINT32 ==> Deficit(waitingReceives, preposts) == 0
    {
      waitingReceives := (waitingReceives + UINT64 - 1) % UINT64;
    }

    method PushReceive()
      requires waitingReceives < UINT64
      modifies this`waitingReceives
      ensures waitingReceives == (old(waitingReceives) + 1) % UINT64
    {
      waitingReceives := (waitingReceives + 1) % UINT64;
    }

    /** Posting a receive and counting it; a refused post throws first. */
    method PostRecvRegionAsID(region: Region, accepted: bool) returns (thrown: bool)
      requires waitingReceives < UINT64
      modifies this
      ensures thrown <==> !accepted
      ensures thrown ==> receiveQueue == old(receiveQueue) && waitingReceives == old(waitingReceives)
      ensures !thrown ==>
                receiveQueue == old(receiveQueue) + [region] && waitingReceives == (old(waitingReceives) + 1) % UINT64
    {
      if !accepted {
        return true;
      }
      receiveQueue := receiveQueue + [region];
      PushReceive();
      return false;
    }

    method GetFreeRegion(size: nat) returns (region: Region)
      requires Valid() && CanAllocate(pool.View(), size) && Route(pool.View(), size).Some?
      modifies pool`tempRegions, pool.small, pool.medium, pool.large
      ensures region == Issued(old(pool.View()), size, Handle(0, 0))
      ensures pool.View() == Allocated(old(pool.View()), size)
    {
      region := pool.AllocateRegion(size, Handle(0, 0));
    }

    method RefillPreposts(preposts: nat, budget: nat, fault: Option<nat>) returns (end: Ending, left: nat)
      requires Valid() && waitingReceives < UINT64 && preposts < UINT32
      modifies this, pool`tempRegions, pool.small, pool.medium, pool.large
      ensures waitingReceives < UINT64
      ensures var p := old(pool.View()).small;
              var d := Deficit(old(waitingReceives), preposts);
              var k := Posts(d, |p.free|, budget, fault);
              && end == Ends(d, |p.free|, budget, fault)
              && (end.Returns? ==> left == budget - d)
              && waitingReceives == old(waitingReceives) + k
              && receiveQueue == old(receiveQueue) + Taken(p, k)
              && pool.View() == old(pool.View()).(small := Dispensed(p, Pops(d, |p.free|, budget, fault)))
    {
      ghost var v := pool.View();
      ghost var p := v.small;
      ghost var d := Deficit(waitingReceives, preposts);
      var k := 0;
      left := budget;
      while NumReceives(waitingReceives) < preposts && left > 0
        invariant waitingReceives < UINT64 && InLoop(d, |p.free|, budget, fault, k, left)
        invariant waitingReceives == old(waitingReceives) + k && Deficit(waitingReceives, preposts) == d - k
        invariant receiveQueue == old(receiveQueue) + Taken(p, k)
        invariant pool.View() == v.(small := Dispensed(p, k))
        decreases left
      {
        var can := pool.CanAllocateRegionUnsafe(0);
        if can {
          OneMore(p, k);
          var region := GetFreeRegion(pool.small.chunkSize);
          var thrown := PostRecvRegionAsID(region, fault != Some(k));
          if thrown {
            return Throws, left;
          }
          CounterStep(old(waitingReceives), k, preposts);
          k := k + 1;
        }
        left := left - 1;
      }
      end := if NumReceives(waitingReceives) >= preposts then Returns else Loops;
    }
  }

  /** In the loop, `k` posts made: one for each iteration while blocks last. */
  predicate InLoop(d: nat, free: nat, budget: nat, fault: Option<nat>, k: nat, left: nat) {
    && left <= budget && k <= d && k <= free && k <= budget - left
    && (k < free || k == d ==> k == budget - left)
    && (fault.Some? ==> k <= fault.value)
  }

  lemma OneMore(p: Pool, k: nat)
    requires k < |p.free|
    ensures Dispensed(p, k).free != [] && Popped(Dispensed(p, k)) == Dispensed(p, k + 1)
    ensures Taken(p, k + 1) == Taken(p, k) + [Top(Dispensed(p, k))]
  {
  }

  /** What a client waits for and has posted. */
  datatype Holding = Holding(waiting: nat, queue: seq<Region>)

  ghost function Held(conns: seq<Connection>): (hs: seq<Holding>)
    reads conns
    ensures |hs| == |conns|
  {
    seq(|conns|, i requires 0 <= i < |conns| reads conns => Holding(conns[i].waitingReceives, conns[i].receiveQueue))
  }

  function Waits(hs: seq<Holding>): (ws: seq<nat>)
    ensures |ws| == |hs|
  {
    seq(|hs|, i requires 0 <= i < |hs| => hs[i].waiting)
  }

  /** The first `n` clients have been given their share on top of what they had. */
  function Given(hs: seq<Holding>, shares: seq<seq<Region>>, n: nat): (hs': seq<Holding>)
    requires |shares| == |hs|
    ensures |hs'| == |hs|
  {
    seq(|hs|, i requires 0 <= i < |hs| =>
      if i < n then Holding(hs[i].waiting + |shares[i]|, hs[i].queue + shares[i]) else hs[i])
  }

  /** Different clients, all with this pool. */
  ghost predicate Ready(pool: MemoryPool, conns: seq<Connection>)
    reads conns
  {
    && pool.Valid() && Distinct(conns)
    && (forall i :: 0 <= i < |conns| ==> conns[i].pool == pool && conns[i].waitingReceives < UINT64)
  }

  /** Refilling every client in turn, as the controller does under the lock of
      its client map. However it ends, the blocks posted went to the clients in
      their order, each up to its deficit. */
  method RefillClientReceives(clients: seq<Connection>, pool: MemoryPool, budget: nat, fault: Option<nat>)
    returns (end: Ending)
    requires Ready(pool, clients)
    modifies clients, pool`tempRegions, pool.small, pool.medium, pool.large
    ensures var goal := GoalOf(old(pool.View()).small, Waits(old(Held(clients))), budget, fault);
            && end == goal.end
            && pool.View() == old(pool.View()).(small := Dispensed(old(pool.View()).small, goal.pops))
            && Held(clients) == Given(old(Held(clients)), goal.shares, |clients|)
  {
    ghost var v, hs := pool.View(), Held(clients);
    ghost var goal := GoalOf(v.small, Waits(hs), budget, fault);
    assert Waits(hs)[..0] == [];
    assert Given(hs, goal.shares, 0) == hs;
    var left, rest := budget, fault;
    for i := 0 to |clients|
      invariant SoFar(pool, v, Waits(hs), i, budget, left, fault, rest)
      invariant Held(clients) == Given(hs, goal.shares, i)
    {
      end, left, rest := RefillNext(clients, i, pool, left, rest, v, hs, budget, fault);
      if !end.Returns? {
        NothingMore(hs, goal.shares, i + 1);
        return;
      }
    }
    assert Waits(hs)[..|clients|] == Waits(hs);
    return Returns;
  }

  lemma NothingMore(hs: seq<Holding>, shares: seq<seq<Region>>, n: nat)
    requires |shares| == |hs| && n <= |hs| && forall j :: n <= j < |hs| ==> shares[j] == []
    ensures Given(hs, shares, n) == Given(hs, shares, |hs|)
  {
    forall j | n <= j < |hs| ensures Given(hs, shares, n)[j] == Given(hs, shares, |hs|)[j] {
      assert hs[j].queue + [] == hs[j].queue;
    }
  }

  /** What refilling all comes to, by the pool, the counters and the environment. */
  datatype Goal = Goal(end: Ending, pops: nat, shares: seq<seq<Region>>)

  ghost function GoalOf(p: Pool, ws: seq<nat>, budget: nat, fault: Option<nat>): (goal: Goal)
    ensures |goal.shares| == |ws| && goal.pops <= |p.free|
  {
    var d := TotalDeficit(ws, MAX_PREPOSTS);
    var n := Posts(d, |p.free|, budget, fault);
    Goal(Ends(d, |p.free|, budget, fault), Pops(d, |p.free|, budget, fault),
         seq(|ws|, i requires 0 <= i < |ws| => Share(p, ws, i, n)))
  }

  /** The first `i` clients have been refilled and nothing has gone wrong yet. */
  ghost predicate SoFar(pool: MemoryPool, v: Pools, ws: seq<nat>, i: nat,
                        budget: nat, left: nat, fault: Option<nat>, rest: Option<nat>)
    requires i <= |ws|
    reads pool, pool.small, pool.medium, pool.large
  {
    var before := TotalDeficit(ws[..i], MAX_PREPOSTS);
    && before <= |v.small.free| && before == budget - left
    && (fault.Some? ==> before <= fault.value) && rest == Later(fault, before)
    && pool.View() == v.(small := Dispensed(v.small, before))
  }

  /** One turn of the loop, the clients before this one having been refilled. */
  method RefillNext(clients: seq<Connection>, i: nat, pool: MemoryPool, budget: nat, fault: Option<nat>, ghost v: Pools,
                    ghost hs: seq<Holding>, ghost budget0: nat, ghost fault0: Option<nat>)
    returns (end: Ending, left: nat, rest: Option<nat>)
    requires pool.Valid() && Distinct(clients)
    requires i < |clients| == |hs| && clients[i].pool == pool && hs[i].waiting < UINT64
    requires SoFar(pool, v, Waits(hs), i, budget0, budget, fault0, fault)
    requires Held(clients) == Given(hs, GoalOf(v.small, Waits(hs), budget0, fault0).shares, i)
    modifies clients[i], pool`tempRegions, pool.small, pool.medium, pool.large
    ensures end.Returns? ==> SoFar(pool, v, Waits(hs), i + 1, budget0, left, fault0, rest)
    ensures var goal := GoalOf(v.small, Waits(hs), budget0, fault0);
            && Held(clients) == Given(hs, goal.shares, i + 1)
            && (!end.Returns? ==>
                  && end == goal.end && pool.View() == v.(small := Dispensed(v.small, goal.pops))
                  && forall j :: i < j < |hs| ==> goal.shares[j] == [])
  {
    ghost var shares := GoalOf(v.small, Waits(hs), budget0, fault0).shares;
    ghost var turn := TurnIsPart(v.small, Waits(hs), i, budget0, fault0);
    ghost var p := pool.View().small;
    assert Holding(clients[i].waitingReceives, clients[i].receiveQueue) == Held(clients)[i] == hs[i];
    assert turn == TurnOf(p, hs[i].waiting, budget, fault);
    end, left := clients[i].RefillPreposts(MAX_PREPOSTS, budget, fault);
    assert end == turn.end && clients[i].receiveQueue == hs[i].queue + turn.share;
    rest := if end.Returns? && fault.Some? then Some(fault.value - (budget - left)) else fault;
    forall j | 0 <= j < |clients| ensures Held(clients)[j] == Given(hs, shares, i + 1)[j] {
      if j != i {
        assert Held(clients)[j] == old(Held(clients))[j];
      }
    }
  }

  /** One client's refill: how it ends, what it posts, how many blocks it pops. */
  datatype Turn = Turn(end: Ending, share: seq<Region>, pops: nat)

  ghost function TurnOf(p: Pool, w: nat, budget: nat, fault: Option<nat>): Turn {
    var d := Deficit(w, MAX_PREPOSTS);
    Turn(Ends(d, |p.free|, budget, fault), Taken(p, Posts(d, |p.free|, budget, fault)),
         Pops(d, |p.free|, budget, fault))
  }

  /** The turn of client `i` when all before it have been refilled: what it
      gets is its share, and if it does not return neither does the whole. */
  lemma TurnIsPart(p: Pool, ws: seq<nat>, i: nat, budget: nat, fault: Option<nat>) returns (turn: Turn)
    requires i < |ws| && TotalDeficit(ws[..i], MAX_PREPOSTS) <= |p.free|
    requires TotalDeficit(ws[..i], MAX_PREPOSTS) <= budget
    requires fault.Some? ==> TotalDeficit(ws[..i], MAX_PREPOSTS) <= fault.value
    ensures var before, own := TotalDeficit(ws[..i], MAX_PREPOSTS), Deficit(ws[i], MAX_PREPOSTS);
            var goal := GoalOf(p, ws, budget, fault);
            && turn == TurnOf(Dispensed(p, before), ws[i], budget - before, Later(fault, before))
            && goal.shares[i] == turn.share && before + turn.pops <= |p.free|
            && Dispensed(Dispensed(p, before), turn.pops) == Dispensed(p, before + turn.pops)
            && TotalDeficit(ws[..i + 1], MAX_PREPOSTS) == before + own
            && (turn.end.Returns? ==> |turn.share| == turn.pops == own)
            && (!turn.end.Returns? ==>
                  && goal.end == turn.end && goal.pops == before + turn.pops
                  && forall j :: i < j < |ws| ==> goal.shares[j] == [])
  {
    var before := TotalDeficit(ws[..i], MAX_PREPOSTS);
    turn := TurnOf(Dispensed(p, before), ws[i], budget - before, Later(fault, before));
    TurnShare(p, ws, i, budget, fault);
    TurnStops(p, ws, i, budget, fault);
    DispensedTwice(p, before, turn.pops);
    TotalDeficitStep(ws, i, MAX_PREPOSTS);
  }

  /** The turn of client `i` with the clients before it refilled. */
  ghost function TurnAt(p: Pool, ws: seq<nat>, i: nat, budget: nat, fault: Option<nat>): Turn
    requires i < |ws| && TotalDeficit(ws[..i], MAX_PREPOSTS) <= |p.free|
    requires TotalDeficit(ws[..i], MAX_PREPOSTS) <= budget
    requires fault.Some? ==> TotalDeficit(ws[..i], MAX_PREPOSTS) <= fault.value
  {
    var before := TotalDeficit(ws[..i], MAX_PREPOSTS);
    TurnOf(Dispensed(p, before), ws[i], budget - before, Later(fault, before))
  }

  lemma TurnShare(p: Pool, ws: seq<nat>, i: nat, budget: nat, fault: Option<nat>)
    requires i < |ws| && TotalDeficit(ws[..i], MAX_PREPOSTS) <= |p.free|
    requires TotalDeficit(ws[..i], MAX_PREPOSTS) <= budget
    requires fault.Some? ==> TotalDeficit(ws[..i], MAX_PREPOSTS) <= fault.value
    ensures var turn := TurnAt(p, ws, i, budget, fault);
            && GoalOf(p, ws, budget, fault).shares[i] == turn.share
            && TotalDeficit(ws[..i], MAX_PREPOSTS) + turn.pops <= |p.free|
            && (turn.end.Returns? ==> |turn.share| == turn.pops == Deficit(ws[i], MAX_PREPOSTS))
  {
    var before := TotalDeficit(ws[..i], MAX_PREPOSTS);
    var k := TurnPosts(ws, i, |p.free|, budget, fault);
    assert |Dispensed(p, before).free| == |p.free| - before;
    ShareIs(p, ws, i, Posts(TotalDeficit(ws, MAX_PREPOSTS), |p.free|, budget, fault), k);
  }

  lemma TurnStops(p: Pool, ws: seq<nat>, i: nat, budget: nat, fault: Option<nat>)
    requires i < |ws| && TotalDeficit(ws[..i], MAX_PREPOSTS) <= |p.free|
    requires TotalDeficit(ws[..i], MAX_PREPOSTS) <= budget
    requires fault.Some? ==> TotalDeficit(ws[..i], MAX_PREPOSTS) <= fault.value
    ensures var turn, goal := TurnAt(p, ws, i, budget, fault), GoalOf(p, ws, budget, fault);
            !turn.end.Returns? ==>
              && goal.end == turn.end && goal.pops == TotalDeficit(ws[..i], MAX_PREPOSTS) + turn.pops
              && forall j :: i < j < |ws| ==> goal.shares[j] == []
  {
    var before := TotalDeficit(ws[..i], MAX_PREPOSTS);
    var k := TurnPosts(ws, i, |p.free|, budget, fault);
    assert |Dispensed(p, before).free| == |p.free| - before;
    if !TurnAt(p, ws, i, budget, fault).end.Returns? {
      NoShareLeft(p, ws, i, Posts(TotalDeficit(ws, MAX_PREPOSTS), |p.free|, budget, fault));
    }
  }

  /** The same in numbers: the client gets its deficit or what is left of all posts. */
  lemma TurnPosts(ws: seq<nat>, i: nat, free: nat, budget: nat, fault: Option<nat>) returns (k: nat)
    requires i < |ws| && TotalDeficit(ws[..i], MAX_PREPOSTS) <= free && TotalDeficit(ws[..i], MAX_PREPOSTS) <= budget
    requires fault.Some? ==> TotalDeficit(ws[..i], MAX_PREPOSTS) <= fault.value
    ensures var before, own, all := TotalDeficit(ws[..i], MAX_PREPOSTS), Deficit(ws[i], MAX_PREPOSTS),
                 TotalDeficit(ws, MAX_PREPOSTS);
            var end := Ends(own, free - before, budget - before, Later(fault, before));
            var n := Posts(all, free, budget, fault);
            && k == Posts(own, free - before, budget - before, Later(fault, before))
            && k == (if n <= before then 0 else Min(own, n - before))
            && TotalDeficit(ws[..i + 1], MAX_PREPOSTS) == before + own
            && (end.Returns? ==> k == own)
            && (!end.Returns? ==>
                  && end == Ends(all, free, budget, fault) && n <= before + own
                  && Pops(all, free, budget, fault)
                     == before + Pops(own, free - before, budget - before, Later(fault, before)))
  {
    var before, own := TotalDeficit(ws[..i], MAX_PREPOSTS), Deficit(ws[i], MAX_PREPOSTS);
    k := Posts(own, free - before, budget - before, Later(fault, before));
    TotalDeficitStep(ws, i, MAX_PREPOSTS);
    TotalDeficitGrows(ws, i + 1, MAX_PREPOSTS);
    EndsInPart(before, own, TotalDeficit(ws, MAX_PREPOSTS), free, budget, fault);
  }

  lemma ShareIs(p: Pool, ws: seq<nat>, i: nat, n: nat, k: nat)
    requires i < |ws| && n <= |p.free| && TotalDeficit(ws[..i], MAX_PREPOSTS) <= |p.free|
    requires var before := TotalDeficit(ws[..i], MAX_PREPOSTS);
             k == if n <= before then 0 else Min(Deficit(ws[i], MAX_PREPOSTS), n - before)
    ensures k <= |p.free| - TotalDeficit(ws[..i], MAX_PREPOSTS)
    ensures Share(p, ws, i, n) == Taken(Dispensed(p, TotalDeficit(ws[..i], MAX_PREPOSTS)), k)
  {
  }

  /** The exact conditions, over all budgets. A refill returns when the free
      blocks cover the deficit and no post is refused before it is made up; it
      throws when a post is refused first; else it loops for as long as it runs. */
  lemma RefillEnds(deficit: nat, free: nat, fault: Option<nat>)
    ensures (exists budget :: Ends(deficit, free, budget, fault).Returns?)
            <==> deficit <= free && (fault.Some? ==> deficit <= fault.value)
    ensures (exists budget :: Ends(deficit, free, budget, fault).Throws?)
            <==> fault.Some? && fault.value < deficit && fault.value < free
    ensures (forall budget :: Ends(deficit, free, budget, fault).Loops?)
            <==> free < deficit && (fault.Some? ==> free <= fault.value)
  {
    var _ := Ends(deficit, free, deficit + free + 1, fault);
  }

  /** It posts as many as the deficit, the free blocks, the iterations and the
      device allow, and no more. A refused post has cost its block all the same:
      the pool is short by one more than were posted. */
  lemma PostsAreMost(deficit: nat, free: nat, budget: nat, fault: Option<nat>)
    ensures var n := Posts(deficit, free, budget, fault);
            && n <= deficit && n <= free && n <= budget && (fault.Some? ==> n <= fault.value)
            && (n == deficit || n == free || n == budget || fault == Some(n))
    ensures var end, n, k := Ends(deficit, free, budget, fault), Posts(deficit, free, budget, fault),
                Pops(deficit, free, budget, fault);
            if end.Throws? then fault == Some(n) && k == n + 1 else k == n
  {
  }

  /** The deficit of a counter that fits 32 bits is what it is short of the full
      complement, and none above. */
  lemma DeficitIs(waiting: nat, preposts: nat)
    requires waiting < 0x1_0000_0000
    ensures waiting + Deficit(waiting, preposts) == if waiting < preposts then preposts else waiting
  {
  }

  /** What the end of one client's refill says of the end of all. */
  lemma EndsInPart(before: nat, own: nat, all: nat, free: nat, budget: nat, fault: Option<nat>)
    requires before + own <= all && before <= free && before <= budget && (fault.Some? ==> before <= fault.value)
    ensures var end := Ends(own, free - before, budget - before, Later(fault, before));
            var n, m := Posts(own, free - before, budget - before, Later(fault, before)),
                 Posts(all, free, budget, fault);
            && (end.Returns? ==> m >= before + own)
            && (!end.Returns? ==>
                  && end == Ends(all, free, budget, fault) && m == before + n < before + own
                  && Pops(all, free, budget, fault)
                     == before + Pops(own, free - before, budget - before, Later(fault, before)))
  {
  }

  /** The blocks client `i` gets when `n` are posted in all: those after what the
      clients before it took, up to its deficit. */
  ghost function Share(p: Pool, ws: seq<nat>, i: nat, n: nat): seq<Region>
    requires i < |ws| && n <= |p.free|
  {
    var before := TotalDeficit(ws[..i], MAX_PREPOSTS);
    if n <= before then [] else Taken(Dispensed(p, before), Min(Deficit(ws[i], MAX_PREPOSTS), n - before))
  }

  /** With every deficit made up, every client has its full complement. */
  lemma FullShare(p: Pool, ws: seq<nat>, i: nat)
    requires i < |ws| && TotalDeficit(ws, MAX_PREPOSTS) <= |p.free| && ws[i] < UINT64
    ensures |Share(p, ws, i, TotalDeficit(ws, MAX_PREPOSTS))| == Deficit(ws[i], MAX_PREPOSTS)
    ensures Deficit(ws[i] + Deficit(ws[i], MAX_PREPOSTS), MAX_PREPOSTS) == 0
  {
    TotalDeficitStep(ws, i, MAX_PREPOSTS);
    TotalDeficitGrows(ws, i + 1, MAX_PREPOSTS);
    var q, r := ws[i] / UINT32, ws[i] % UINT32;
    if r < MAX_PREPOSTS {
      assert ws[i] + (MAX_PREPOSTS - r) == q * UINT32 + MAX_PREPOSTS;
    }
  }

  function Joined(shares: seq<seq<Region>>): seq<Region> {
    if shares == [] then [] else Joined(shares[..|shares| - 1]) + shares[|shares| - 1]
  }

  /** The shares put together, in the order of the walk, are the blocks posted, in
      the order they were popped: none is given twice and none left out. */
  lemma SharesJoin(p: Pool, ws: seq<nat>, budget: nat, fault: Option<nat>)
    ensures Joined(GoalOf(p, ws, budget, fault).shares)
            == Taken(p, Posts(TotalDeficit(ws, MAX_PREPOSTS), |p.free|, budget, fault))
  {
    var n := Posts(TotalDeficit(ws, MAX_PREPOSTS), |p.free|, budget, fault);
    SharesTaken(p, ws, n, |ws|);
    assert ws[..|ws|] == ws;
    assert GoalOf(p, ws, budget, fault).shares == Shares(p, ws, n, |ws|);
  }

  ghost function Shares(p: Pool, ws: seq<nat>, n: nat, k: nat): (shares: seq<seq<Region>>)
    requires n <= |p.free| && k <= |ws|
    ensures |shares| == k
  {
    seq(k, i requires 0 <= i < k => Share(p, ws, i, n))
  }

  lemma {:induction false} SharesTaken(p: Pool, ws: seq<nat>, n: nat, k: nat)
    requires n <= |p.free| && k <= |ws|
    ensures Joined(Shares(p, ws, n, k)) == Taken(p, Min(n, TotalDeficit(ws[..k], MAX_PREPOSTS)))
    decreases k
  {
    if k == 0 {
    } else {
      SharesTaken(p, ws, n, k - 1);
      TotalDeficitStep(ws, k - 1, MAX_PREPOSTS);
      assert Shares(p, ws, n, k)[..k - 1] == Shares(p, ws, n, k - 1);
      var before := TotalDeficit(ws[..k - 1], MAX_PREPOSTS);
      if n > before {
        TakenTwice(p, before, Min(Deficit(ws[k - 1], MAX_PREPOSTS), n - before));
      }
    }
  }

  lemma TakenTwice(p: Pool, a: nat, b: nat)
    requires a + b <= |p.free|
    ensures Taken(p, a) + Taken(Dispensed(p, a), b) == Taken(p, a + b)
  {
  }

  /** A refill of all that returns leaves no client short: one after it returns at
      once and takes nothing. */
  lemma RefillAgain(p: Pool, hs: seq<Holding>, budget: nat, fault: Option<nat>)
    requires forall i :: 0 <= i < |hs| ==> hs[i].waiting < UINT64
    requires GoalOf(p, Waits(hs), budget, fault).end.Returns?
    ensures var goal := GoalOf(p, Waits(hs), budget, fault);
            var again := GoalOf(Dispensed(p, goal.pops), Waits(Given(hs, goal.shares, |hs|)), 0, None);
            again.end.Returns? && again.pops == 0
  {
    var goal := GoalOf(p, Waits(hs), budget, fault);
    var ws := Waits(Given(hs, goal.shares, |hs|));
    forall i | 0 <= i < |hs| ensures Deficit(ws[i], MAX_PREPOSTS) == 0 {
      FullShare(p, Waits(hs), i);
    }
    NoDeficits(ws);
  }

  lemma {:induction false} NoDeficits(ws: seq<nat>)
    requires forall i :: 0 <= i < |ws| ==> Deficit(ws[i], MAX_PREPOSTS) == 0
    ensures TotalDeficit(ws, MAX_PREPOSTS) == 0
  {
    if ws == [] {
    } else {
      NoDeficits(ws[..|ws| - 1]);
    }
  }

  lemma NoShareLeft(p: Pool, ws: seq<nat>, i: nat, n: nat)
    requires i < |ws| && n <= |p.free| && n <= TotalDeficit(ws[..i + 1], MAX_PREPOSTS)
    ensures forall j :: i < j < |ws| ==> Share(p, ws, j, n) == []
  {
    forall j | i < j < |ws| ensures Share(p, ws, j, n) == [] {
      assert ws[..j][..i + 1] == ws[..i + 1];
      TotalDeficitGrows(ws[..j], i + 1, MAX_PREPOSTS);
    }
  }

  lemma TotalDeficitStep(ws: seq<nat>, i: nat, preposts: nat)
    requires i < |ws|
    ensures TotalDeficit(ws[..i + 1], preposts) == TotalDeficit(ws[..i], preposts) + Deficit(ws[i], preposts)
  {
    assert ws[..i + 1][..i] == ws[..i];
  }

  lemma {:induction false} TotalDeficitGrows(ws: seq<nat>, i: nat, preposts: nat)
    requires i <= |ws|
    ensures TotalDeficit(ws[..i], preposts) <= TotalDeficit(ws, preposts)
    decreases |ws| - i
  {
    if i == |ws| {
      assert ws[..i] == ws;
    } else {
      TotalDeficitStep(ws, i, preposts);
      TotalDeficitGrows(ws, i + 1, preposts);
    }
  }

  lemma DispensedTwice(p: Pool, a: nat, b: nat)
    requires a + b <= |p.free|
    ensures Dispensed(Dispensed(p, a), b) == Dispensed(p, a + b)
  {
  }

  /** Nothing is lost on the way: what is left and what was taken are the free
      list, the last pushed taken first. */
  lemma DispensedConserves(p: Pool, k: nat)
    requires Balanced(p) && k <= |p.free|
    ensures Balanced(Dispensed(p, k))
    ensures Elements(Dispensed(p, k).free) + Elements(Taken(p, k)) == Elements(p.free)
    ensures Elements(Dispensed(p, k).free) !! Elements(Taken(p, k)) && Distinct(Taken(p, k))
    ensures k > 0 ==> Taken(p, k)[0] == Top(p) && Taken(p, k)[1..] == Taken(Popped(p), k - 1)
  {
    forall r | r in p.free ensures r in Dispensed(p, k).free || r in Taken(p, k) {
      var i :| 0 <= i < |p.free| && p.free[i] == r;
      if i >= |p.free| - k {
        assert Taken(p, k)[|p.free| - 1 - i] == r;
      } else {
        assert Dispensed(p, k).free[i] == r;
      }
    }
  }

  /** While there is a deficit the 32-bit view of the counter cannot wrap. */
  lemma CounterStep(w: nat, k: nat, preposts: nat)
    requires w < UINT64 && preposts < UINT32 && k < Deficit(w, preposts)
    requires w + k < UINT64
    ensures w + k + 1 < UINT64
    ensures Deficit(w + k + 1, preposts) == Deficit(w, preposts) - k - 1
  {
    var q, r := w / UINT32, w % UINT32;
    assert w == q * UINT32 + r && q <= UINT32 - 1;
    assert w + k + 1 == q * UINT32 + (r + k + 1);
    assert r + k + 1 <= preposts;
    assert (w + k + 1) % UINT32 == r + k + 1;
  }
}
