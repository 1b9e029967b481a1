/** Whole runs of a memory pool and its callers: what every reachable state
    keeps, which calls undo each other, and what changing the protection domain
    does with and without blocks in callers' hands. */
module PoolRuns {
  import opened Collections
  import opened Regions
  import opened PoolContainers
  import opened MemoryPools

  /** The pool together with the regions its callers hold. */
  datatype Heap = Heap(pools: Pools, held: set<Region>)

  datatype Op =
    | Allocate(length: nat, h: Handle)
    | Deallocate(r: Region)
    | DeallocateAddress(addr: nat)
    | WrapUserBuffer(r: Region)
    | SetDomain(pd: nat, supply: Supply)

  function Owner(ps: Pools, r: Region): Option<Tier> {
    if r in ps.small.blocks then Some(Small)
    else if r in ps.medium.blocks then Some(Medium)
    else if r in ps.large.blocks then Some(Large)
    else None
  }

  /** Callers return what they hold, once; new objects are new. Allocation is
      enabled when its wait is over. The protection domain may change at any time. */
  ghost predicate Enabled(s: Heap, op: Op) {
    match op
    case Allocate(length, h) =>
      && CanAllocate(s.pools, length)
      && (Route(s.pools, length) == None ==> Issued(s.pools, length, h) !in s.held)
    case Deallocate(r) => r in s.held
    case DeallocateAddress(addr) => exists r :: r in s.held && Owner(s.pools, r).Some? && r.addr == addr
    case WrapUserBuffer(r) => r.user && !r.temp && r !in s.held
    case SetDomain(pd, supply) => FullSupply(supply) && NewBuffers(ListDrained(s.pools), supply)
  }

  function Apply(s: Heap, op: Op): Heap
    requires Enabled(s, op)
  {
    match op
    case Allocate(length, h) =>
      Heap(Allocated(s.pools, length), s.held + {Issued(s.pools, length, h)})
    case Deallocate(r) => Heap(Deallocated(s.pools, r), s.held - {r})
    case DeallocateAddress(addr) =>
      if addr !in s.pools.index then s   // a null region: never reached, see IndexFindsOwner
      else Heap(Deallocated(s.pools, s.pools.index[addr]), s.held - {s.pools.index[addr]})
    case WrapUserBuffer(r) => Heap(s.pools, s.held + {r})
    case SetDomain(pd, supply) => Heap(Rebuilt(s.pools, pd, supply), s.held)
  }

  ghost predicate Apart(hs: seq<Handle>) {
    forall i, j :: 0 <= i < j < |hs| ==> hs[i].addr != hs[j].addr
  }

  /** Buffers mapped at the same time do not share an address: the new ones
      differ from each other and from those of blocks still in the pool. */
  ghost predicate NewBuffers(ps: Pools, supply: Supply) {
    && Apart(supply.small + supply.medium + supply.large)
    && (forall t, h, r :: h in Handles(supply, t) && Owner(ps, r).Some? ==> h.addr != r.addr)
  }

  ghost predicate Run(s: Heap, ops: seq<Op>)
    decreases |ops|
  {
    ops == [] || (Enabled(s, ops[0]) && Run(Apply(s, ops[0]), ops[1..]))
  }

  ghost function End(s: Heap, ops: seq<Op>): Heap
    requires Run(s, ops)
    decreases |ops|
  {
    if ops == [] then s else End(Apply(s, ops[0]), ops[1..])
  }

  // -------------------------------------------------------------- invariants

  predicate Chunked(ps: Pools) {
    ps.small.chunkSize < ps.medium.chunkSize < ps.large.chunkSize < UINT32
  }

  function Size(t: Tier): nat {
    match t case Small => SMALL_BLOCKS case Medium => MEDIUM_BLOCKS case Large => LARGE_BLOCKS
  }

  /** A tier's blocks are its own size and are free or held, not both. */
  ghost predicate TierOk(p: Pool, held: set<Region>) {
    && Distinct(p.free)
    && (forall r :: r in p.free ==> r in p.blocks)
    && (forall r :: r in p.blocks ==> (r in p.free <==> r !in held))
    && (forall r :: r in p.blocks ==> r.length == p.chunkSize && !r.temp && !r.user)
  }

  ghost predicate HeldOk(s: Heap) {
    forall r :: r in s.held && Owner(s.pools, r) == None ==>
      (r.user && !r.temp) || (r.temp && !r.user && r.length > s.pools.large.chunkSize)
  }

  function Temps(held: set<Region>): set<Region> {
    set r | r in held && r.temp
  }

  /** Live blocks have different addresses and the index knows each; all it
      knows under an address has that address. */
  ghost predicate IndexOk(ps: Pools) {
    && (forall a :: a in ps.index ==> ps.index[a].addr == a)
    && (forall r, q :: Owner(ps, r).Some? && Owner(ps, q).Some? && r.addr == q.addr ==> r == q)
    && (forall r :: Owner(ps, r).Some? ==> r.addr in ps.index && ps.index[r.addr] == r)
  }

  ghost predicate Inv(s: Heap) {
    && Chunked(s.pools)
    && TierOk(s.pools.small, s.held) && TierOk(s.pools.medium, s.held) && TierOk(s.pools.large, s.held)
    && HeldOk(s)
    && s.pools.temps == |Temps(s.held)|
    && IndexOk(s.pools)
  }

  lemma OwnerOf(s: Heap, r: Region, t: Tier)
    requires Inv(s)
    ensures Owner(s.pools, r) == Some(t) <==> r in s.pools.Of(t).blocks
    ensures Owner(s.pools, r) == Some(t) ==> Route(s.pools, r.Length32()) == Some(t) && !r.temp && !r.user
  {
    assert r in s.pools.small.blocks ==> r.length == s.pools.small.chunkSize;
    assert r in s.pools.medium.blocks ==> r.length == s.pools.medium.chunkSize;
    assert r in s.pools.large.blocks ==> r.length == s.pools.large.chunkSize;
  }

  // ------------------------------------------------------- one tier at a time

  lemma TierPop(p: Pool, held: set<Region>)
    requires TierOk(p, held) && p.free != []
    ensures TierOk(Popped(p), held + {Top(p)}) && Top(p) in p.blocks
  {
    var q := Popped(p);
    assert p.free == q.free + [Top(p)];
    assert Top(p) !in q.free;
    assert forall r :: r in p.free <==> r in q.free || r == Top(p);
  }

  lemma TierPush(p: Pool, held: set<Region>, r: Region)
    requires TierOk(p, held) && r in p.blocks && r in held
    ensures TierOk(Pushed(p, r), held - {r})
  {
    assert forall q :: q in Pushed(p, r).free <==> q in p.free || q == r;
  }

  lemma TierElsewhere(p: Pool, held: set<Region>, held': set<Region>, r: Region)
    requires TierOk(p, held) && r !in p.blocks && SameBut(held, held', r)
    ensures TierOk(p, held')
  {
  }

  ghost predicate SameBut(held: set<Region>, held': set<Region>, r: Region) {
    forall q :: q != r ==> (q in held <==> q in held')
  }

  lemma TempsChange(held: set<Region>, r: Region)
    ensures r !in held ==> |Temps(held + {r})| == |Temps(held)| + if r.temp then 1 else 0
    ensures r in held ==> |Temps(held - {r})| == |Temps(held)| - if r.temp then 1 else 0
  {
    assert Temps(held - {r}) == Temps(held) - {r};
    assert Temps(held + {r}) == if r.temp then Temps(held) + {r} else Temps(held);
  }

  // ------------------------------------------------------------------- steps

  lemma AllocateStep(s: Heap, length: nat, h: Handle)
    requires Inv(s) && Enabled(s, Allocate(length, h))
    ensures Inv(Apply(s, Allocate(length, h)))
    ensures Issued(s.pools, length, h) !in s.held
  {
    var s' := Apply(s, Allocate(length, h));
    var r := Issued(s.pools, length, h);
    match Route(s.pools, length) {
      case Some(t) =>
        TierPop(s.pools.Of(t), s.held);
        OwnerOf(s, r, t);
      case None =>
    }
    TempsChange(s.held, r);
    OthersKeep(s, s', r, Route(s.pools, length));
  }

  /** One region changes hands and at most one tier changes with it. */
  lemma OthersKeep(s: Heap, s': Heap, r: Region, t: Option<Tier>)
    requires Inv(s)
    requires SameBut(s.held, s'.held, r)
    requires match t case Some(k) => s'.pools == s.pools.With(k, s'.pools.Of(k)) && TierOk(s'.pools.Of(k), s'.held)
                                     && s'.pools.Of(k).blocks == s.pools.Of(k).blocks
                                     && s'.pools.Of(k).chunkSize == s.pools.Of(k).chunkSize
             case None => s'.pools == s.pools.(temps := s'.pools.temps)
    requires Owner(s.pools, r) == t
    requires t == None ==> (r.user && !r.temp) || (r.temp && !r.user && r.length > s.pools.large.chunkSize)
    requires s'.pools.temps == |Temps(s'.held)|
    ensures Inv(s')
  {
    OwnerOf(s, r, Small);
    OwnerOf(s, r, Medium);
    OwnerOf(s, r, Large);
    if t != Some(Small) { TierElsewhere(s.pools.small, s.held, s'.held, r); }
    if t != Some(Medium) { TierElsewhere(s.pools.medium, s.held, s'.held, r); }
    if t != Some(Large) { TierElsewhere(s.pools.large, s.held, s'.held, r); }
    assert forall q :: Owner(s'.pools, q) == Owner(s.pools, q);
  }

  lemma DeallocateStep(s: Heap, r: Region)
    requires Inv(s) && r in s.held
    ensures Inv(Heap(Deallocated(s.pools, r), s.held - {r}))
    ensures !AlreadyFree(s.pools, r)
  {
    var s' := Heap(Deallocated(s.pools, r), s.held - {r});
    TempsChange(s.held, r);
    var t := Owner(s.pools, r);
    if t.Some? {
      OwnerOf(s, r, t.value);
      TierPush(s.pools.Of(t.value), s.held, r);
    }
    OthersKeep(s, s', r, t);
  }

  /** A held pool block's address leads the index to that very block. */
  lemma IndexFindsOwner(s: Heap, addr: nat)
    requires Inv(s) && Enabled(s, DeallocateAddress(addr))
    ensures addr in s.pools.index && s.pools.index[addr] in s.held && Owner(s.pools, s.pools.index[addr]).Some?
  {
    var r :| r in s.held && Owner(s.pools, r).Some? && r.addr == addr;
  }

  lemma UserStep(s: Heap, r: Region)
    requires Inv(s) && Enabled(s, WrapUserBuffer(r))
    ensures Inv(Apply(s, WrapUserBuffer(r)))
  {
    OwnerOf(s, r, Small);
    OwnerOf(s, r, Medium);
    OwnerOf(s, r, Large);
    TempsChange(s.held, r);
    OthersKeep(s, Apply(s, WrapUserBuffer(r)), r, None);
  }

  // ------------------------------------------------- draining and building

  /** The number of a tier's blocks in callers' hands. */
  ghost function Out(s: Heap, t: Tier): nat {
    |s.pools.Of(t).blocks * s.held|
  }

  lemma AllBackMeansNoneHeld(p: Pool, held: set<Region>)
    requires TierOk(p, held)
    ensures Elements(p.free) == p.blocks - held
    ensures |p.blocks| - |p.free| == |p.blocks * held|
    ensures Quiescent(p) ==> p.blocks !! held
  {
    DistinctSize(p.free);
    assert p.blocks == (p.blocks - held) + (p.blocks * held);
    assert p.blocks !! held <==> |p.blocks * held| == 0;
  }

  predicate QuiescentUpTo(ps: Pools, t: Tier) {
    && Quiescent(ps.small)
    && (t.Medium? || t.Large? ==> Quiescent(ps.medium))
    && (t.Large? ==> Quiescent(ps.large))
  }

  lemma DrainedUpTo(ps: Pools, t: Tier)
    ensures ListDrained(ps).Of(t) == if QuiescentUpTo(ps, t) then Drained(ps.Of(t)) else ps.Of(t)
    ensures QuiescentUpTo(ps, t) ==> Quiescent(ps.Of(t))
  {
  }

  lemma DrainedTierOk(s: Heap, t: Tier)
    requires Inv(s)
    ensures TierOk(ListDrained(s.pools).Of(t), s.held)
    ensures ListDrained(s.pools).Of(t).blocks <= s.pools.Of(t).blocks
    ensures forall r :: r in s.held && r in s.pools.Of(t).blocks ==> r in ListDrained(s.pools).Of(t).blocks
    ensures QuiescentUpTo(s.pools, t) ==> ListDrained(s.pools).Of(t).blocks == {}
  {
    DrainedUpTo(s.pools, t);
    AllBackMeansNoneHeld(s.pools.Of(t), s.held);
  }

  /** Draining takes no block a caller holds; a drained tier's go from the pool. */
  lemma DrainKeeps(s: Heap, pd: nat)
    requires Inv(s)
    ensures Inv(Heap(ListDrained(s.pools).(domain := pd), s.held))
  {
    var d := ListDrained(s.pools).(domain := pd);
    DrainedTierOk(s, Small);
    DrainedTierOk(s, Medium);
    DrainedTierOk(s, Large);
    assert d.small == ListDrained(s.pools).Of(Small) && d.medium == ListDrained(s.pools).Of(Medium)
        && d.large == ListDrained(s.pools).Of(Large);
    assert forall r :: Owner(d, r).Some? ==> Owner(s.pools, r).Some?;
  }

  lemma DrainedAway(s: Heap, r: Region, t: Tier)
    requires Inv(s) && Owner(s.pools, r) == Some(t) && QuiescentUpTo(s.pools, t)
    ensures Owner(ListDrained(s.pools), r) == None
  {
    OwnerOf(s, r, Small);
    OwnerOf(s, r, Medium);
    OwnerOf(s, r, Large);
    DrainedTierOk(s, Small);
    DrainedTierOk(s, Medium);
    DrainedTierOk(s, Large);
  }

  lemma {:induction false} IndexedLookup(index: map<nat, Region>, rs: seq<Region>)
    requires forall i, j :: 0 <= i < j < |rs| ==> rs[i].addr != rs[j].addr
    ensures (forall a :: a in index ==> index[a].addr == a) ==>
              forall a :: a in Indexed(index, rs) ==> Indexed(index, rs)[a].addr == a
    ensures forall r :: r in rs ==> r.addr in Indexed(index, rs) && Indexed(index, rs)[r.addr] == r
    ensures forall a :: (forall r :: r in rs ==> r.addr != a) ==>
                          (a in Indexed(index, rs) <==> a in index)
                          && (a in index ==> Indexed(index, rs)[a] == index[a])
  {
    if rs == [] {
    } else {
      var last := |rs| - 1;
      IndexedLookup(index, rs[..last]);
      assert rs == rs[..last] + [rs[last]];
    }
  }

  /** The environment's blocks for one tier. */
  ghost predicate NewFor(ps: Pools, rs: seq<Region>, t: Tier) {
    && (forall r :: r in rs ==> r.length == ps.Of(t).chunkSize && !r.temp && !r.user)
    && (forall i, j :: 0 <= i < j < |rs| ==> rs[i].addr != rs[j].addr)
    && (forall r, q :: r in rs && Owner(ps, q).Some? ==> r.addr != q.addr)
  }

  function FilledWith(ps: Pools, t: Tier, rs: seq<Region>): Pools {
    ps.With(t, Filled(ps.Of(t), rs)).(index := Indexed(ps.index, rs))
  }

  lemma FilledTierOk(p: Pool, rs: seq<Region>, held: set<Region>)
    requires TierOk(p, held) && FreshFor(p, rs)
    requires forall r :: r in rs ==> r !in held && r.length == p.chunkSize && !r.temp && !r.user
    ensures TierOk(Filled(p, rs), held)
  {
    var free := p.free + rs;
    forall i, j | 0 <= i < j < |free| ensures free[i] != free[j] {
      if i < |p.free| <= j {
        assert rs[j - |p.free|] in rs;
      }
    }
  }

  lemma NewNotHeld(s: Heap, rs: seq<Region>, t: Tier)
    requires Inv(s) && NewFor(s.pools, rs, t)
    ensures forall r :: r in rs ==> r !in s.held && Owner(s.pools, r) == None
    ensures FreshFor(s.pools.Of(t), rs)
  {
    forall r | r in rs ensures r !in s.held && Owner(s.pools, r) == None && r !in s.pools.Of(t).blocks {
      OwnerOf(s, r, t);
    }
  }

  lemma FilledOwners(ps: Pools, rs: seq<Region>, t: Tier)
    ensures forall r :: Owner(FilledWith(ps, t, rs), r).Some? <==> Owner(ps, r).Some? || r in rs
    ensures FilledWith(ps, t, rs).index == Indexed(ps.index, rs)
  {
  }

  lemma FilledIndexOk(ps: Pools, rs: seq<Region>, t: Tier)
    requires IndexOk(ps) && NewFor(ps, rs, t)
    ensures IndexOk(FilledWith(ps, t, rs))
    ensures forall r :: Owner(FilledWith(ps, t, rs), r).Some? <==> Owner(ps, r).Some? || r in rs
  {
    IndexedLookup(ps.index, rs);
    FilledOwners(ps, rs, t);
  }

  /** Filling one tier, whatever is in it already. */
  lemma FillKeeps(s: Heap, rs: seq<Region>, t: Tier)
    requires Inv(s) && NewFor(s.pools, rs, t)
    ensures Inv(Heap(FilledWith(s.pools, t, rs), s.held)) && FreshFor(s.pools.Of(t), rs)
  {
    NewNotHeld(s, rs, t);
    FilledTierOk(s.pools.Of(t), rs, s.held);
    FilledIndexOk(s.pools, rs, t);
  }

  ghost predicate NoSharedBuffer(a: seq<Handle>, b: seq<Handle>) {
    forall i, j :: 0 <= i < |a| && 0 <= j < |b| ==> a[i].addr != b[j].addr
  }

  lemma ApartParts(a: seq<Handle>, b: seq<Handle>)
    requires Apart(a + b)
    ensures Apart(a) && Apart(b) && NoSharedBuffer(a, b) && NoSharedBuffer(b, a)
  {
    assert forall i :: 0 <= i < |a| ==> (a + b)[i] == a[i];
    assert forall i :: 0 <= i < |b| ==> (a + b)[|a| + i] == b[i];
  }

  /** Across the three tiers of a supply no two handles have the same buffer. */
  lemma SupplyApart(supply: Supply)
    requires Apart(supply.small + supply.medium + supply.large)
    ensures forall t :: Apart(Handles(supply, t))
    ensures forall t, u :: t != u ==> NoSharedBuffer(Handles(supply, t), Handles(supply, u))
  {
    ApartParts(supply.small + supply.medium, supply.large);
    ApartParts(supply.small, supply.medium);
    assert supply.small + supply.medium + supply.large == supply.small + (supply.medium + supply.large);
    ApartParts(supply.small, supply.medium + supply.large);
    assert forall i :: 0 <= i < |supply.medium| ==>
      (supply.small + supply.medium)[|supply.small| + i] == supply.medium[i];
    assert NoSharedBuffer(supply.medium, supply.large) && NoSharedBuffer(supply.large, supply.medium);
    assert forall i :: 0 <= i < |supply.large| ==>
      (supply.medium + supply.large)[|supply.medium| + i] == supply.large[i];
    assert NoSharedBuffer(supply.small, supply.large) && NoSharedBuffer(supply.large, supply.small);
  }

  /** The new blocks of a tier are new to the pool and to the other tiers. */
  lemma NewBlocksApart(ps: Pools, supply: Supply)
    requires NewBuffers(ps, supply)
    ensures forall t :: NewFor(ps, NewBlocks(ps, t, supply), t)
    ensures forall t, u :: t != u ==> NoSharedAddress(NewBlocks(ps, t, supply), NewBlocks(ps, u, supply))
  {
    SupplyApart(supply);
    forall t, u | t != u ensures NoSharedAddress(NewBlocks(ps, t, supply), NewBlocks(ps, u, supply)) {
      assert NoSharedBuffer(Handles(supply, t), Handles(supply, u));
    }
    forall t ensures NewFor(ps, NewBlocks(ps, t, supply), t) {
      assert Apart(Handles(supply, t));
      assert forall r :: r in NewBlocks(ps, t, supply) ==> exists h :: h in Handles(supply, t) && h.addr == r.addr;
    }
  }

  lemma BuiltInTurn(ps: Pools, supply: Supply)
    ensures var rs, rm, rl := NewBlocks(ps, Small, supply), NewBlocks(ps, Medium, supply), NewBlocks(ps, Large, supply);
            Built(ps, supply) == FilledWith(FilledWith(FilledWith(ps, Small, rs), Medium, rm), Large, rl)
    ensures forall t :: Built(ps, supply).Of(t) == Filled(ps.Of(t), NewBlocks(ps, t, supply))
  {
  }

  /** Building asks nothing odd of the environment and keeps everything in order. */
  lemma BuildKeeps(s: Heap, supply: Supply)
    requires Inv(s) && NewBuffers(s.pools, supply)
    ensures FreshSupply(s.pools, supply)
    ensures Inv(Heap(Built(s.pools, supply), s.held))
  {
    NewBlocksApart(s.pools, supply);
    forall t ensures FreshFor(s.pools.Of(t), NewBlocks(s.pools, t, supply)) {
      NewNotHeld(s, NewBlocks(s.pools, t, supply), t);
    }
    BuiltInTurn(s.pools, supply);
    FillAll(s, NewBlocks(s.pools, Small, supply), NewBlocks(s.pools, Medium, supply),
            NewBlocks(s.pools, Large, supply));
  }

  ghost predicate NoSharedAddress(a: seq<Region>, b: seq<Region>) {
    forall r, q :: r in a && q in b ==> r.addr != q.addr
  }

  lemma FillAll(s: Heap, rs: seq<Region>, rm: seq<Region>, rl: seq<Region>)
    requires Inv(s) && NewFor(s.pools, rs, Small) && NewFor(s.pools, rm, Medium) && NewFor(s.pools, rl, Large)
    requires NoSharedAddress(rm, rs) && NoSharedAddress(rl, rs) && NoSharedAddress(rl, rm)
    ensures Inv(Heap(FilledWith(FilledWith(FilledWith(s.pools, Small, rs), Medium, rm), Large, rl), s.held))
  {
    var one := FilledWith(s.pools, Small, rs);
    FillKeeps(s, rs, Small);
    FilledNewFor(s.pools, rs, Small, rm, Medium);
    FilledNewFor(s.pools, rs, Small, rl, Large);
    var two := FilledWith(one, Medium, rm);
    FillKeeps(Heap(one, s.held), rm, Medium);
    FilledNewFor(one, rm, Medium, rl, Large);
    FillKeeps(Heap(two, s.held), rl, Large);
  }

  /** What is new before a filling of another tier is new after it. */
  lemma FilledNewFor(ps: Pools, rs: seq<Region>, t: Tier, qs: seq<Region>, u: Tier)
    requires IndexOk(ps) && NewFor(ps, rs, t) && NewFor(ps, qs, u) && t != u && NoSharedAddress(qs, rs)
    ensures NewFor(FilledWith(ps, t, rs), qs, u)
  {
    FilledIndexOk(ps, rs, t);
  }

  lemma SetDomainStep(s: Heap, pd: nat, supply: Supply)
    requires Inv(s) && Enabled(s, SetDomain(pd, supply))
    ensures FreshSupply(ListDrained(s.pools).(domain := pd), supply)
    ensures Inv(Apply(s, SetDomain(pd, supply)))
  {
    var d := ListDrained(s.pools).(domain := pd);
    DrainKeeps(s, pd);
    assert forall r :: Owner(d, r) == Owner(ListDrained(s.pools), r);
    BuildKeeps(Heap(d, s.held), supply);
  }

  lemma Step(s: Heap, op: Op)
    requires Inv(s) && Enabled(s, op)
    ensures Inv(Apply(s, op))
  {
    match op
    case Allocate(length, h) => AllocateStep(s, length, h);
    case Deallocate(r) => DeallocateStep(s, r);
    case DeallocateAddress(addr) =>
      IndexFindsOwner(s, addr);
      DeallocateStep(s, s.pools.index[addr]);
    case WrapUserBuffer(r) => UserStep(s, r);
    case SetDomain(pd, supply) => SetDomainStep(s, pd, supply);
  }

  // ------------------------------------------------------------ main results

  /** A new pool, nothing handed out: in order, full, and nothing forgotten. */
  ghost predicate Init(s: Heap) {
    && Inv(s) && s.held == {}
    && (forall t :: Quiescent(s.pools.Of(t)) && |s.pools.Of(t).blocks| == Size(t))
  }

  lemma {:induction false} RunInv(s: Heap, ops: seq<Op>)
    requires Inv(s) && Run(s, ops)
    ensures Inv(End(s, ops))
    decreases |ops|
  {
    if ops == [] {
    } else {
      Step(s, ops[0]);
      RunInv(Apply(s, ops[0]), ops[1..]);
    }
  }

  lemma InitMatches(s: Heap, t: Tier)
    requires Init(s)
    ensures Matches(s, t, Ledger(0, 1))
  {
    assert Quiescent(s.pools.Of(t));
  }

  /** What the constructor builds is such a pool. */
  lemma NewPoolIsInit(pd: nat, supply: Supply)
    requires FullSupply(supply) && NewBuffers(Unbuilt(pd), supply)
    ensures FreshSupply(Unbuilt(pd), supply)
    ensures Init(Heap(Built(Unbuilt(pd), supply), {}))
  {
    UnbuiltInv(pd);
    BuildKeeps(Heap(Unbuilt(pd), {}), supply);
    var ps := Built(Unbuilt(pd), supply);
    forall t ensures Quiescent(ps.Of(t)) && |ps.Of(t).blocks| == Size(t) {
      TierFills(Unbuilt(pd), supply, t);
      UnbuiltTier(pd, supply, t);
    }
  }

  /** And all of it is registered in the domain given. */
  lemma NewPoolDomain(pd: nat, supply: Supply, t: Tier)
    ensures Built(Unbuilt(pd), supply).domain == pd
    ensures forall r :: r in Built(Unbuilt(pd), supply).Of(t).blocks ==> r.domain == pd
  {
    BuiltInTurn(Unbuilt(pd), supply);
  }

  lemma UnbuiltTier(pd: nat, supply: Supply, t: Tier)
    requires FullSupply(supply)
    ensures Built(Unbuilt(pd), supply).Of(t).useCount == 0
    ensures Unbuilt(pd).Of(t).blocks == {} && Unbuilt(pd).Of(t).free == []
  {
    BuiltInTurn(Unbuilt(pd), supply);
  }

  lemma UnbuiltInv(pd: nat)
    ensures Inv(Heap(Unbuilt(pd), {})) && forall t :: Unbuilt(pd).Of(t).blocks == {} && Unbuilt(pd).Of(t).free == []
  {
    assert Temps({}) == {};
  }

  lemma TierFills(ps: Pools, supply: Supply, t: Tier)
    requires FullSupply(supply) && FreshSupply(ps, supply)
    ensures Unaccounted(Built(ps, supply).Of(t)) == |ps.Of(t).blocks| - |ps.Of(t).free|
    ensures |Built(ps, supply).Of(t).blocks| == |ps.Of(t).blocks| + Size(t)
  {
    BuiltInTurn(ps, supply);
    FillOverOutstanding(ps.Of(t), NewBlocks(ps, t, supply));
  }

  /** Kept on the side for one tier: how many of its blocks were out when it was
      last filled, and how many fillings it holds. */
  datatype Ledger = Ledger(forgotten: int, fills: nat)

  ghost function Entered(s: Heap, op: Op, t: Tier, l: Ledger): Ledger {
    if !op.SetDomain? then l
    else if QuiescentUpTo(s.pools, t) then Ledger(0, 1)
    else Ledger(Out(s, t), l.fills + 1)
  }

  ghost function LedgerAfter(s: Heap, ops: seq<Op>, t: Tier, l: Ledger): Ledger
    requires Run(s, ops)
    decreases |ops|
  {
    if ops == [] then l else LedgerAfter(Apply(s, ops[0]), ops[1..], t, Entered(s, ops[0], t, l))
  }

  ghost predicate Matches(s: Heap, t: Tier, l: Ledger) {
    Unaccounted(s.pools.Of(t)) == l.forgotten && |s.pools.Of(t).blocks| == Size(t) * l.fills
  }

  /** What becomes of one tier, whatever becomes of the others. */
  lemma RebuiltIs(ps: Pools, pd: nat, supply: Supply, t: Tier)
    requires FullSupply(supply)
    ensures var rs := Blocks(Handles(supply, t), ps.Of(t).chunkSize, pd);
            && Rebuilt(ps, pd, supply).Of(t) == Filled(if QuiescentUpTo(ps, t) then Drained(ps.Of(t)) else ps.Of(t), rs)
            && rs == NewBlocks(ListDrained(ps).(domain := pd), t, supply) && |rs| == Size(t)
  {
    DrainedUpTo(ps, t);
    BuiltInTurn(ListDrained(ps).(domain := pd), supply);
  }

  lemma RebuiltTier(s: Heap, pd: nat, supply: Supply, t: Tier)
    requires Inv(s) && Enabled(s, SetDomain(pd, supply))
    ensures var p, p' := s.pools.Of(t), Rebuilt(s.pools, pd, supply).Of(t);
            var rs := Blocks(Handles(supply, t), p.chunkSize, pd);
            && |rs| == Size(t)
            && if QuiescentUpTo(s.pools, t) then Quiescent(p) && Replaced(p, p', rs) else Grown(p, p', rs, Out(s, t))
  {
    SetDomainStep(s, pd, supply);
    DrainedUpTo(s.pools, t);
    RebuiltIs(s.pools, pd, supply, t);
    AllBackMeansNoneHeld(s.pools.Of(t), s.held);
    TierChange(s.pools.Of(t), QuiescentUpTo(s.pools, t), Blocks(Handles(supply, t), s.pools.Of(t).chunkSize, pd),
               Rebuilt(s.pools, pd, supply).Of(t));
  }

  /** A tier replaced by new blocks: as many free as it has, none counted. */
  ghost predicate Replaced(p: Pool, p': Pool, rs: seq<Region>) {
    p' == p.(free := rs, blocks := Elements(rs), useCount := 0) && |p'.blocks| == |rs| && Unaccounted(p') == 0
  }

  /** A tier that new blocks were added to: past its maximum, its old blocks
      still in it, and the number then out forgotten, so that, if there were
      any, no push and no pop makes it drainable again. */
  ghost predicate Grown(p: Pool, p': Pool, rs: seq<Region>, out: nat) {
    && p' == p.(free := p.free + rs, blocks := p.blocks + Elements(rs), useCount := 0)
    && |p'.blocks| == |p.blocks| + |rs|
    && Unaccounted(p') == out
    && (out > 0 ==> forall acts :: !Quiescent(After(p', acts)))
  }

  lemma TierChange(p: Pool, drained: bool, rs: seq<Region>, p': Pool)
    requires (drained ==> Quiescent(p)) && |p.blocks| >= |p.free|
    requires FreshFor(if drained then Drained(p) else p, rs)
    requires p' == Filled(if drained then Drained(p) else p, rs)
    ensures if drained then Replaced(p, p', rs) else Grown(p, p', rs, |p.blocks| - |p.free|)
  {
    if drained {
      DrainThenFill(p, rs);
      DistinctSize(rs);
    } else {
      FillOverOutstanding(p, rs);
      forall acts | |p.blocks| > |p.free| ensures !Quiescent(After(p', acts)) {
        UnaccountedForever(p', acts);
      }
    }
  }

  lemma LedgerStep(s: Heap, op: Op, t: Tier, l: Ledger)
    requires Inv(s) && Enabled(s, op) && Matches(s, t, l)
    ensures Matches(Apply(s, op), t, Entered(s, op, t, l))
  {
    if op.SetDomain? {
      RebuiltTier(s, op.pd, op.supply, t);
      var p, p' := s.pools.Of(t), Rebuilt(s.pools, op.pd, op.supply).Of(t);
      FillCounts(p, p', Blocks(Handles(op.supply, t), p.chunkSize, op.pd),
                 QuiescentUpTo(s.pools, t), Out(s, t), l.fills, Size(t));
    } else {
      SameAccounts(s, op, t);
    }
  }

  lemma FillCounts(p: Pool, p': Pool, rs: seq<Region>, drained: bool, out: nat, fills: nat, size: nat)
    requires |p.blocks| == size * fills && |rs| == size
    requires if drained then Replaced(p, p', rs) else Grown(p, p', rs, out)
    ensures Unaccounted(p') == if drained then 0 else out
    ensures |p'.blocks| == size * if drained then 1 else fills + 1
  {
  }

  /** A push or a pop moves a block; what is unaccounted for stays so. */
  lemma SameAccounts(s: Heap, op: Op, t: Tier)
    requires Enabled(s, op) && !op.SetDomain?
    ensures Unaccounted(Apply(s, op).pools.Of(t)) == Unaccounted(s.pools.Of(t))
    ensures Apply(s, op).pools.Of(t).blocks == s.pools.Of(t).blocks
  {
  }

  lemma {:induction false} LedgerRun(s: Heap, ops: seq<Op>, t: Tier, l: Ledger)
    requires Inv(s) && Run(s, ops) && Matches(s, t, l)
    ensures Matches(End(s, ops), t, LedgerAfter(s, ops, t, l))
    decreases |ops|
  {
    if ops == [] {
    } else {
      Step(s, ops[0]);
      LedgerStep(s, ops[0], t, l);
      LedgerRun(Apply(s, ops[0]), ops[1..], t, Entered(s, ops[0], t, l));
    }
  }

  /** Every change of the protection domain found all blocks back. */
  ghost predicate Punctual(s: Heap, ops: seq<Op>)
    requires Run(s, ops)
    decreases |ops|
  {
    ops == [] || ((ops[0].SetDomain? ==> QuiescentUpTo(s.pools, Large)) && Punctual(Apply(s, ops[0]), ops[1..]))
  }

  lemma {:induction false} PunctualLedger(s: Heap, ops: seq<Op>, t: Tier)
    requires Run(s, ops) && Punctual(s, ops)
    ensures LedgerAfter(s, ops, t, Ledger(0, 1)) == Ledger(0, 1)
    decreases |ops|
  {
    if ops == [] {
    } else {
      PunctualLedger(Apply(s, ops[0]), ops[1..], t);
    }
  }

  /** In every reachable state: a tier's free list is its blocks that no caller
      holds; its use count is the number held, short by those that were out when
      it was last filled; it holds one complement of blocks for each filling
      since it was last drained; it can be drained exactly when nothing is out
      and nothing was forgotten. temp_regions counts the live temporary blocks,
      and the index leads each live block's address to that block, stale entries
      notwithstanding. With every domain change punctual nothing is forgotten. */
  lemma ReachableHeap(s0: Heap, ops: seq<Op>, t: Tier)
    requires Init(s0) && Run(s0, ops)
    ensures var s, l := End(s0, ops), LedgerAfter(s0, ops, t, Ledger(0, 1));
            var p := s.pools.Of(t);
            && Elements(p.free) == p.blocks - s.held && Distinct(p.free)
            && p.useCount == Out(s, t) - l.forgotten
            && |p.blocks| == Size(t) * l.fills
            && (Quiescent(p) <==> Out(s, t) == 0 == l.forgotten)
            && s.pools.temps == |Temps(s.held)|
            && (forall r :: r in p.blocks ==> r.addr in s.pools.index && s.pools.index[r.addr] == r)
            && (Punctual(s0, ops) ==> l == Ledger(0, 1))
  {
    RunInv(s0, ops);
    InitMatches(s0, t);
    LedgerRun(s0, ops, t, Ledger(0, 1));
    if Punctual(s0, ops) {
      PunctualLedger(s0, ops, t);
    }
    var s := End(s0, ops);
    AllBackMeansNoneHeld(s.pools.Of(t), s.held);
    forall r | r in s.pools.Of(t).blocks ensures Owner(s.pools, r).Some? {
      OwnerOf(s, r, t);
    }
  }

  /** Over every reachable state, what the index has for an address is a block of
      the pool exactly when the address is that of some live block: of all its
      stale entries none can be mistaken for a live one, and none hides one. */
  lemma IndexExact(s0: Heap, ops: seq<Op>, a: nat)
    requires Init(s0) && Run(s0, ops)
    ensures var ps := End(s0, ops).pools;
            a in ps.index && Owner(ps, ps.index[a]).Some? <==> exists r :: Owner(ps, r).Some? && r.addr == a
  {
    RunInv(s0, ops);
    var ps := End(s0, ops).pools;
    if a in ps.index {
      assert ps.index[a].addr == a;
    }
  }

  /** A region is big enough for the request it answers, and giving it back
      at once restores the pool exactly, whatever the length. */
  lemma RoutingRoundTrip(s: Heap, length: nat, h: Handle)
    requires Inv(s) && Enabled(s, Allocate(length, h))
    ensures var r, s' := Issued(s.pools, length, h), Apply(s, Allocate(length, h));
            && r.length >= length
            && r in s'.held && !AlreadyFree(s'.pools, r)
            && Apply(s', Deallocate(r)) == s
  {
    var r, s' := Issued(s.pools, length, h), Apply(s, Allocate(length, h));
    match Route(s.pools, length) {
      case Some(t) => TierRoundTrip(s, t, r);
      case None =>
    }
    assert s'.held - {r} == s.held;
  }

  /** The smallest fit: a request gets a block no longer than any chunk it would
      fit in, one of the pool's; above all chunks it gets a temporary block of
      exactly its length, and no tier changes. */
  lemma SmallestFit(s: Heap, length: nat, h: Handle)
    requires Inv(s) && Enabled(s, Allocate(length, h))
    ensures var r, s' := Issued(s.pools, length, h), Apply(s, Allocate(length, h));
            && (forall t :: length <= s.pools.Of(t).chunkSize ==> r.length <= s.pools.Of(t).chunkSize)
            && ((exists t :: length <= s.pools.Of(t).chunkSize) ==> !r.temp && !r.user && Owner(s.pools, r).Some?)
            && ((forall t :: length > s.pools.Of(t).chunkSize) ==>
                  r.temp && !r.user && r.length == length && forall t :: s'.pools.Of(t) == s.pools.Of(t))
  {
    ByTier(s.pools);
    match Route(s.pools, length)
    case Some(t) =>
      TierPop(s.pools.Of(t), s.held);
      OwnerOf(s, Top(s.pools.Of(t)), t);
    case None =>
      forall t ensures length > s.pools.Of(t).chunkSize {
        match t
        case Small => case Medium => case Large =>
      }
  }

  lemma ByTier(ps: Pools)
    ensures ps.Of(Small) == ps.small && ps.Of(Medium) == ps.medium && ps.Of(Large) == ps.large
  {
  }

  /** Of the tiers a length fits in, the one with the smallest chunks. */
  ghost predicate SmallestFor(ps: Pools, length: nat, t: Tier) {
    && length <= ps.Of(t).chunkSize
    && forall u :: length <= ps.Of(u).chunkSize ==> ps.Of(t).chunkSize <= ps.Of(u).chunkSize
  }

  /** A request waits exactly when the smallest tier it fits in has no free block,
      whatever the larger ones have; one that fits in none never waits. */
  lemma WaitsExactly(s: Heap, length: nat)
    requires Inv(s)
    ensures !CanAllocate(s.pools, length) <==>
              exists t :: SmallestFor(s.pools, length, t) && s.pools.Of(t).free == []
  {
    ByTier(s.pools);
    match Route(s.pools, length)
    case Some(t) =>
      forall u | length <= s.pools.Of(u).chunkSize ensures s.pools.Of(t).chunkSize <= s.pools.Of(u).chunkSize {
        match u
        case Small => case Medium => case Large =>
      }
      assert SmallestFor(s.pools, length, t);
      if v :| SmallestFor(s.pools, length, v) && s.pools.Of(v).free == [] {
        assert s.pools.Of(v).chunkSize <= s.pools.Of(t).chunkSize;
        assert v == t;
      }
    case None =>
      forall t ensures length > s.pools.Of(t).chunkSize {
        match t
        case Small => case Medium => case Large =>
      }
  }

  /** The protection domain last set, or the first. */
  function LastDomain(first: nat, ops: seq<Op>): nat
    decreases |ops|
  {
    if ops == [] then first
    else LastDomain(if ops[0].SetDomain? then ops[0].pd else first, ops[1..])
  }

  lemma {:induction false} DomainIsLast(s: Heap, ops: seq<Op>)
    requires Run(s, ops)
    ensures End(s, ops).pools.domain == LastDomain(s.pools.domain, ops)
    ensures End(s, ops).pools.large.chunkSize == s.pools.large.chunkSize
    decreases |ops|
  {
    if ops == [] {
    } else {
      DomainStep(s, ops[0]);
      DomainIsLast(Apply(s, ops[0]), ops[1..]);
    }
  }

  lemma DomainStep(s: Heap, op: Op)
    requires Enabled(s, op)
    ensures Apply(s, op).pools.domain == if op.SetDomain? then op.pd else s.pools.domain
    ensures Apply(s, op).pools.large.chunkSize == s.pools.large.chunkSize
  {
  }

  /** Over every run, a temporary block is where the environment put it, exactly
      as long as asked for, and registered in the domain last set. */
  lemma TemporaryBlocks(s0: Heap, ops: seq<Op>, length: nat, h: Handle)
    requires Init(s0) && Run(s0, ops) && length > s0.pools.large.chunkSize
    ensures CanAllocate(End(s0, ops).pools, length)
    ensures Issued(End(s0, ops).pools, length, h)
            == Region(h.ptr, h.addr, length, false, true, LastDomain(s0.pools.domain, ops))
  {
    RunInv(s0, ops);
    DomainIsLast(s0, ops);
  }

  /** The tier a returned region goes to is told by the low 32 bits of its length. */
  lemma LowBitsRoute(ps: Pools, r: Region, k: nat)
    ensures var long := r.(length := r.length + k * UINT32);
            !r.temp && !r.user ==>
              match Route(ps, r.Length32())
              case Some(t) => Deallocated(ps, long) == ps.With(t, Pushed(ps.Of(t), long))
              case None => Deallocated(ps, long) == ps
  {
    LowBits(r.length, k);
  }

  lemma {:induction false} LowBits(n: nat, k: nat)
    ensures (n + k * UINT32) % UINT32 == n % UINT32
  {
    if k == 0 {
    } else {
      LowBits(n, k - 1);
      assert n + k * UINT32 == n + (k - 1) * UINT32 + UINT32;
    }
  }

  lemma TierRoundTrip(s: Heap, t: Tier, r: Region)
    requires Inv(s) && s.pools.Of(t).free != [] && r == Top(s.pools.Of(t))
    ensures r.length == s.pools.Of(t).chunkSize && r !in s.held
    ensures var ps := s.pools.With(t, Popped(s.pools.Of(t)));
            Deallocated(ps, r) == s.pools && !AlreadyFree(ps, r)
  {
    TierPop(s.pools.Of(t), s.held);
    OwnerOf(s, r, t);
    assert Popped(s.pools.Of(t)).free + [r] == s.pools.Of(t).free;
  }

  /** However long a block was out, it goes back to the tier that owns it and
      no other tier changes; a temporary or user region touches no tier. */
  lemma ReturnsToOwner(s: Heap, r: Region)
    requires Inv(s) && r in s.held
    ensures match Owner(s.pools, r)
            case Some(t) => Deallocated(s.pools, r) == s.pools.With(t, Pushed(s.pools.Of(t), r))
              && r !in s.pools.Of(t).free
            case None => Deallocated(s.pools, r) == s.pools.(temps := |Temps(s.held - {r})|)
  {
    DeallocateStep(s, r);
    match Owner(s.pools, r)
    case Some(t) => OwnerOf(s, r, t);
    case None =>
  }

  /** And returning a block of the pool that no caller holds would put it on its
      free list a second time, which ends the process. */
  lemma ReturnedTwice(s: Heap, r: Region)
    requires Inv(s) && Owner(s.pools, r).Some? && r !in s.held
    ensures AlreadyFree(s.pools, r)
  {
    OwnerOf(s, r, Owner(s.pools, r).value);
  }

  /** The char* interface: for every length up to the largest chunk, freeing by
      address finds the block allocated and restores the pool. */
  lemma BytesRoundTrip(s: Heap, length: nat)
    requires Inv(s) && length <= s.pools.large.chunkSize && CanAllocate(s.pools, length)
    ensures var r, s' := Issued(s.pools, length, Handle(0, 0)), Apply(s, Allocate(length, Handle(0, 0)));
            && r.addr in s'.pools.index && s'.pools.index[r.addr] == r
            && Enabled(s', DeallocateAddress(r.addr)) && Apply(s', DeallocateAddress(r.addr)) == s
  {
    RoutingRoundTrip(s, length, Handle(0, 0));
    AllocateStep(s, length, Handle(0, 0));
    var r, s' := Issued(s.pools, length, Handle(0, 0)), Apply(s, Allocate(length, Handle(0, 0)));
    OwnerOf(s, r, Route(s.pools, length).value);
    TierPop(s.pools.Of(Route(s.pools, length).value), s.held);
    assert Owner(s'.pools, r) == Owner(s.pools, r);
    assert r in s'.held && Owner(s'.pools, r).Some?;
  }

  /** From every reachable pool with all blocks back, setProtectionDomain gives
      full tiers of the original sizes, none counted as used, every block new and
      in the new domain, and nothing left of the old ones in the tier. */
  lemma LifeCycle(s0: Heap, ops: seq<Op>, pd: nat, supply: Supply, t: Tier)
    requires Init(s0) && Run(s0, ops) && Enabled(End(s0, ops), SetDomain(pd, supply))
    requires forall u :: Quiescent(End(s0, ops).pools.Of(u))
    ensures Renewed(End(s0, ops).pools.Of(t), Apply(End(s0, ops), SetDomain(pd, supply)).pools.Of(t), pd, Size(t))
    ensures Punctual(s0, ops) ==> |End(s0, ops).pools.Of(t).blocks| == Size(t)
  {
    var s := End(s0, ops);
    ReachableHeap(s0, ops, t);
    RunInv(s0, ops);
    LifeCycleTier(s, pd, supply, t);
  }

  lemma LifeCycleTier(s: Heap, pd: nat, supply: Supply, t: Tier)
    requires Inv(s) && Enabled(s, SetDomain(pd, supply)) && forall u :: Quiescent(s.pools.Of(u))
    ensures Renewed(s.pools.Of(t), Apply(s, SetDomain(pd, supply)).pools.Of(t), pd, Size(t))
  {
    assert Quiescent(s.pools.Of(Small)) && Quiescent(s.pools.Of(Medium)) && Quiescent(s.pools.Of(Large));
    RebuiltTier(s, pd, supply, t);
    var p := s.pools.Of(t);
    ReplacedIsRenewed(p, Rebuilt(s.pools, pd, supply).Of(t), Handles(supply, t), pd);
  }

  lemma ReplacedIsRenewed(p: Pool, p': Pool, hs: seq<Handle>, pd: nat)
    requires Replaced(p, p', Blocks(hs, p.chunkSize, pd))
    ensures Renewed(p, p', pd, |hs|)
  {
  }

  ghost predicate Renewed(p: Pool, p': Pool, pd: nat, size: nat) {
    && |p'.free| == |p'.blocks| == size && Elements(p'.free) == p'.blocks && p'.useCount == 0
    && p'.chunkSize == p.chunkSize
    && (forall r :: r in p'.blocks ==> r.domain == pd && r.length == p.chunkSize)
  }

  /** Nothing removes an entry from the index: unless a new buffer lands on the
      same address, a released block is still found under its old address. */
  lemma StaleEntries(s: Heap, pd: nat, supply: Supply, r: Region, t: Tier)
    requires Inv(s) && Enabled(s, SetDomain(pd, supply))
    requires Owner(s.pools, r) == Some(t) && QuiescentUpTo(s.pools, t)
    requires forall u, h :: h in Handles(supply, u) ==> h.addr != r.addr
    ensures var ps := Rebuilt(s.pools, pd, supply);
            r.addr in ps.index && ps.index[r.addr] == r && Owner(ps, r) == None
  {
    var d := ListDrained(s.pools).(domain := pd);
    DrainedAway(s, r, t);
    assert forall q :: Owner(d, q) == Owner(ListDrained(s.pools), q);
    IndexElsewhere(d, supply, r);
  }

  lemma IndexElsewhere(ps: Pools, supply: Supply, r: Region)
    requires NewBuffers(ps, supply) && forall u, h :: h in Handles(supply, u) ==> h.addr != r.addr
    ensures r.addr in ps.index ==>
              r.addr in Built(ps, supply).index && Built(ps, supply).index[r.addr] == ps.index[r.addr]
    ensures Owner(ps, r) == None ==> Owner(Built(ps, supply), r) == None
  {
    NewBlocksApart(ps, supply);
    NotAt(ps, supply, Small, r.addr);
    NotAt(ps, supply, Medium, r.addr);
    NotAt(ps, supply, Large, r.addr);
    BuiltInTurn(ps, supply);
    FilledElsewhere(ps, NewBlocks(ps, Small, supply), Small, r);
    var one := FilledWith(ps, Small, NewBlocks(ps, Small, supply));
    FilledElsewhere(one, NewBlocks(ps, Medium, supply), Medium, r);
    FilledElsewhere(FilledWith(one, Medium, NewBlocks(ps, Medium, supply)), NewBlocks(ps, Large, supply), Large, r);
  }

  lemma FilledElsewhere(ps: Pools, rs: seq<Region>, t: Tier, r: Region)
    requires forall i, j :: 0 <= i < j < |rs| ==> rs[i].addr != rs[j].addr
    requires forall q :: q in rs ==> q.addr != r.addr
    ensures var ps' := FilledWith(ps, t, rs);
            && (r.addr in ps.index ==> r.addr in ps'.index && ps'.index[r.addr] == ps.index[r.addr])
            && (Owner(ps, r) == None ==> Owner(ps', r) == None)
  {
    IndexedLookup(ps.index, rs);
  }

  lemma NotAt(ps: Pools, supply: Supply, t: Tier, a: nat)
    requires forall h :: h in Handles(supply, t) ==> h.addr != a
    ensures forall q :: q in NewBlocks(ps, t, supply) ==> q.addr != a
  {
    forall i | 0 <= i < |Handles(supply, t)| ensures NewBlocks(ps, t, supply)[i].addr != a {
      assert Handles(supply, t)[i] in Handles(supply, t);
    }
  }

  /** setProtectionDomain does not look at what DeallocateList answers. From
      every reachable state, a tier is replaced exactly when it and every smaller
      tier can be drained; any other tier grows. */
  lemma DomainChangeExact(s0: Heap, ops: seq<Op>, pd: nat, supply: Supply, t: Tier)
    requires Init(s0) && Run(s0, ops) && Enabled(End(s0, ops), SetDomain(pd, supply))
    ensures TierOutcome(End(s0, ops), pd, supply, t)
  {
    RunInv(s0, ops);
    ReachableHeap(s0, ops, t);
    LedgerHasFills(s0, ops, t, Ledger(0, 1));
    assert |End(s0, ops).pools.Of(t).blocks| > 0;
    DomainChangeTier(End(s0, ops), pd, supply, t);
  }

  ghost predicate TierOutcome(s: Heap, pd: nat, supply: Supply, t: Tier) {
    var p, p' := s.pools.Of(t), Rebuilt(s.pools, pd, supply).Of(t);
    var rs := Blocks(Handles(supply, t), p.chunkSize, pd);
    && (QuiescentUpTo(s.pools, t) <==> Replaced(p, p', rs))
    && (!QuiescentUpTo(s.pools, t) <==> Grown(p, p', rs, Out(s, t)))
  }

  lemma DomainChangeTier(s: Heap, pd: nat, supply: Supply, t: Tier)
    requires Inv(s) && Enabled(s, SetDomain(pd, supply)) && s.pools.Of(t).blocks != {}
    ensures TierOutcome(s, pd, supply, t)
  {
    RebuiltTier(s, pd, supply, t);
    var p, p' := s.pools.Of(t), Rebuilt(s.pools, pd, supply).Of(t);
    var rs := Blocks(Handles(supply, t), p.chunkSize, pd);
    if Replaced(p, p', rs) {
      assert |p.blocks| > 0;
      assert !Grown(p, p', rs, Out(s, t));
    }
  }

  lemma {:induction false} LedgerHasFills(s: Heap, ops: seq<Op>, t: Tier, l: Ledger)
    requires Run(s, ops) && l.fills > 0
    ensures LedgerAfter(s, ops, t, l).fills > 0
    decreases |ops|
  {
    if ops == [] {
    } else {
      LedgerHasFills(Apply(s, ops[0]), ops[1..], t, Entered(s, ops[0], t, l));
    }
  }

  /** A reachable pool that grows: one block out when the domain changes is
      enough, and since it is a small one, all three tiers grow. */
  lemma OneBlockOutGrowsAll(s0: Heap, h: Handle, pd: nat, supply: Supply)
    requires Init(s0)
    requires Enabled(s0, Allocate(0, h)) && Enabled(Apply(s0, Allocate(0, h)), SetDomain(pd, supply))
    ensures var ops := [Allocate(0, h)];
            var s := Apply(s0, Allocate(0, h));
            && Run(s0, ops) && End(s0, ops) == s && Out(s, Small) == 1
            && (forall t :: !QuiescentUpTo(s.pools, t)
                            && Grown(s.pools.Of(t), Rebuilt(s.pools, pd, supply).Of(t),
                                     Blocks(Handles(supply, t), s.pools.Of(t).chunkSize, pd), Out(s, t)))
  {
    var s := Apply(s0, Allocate(0, h));
    var b := Top(s0.pools.small);
    AllocateStep(s0, 0, h);
    TierPop(s0.pools.small, s0.held);
    assert s.held == {b} && s.pools.small.blocks * s.held == {b};
    forall t ensures !QuiescentUpTo(s.pools, t)
                     && Grown(s.pools.Of(t), Rebuilt(s.pools, pd, supply).Of(t),
                              Blocks(Handles(supply, t), s.pools.Of(t).chunkSize, pd), Out(s, t)) {
      KeptOutNotQuiescent(s, b, t);
      RebuiltTier(s, pd, supply, t);
    }
  }

  // ------------------------------------------- blocks that never come back

  /** No call of the run returns this block, by region or by address. */
  ghost predicate NeverReturned(ops: seq<Op>, b: Region) {
    forall i :: 0 <= i < |ops| ==> ops[i] != Deallocate(b) && ops[i] != DeallocateAddress(b.addr)
  }

  function DomainChanges(ops: seq<Op>): nat {
    if ops == [] then 0 else (if ops[0].SetDomain? then 1 else 0) + DomainChanges(ops[1..])
  }

  lemma KeptOutNotQuiescent(s: Heap, b: Region, t: Tier)
    requires Inv(s) && b in s.held && b in s.pools.small.blocks
    ensures !QuiescentUpTo(s.pools, t)
  {
    AllBackMeansNoneHeld(s.pools.small, s.held);
  }

  lemma KeptStep(s: Heap, op: Op, b: Region)
    requires Inv(s) && Enabled(s, op) && b in s.held && b in s.pools.small.blocks
    requires op != Deallocate(b) && op != DeallocateAddress(b.addr)
    ensures b in Apply(s, op).held && b in Apply(s, op).pools.small.blocks
  {
    match op
    case SetDomain(pd, supply) =>
      KeptOutNotQuiescent(s, b, Small);
      RebuiltIs(s.pools, pd, supply, Small);
      assert Apply(s, op).pools.small == Rebuilt(s.pools, pd, supply).Of(Small);
    case DeallocateAddress(addr) =>
      IndexFindsOwner(s, addr);
      assert s.pools.index[addr].addr == addr;
      SameAccounts(s, op, Small);
    case _ => SameAccounts(s, op, Small);
  }

  /** One small block that never comes back, as those stranded on a closed
      connection do not, and no tier is ever drained again: every later change
      of the domain adds a full complement to all three. */
  lemma KeptBlockGrowsAll(s: Heap, ops: seq<Op>, b: Region, t: Tier, l: Ledger)
    requires Inv(s) && Run(s, ops) && b in s.held && b in s.pools.small.blocks && NeverReturned(ops, b)
    requires Matches(s, t, l)
    ensures b in End(s, ops).held && b in End(s, ops).pools.small.blocks
    ensures |End(s, ops).pools.Of(t).blocks| == Size(t) * (l.fills + DomainChanges(ops))
  {
    KeptBlockFills(s, ops, b, t, l);
    LedgerRun(s, ops, t, l);
  }

  lemma {:induction false} KeptBlockFills(s: Heap, ops: seq<Op>, b: Region, t: Tier, l: Ledger)
    requires Inv(s) && Run(s, ops) && b in s.held && b in s.pools.small.blocks && NeverReturned(ops, b)
    ensures b in End(s, ops).held && b in End(s, ops).pools.small.blocks
    ensures LedgerAfter(s, ops, t, l).fills == l.fills + DomainChanges(ops)
    decreases |ops|
  {
    if ops == [] {
    } else {
      Step(s, ops[0]);
      KeptStep(s, ops[0], b);
      KeptOutNotQuiescent(s, b, t);
      KeptBlockFills(Apply(s, ops[0]), ops[1..], b, t, Entered(s, ops[0], t, l));
    }
  }
}
