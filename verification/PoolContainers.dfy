/** One tier of the pinned-memory pool: pool_container as a mutable object, and
    the value it holds with the two critical sections `Pushed` and `Popped`. The
    object is used by one thread here; PoolProtocol interleaves the same two
    critical sections under the mutex and the condition variable. */
module PoolContainers {
  import opened Collections
  import opened Regions

  datatype Pool = Pool(chunkSize: nat, maxChunks: nat,
                       free: seq<Region>, blocks: set<Region>, useCount: int)

  function Pushed(p: Pool, r: Region): Pool {
    p.(free := p.free + [r], useCount := p.useCount - 1)
  }

  function Top(p: Pool): Region
    requires p.free != []
  {
    p.free[|p.free| - 1]
  }

  function Popped(p: Pool): Pool
    requires p.free != []
  {
    p.(free := p.free[..|p.free| - 1], useCount := p.useCount + 1)
  }

  /** The blocks a run of the allocation callback delivers before its first failure. */
  function Delivered(supply: seq<Option<Region>>): seq<Region> {
    if supply == [] || supply[0].None? then []
    else [supply[0].value] + Delivered(supply[1..])
  }

  /** Every block is accounted for, once. */
  ghost predicate Balanced(p: Pool) {
    && Distinct(p.free)
    && Elements(p.free) <= p.blocks
    && |p.free| + p.useCount == |p.blocks|
  }

  /** The test DeallocatePool makes before it lets go of anything. */
  predicate Quiescent(p: Pool) {
    |p.free| == |p.blocks| && p.useCount == 0
  }

  function Drained(p: Pool): Pool {
    if Quiescent(p) then p.(free := [], blocks := {}, useCount := |p.free|) else p
  }

  function Filled(p: Pool, regions: seq<Region>): Pool {
    p.(free := p.free + regions, blocks := p.blocks + Elements(regions), useCount := 0)
  }

  /** A callback that makes new blocks: none repeated, none already in the pool. */
  ghost predicate FreshFor(p: Pool, regions: seq<Region>) {
    && Distinct(regions)
    && (forall r :: r in regions ==> r !in p.blocks && r !in p.free)
  }

  /** Draining a pool whose blocks are all back and filling it with as many new
      ones gives a full pool again, with nothing of the old one left. The use
      count is off by the whole pool in between. */
  lemma DrainThenFill(p: Pool, regions: seq<Region>)
    requires Quiescent(p) && Distinct(regions)
    ensures Drained(p).useCount == |p.blocks|
    ensures Filled(Drained(p), regions) == p.(free := regions, blocks := Elements(regions), useCount := 0)
    ensures Balanced(Filled(Drained(p), regions)) && Quiescent(Filled(Drained(p), regions))
  {
    assert [] + regions == regions;
    DistinctSize(regions);
  }

  /** Blocks that neither the free list nor the use count knows about. Zero when
      the accounts balance. */
  function Unaccounted(p: Pool): int {
    |p.blocks| - |p.free| - p.useCount
  }

  /** Any mixture of pushes (`Some`) and pops (`None`); a pop of an empty pool is
      still waiting, so it leaves the pool as it is. */
  function After(p: Pool, acts: seq<Option<Region>>): Pool
    decreases |acts|
  {
    if acts == [] then p
    else match acts[0]
      case Some(r) => After(Pushed(p, r), acts[1..])
      case None => After(if p.free == [] then p else Popped(p), acts[1..])
  }

  /** Pushing and popping cannot mend the accounts: a pool that once forgot
      blocks refuses DeallocatePool for ever, even with every block returned. */
  lemma {:induction false} UnaccountedForever(p: Pool, acts: seq<Option<Region>>)
    ensures Unaccounted(After(p, acts)) == Unaccounted(p)
    ensures Unaccounted(p) != 0 ==> !Quiescent(After(p, acts)) && Drained(After(p, acts)) == After(p, acts)
    decreases |acts|
  {
    if acts == [] {
    } else {
      match acts[0]
      case Some(r) => UnaccountedForever(Pushed(p, r), acts[1..]);
      case None => UnaccountedForever(if p.free == [] then p else Popped(p), acts[1..]);
    }
  }

  /** Both ways of forgetting blocks: filling a pool forgets those that are out,
      whatever was forgotten before; and a filling that stops at a failed
      allocation forgets those it had pushed. */
  lemma FillOverOutstanding(p: Pool, regions: seq<Region>)
    requires FreshFor(p, regions)
    ensures Unaccounted(Filled(p, regions)) == |p.blocks| - |p.free|
    ensures |Filled(p, regions).blocks| == |p.blocks| + |regions|
    ensures Unaccounted(Filled(p, regions).(useCount := p.useCount - |regions|)) == Unaccounted(p) + |regions|
  {
    DistinctSize(regions);
    assert p.blocks !! Elements(regions);
  }

  class PoolContainer {
    const chunkSize: nat
    const maxChunks: nat
    var freeList: seq<Region>
    var blockList: set<Region>
    var useCount: int

    constructor (chunkSize: nat, items: nat)
      ensures View() == Pool(chunkSize, items, [], {}, 0)
    {
      this.chunkSize, maxChunks := chunkSize, items;
      freeList, blockList, useCount := [], {}, 0;
    }

    ghost function View(): Pool
      reads this
    {
      Pool(chunkSize, maxChunks, freeList, blockList, useCount)
    }

    /** `supply` is what the callback answers, call by call; an empty answer
        stops the loop with the blocks so far pushed and the count below zero
        by as many. */
    method AllocatePool(supply: seq<Option<Region>>) returns (ok: bool)
      requires FreshFor(View(), Delivered(supply))
      modifies this
      ensures ok <==> forall i :: 0 <= i < |supply| ==> supply[i].Some?
      ensures |Delivered(supply)| <= |supply| && (ok <==> |Delivered(supply)| == |supply|)
      ensures ok ==> View() == Filled(old(View()), Delivered(supply))
      ensures !ok ==> View() == Filled(old(View()), Delivered(supply)).(
                                  useCount := old(useCount) - |Delivered(supply)|)
    {
      ghost var all := Delivered(supply);
      DeliveredSize(supply);
      for i := 0 to |supply|
        invariant i <= |all|
        invariant freeList == old(freeList) + all[..i]
        invariant blockList == old(blockList) + Elements(all[..i])
        invariant useCount == old(useCount) - i
        invariant forall j :: 0 <= j < i ==> supply[j].Some?
      {
        if supply[i].None? {
          assert all[..i] == all;
          return false;
        }
        var region := supply[i].value;
        assert all[..i + 1] == all[..i] + [region];
        blockList := blockList + {region};
        var terminated := Push(region);
        assert !terminated;
      }
      assert all[..|supply|] == all;
      useCount := 0;
      return true;
    }

    /** Lets go of every block, but only when all are back. */
    method DeallocatePool() returns (done: int)
      modifies this
      ensures View() == Drained(old(View()))
      ensures done == if Quiescent(old(View())) then 1 else 0
    {
      if |freeList| != |blockList| || useCount != 0 {
        return 0;
      }
      while freeList != []
        invariant useCount == |old(freeList)| - |freeList|
        invariant blockList == old(blockList)
      {
        var _ := Pop();
      }
      blockList := {};
      return 1;
    }

    /** Pushing a block that is on the free list ends the process (debug
        builds look for it); otherwise the block goes on top. */
    method Push(region: Region) returns (terminated: bool)
      modifies this
      ensures terminated <==> region in old(freeList)
      ensures View() == if terminated then old(View()) else Pushed(old(View()), region)
    {
      var it := 0;
      while it < |freeList|
        invariant 0 <= it <= |freeList|
        invariant region !in freeList[..it]
      {
        if freeList[it] == region {
          return true;
        }
        it := it + 1;
      }
      freeList := freeList + [region];
      useCount := useCount - 1;
      return false;
    }

    /** Past the wait: the condition the caller waited for is the precondition. */
    method Pop() returns (region: Region)
      requires freeList != []
      modifies this
      ensures region == Top(old(View())) && View() == Popped(old(View()))
    {
      region := freeList[|freeList| - 1];
      freeList := freeList[..|freeList| - 1];
      useCount := useCount + 1;
    }
  }

  lemma {:induction false} DeliveredSize(supply: seq<Option<Region>>)
    ensures |Delivered(supply)| <= |supply|
    ensures |Delivered(supply)| == |supply| <==> forall i :: 0 <= i < |supply| ==> supply[i].Some?
    ensures forall i :: 0 <= i < |Delivered(supply)| ==> supply[i] == Some(Delivered(supply)[i])
    ensures |Delivered(supply)| < |supply| ==> supply[|Delivered(supply)|].None?
  {
    if supply == [] || supply[0].None? {
    } else {
      DeliveredSize(supply[1..]);
      assert supply == [supply[0]] + supply[1..];
    }
  }
}
