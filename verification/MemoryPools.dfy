/** RdmaMemoryPool: three tiers of equal blocks, temporary blocks for what is
    too long for any tier, an index from buffer addresses to blocks, and the
    rebuilding of everything when the protection domain changes. */
module MemoryPools {
  import opened Collections
  import opened Regions
  import opened PoolContainers

  const SMALL_CHUNK: nat := 0x1000
  const MEDIUM_CHUNK: nat := 0x4000
  const LARGE_CHUNK: nat := 0x10_0000
  const SMALL_BLOCKS: nat := 64
  const MEDIUM_BLOCKS: nat := 16
  const LARGE_BLOCKS: nat := 4

  datatype Tier = Small | Medium | Large

  /** Where the environment put a new region object and its buffer. */
  datatype Handle = Handle(ptr: nat, addr: nat)

  datatype Supply = Supply(small: seq<Handle>, medium: seq<Handle>, large: seq<Handle>)

  /** Everything the pool object remembers. */
  datatype Pools = Pools(small: Pool, medium: Pool, large: Pool,
                         temps: int, index: map<nat, Region>, domain: nat)
  {
    function Of(t: Tier): Pool {
      match t case Small => small case Medium => medium case Large => large
    }

    function With(t: Tier, p: Pool): Pools {
      match t
      case Small => this.(small := p)
      case Medium => this.(medium := p)
      case Large => this.(large := p)
    }
  }

  /** The tier for a length; none for a length above the largest chunk. */
  function Route(ps: Pools, length: nat): Option<Tier> {
    if length <= ps.small.chunkSize then Some(Small)
    else if length <= ps.medium.chunkSize then Some(Medium)
    else if length <= ps.large.chunkSize then Some(Large)
    else None
  }

  function TempBlock(ps: Pools, length: nat, h: Handle): Region {
    Region(h.ptr, h.addr, length, false, true, ps.domain)
  }

  predicate CanAllocate(ps: Pools, length: nat) {
    match Route(ps, length)
    case Some(t) => ps.Of(t).free != []
    case None => true
  }

  /** The block handed out for a length, and the pool afterwards. */
  function Issued(ps: Pools, length: nat, h: Handle): Region
    requires CanAllocate(ps, length)
  {
    match Route(ps, length)
    case Some(t) => Top(ps.Of(t))
    case None => TempBlock(ps, length, h)
  }

  function Allocated(ps: Pools, length: nat): Pools
    requires CanAllocate(ps, length)
  {
    match Route(ps, length)
    case Some(t) => ps.With(t, Popped(ps.Of(t)))
    case None => ps.(temps := ps.temps + 1)
  }

  /** A region made on the fly or around a user's buffer is deleted; any other
      goes to the tier its 32-bit length asks for, if there is one. */
  function Deallocated(ps: Pools, r: Region): Pools {
    if r.temp || r.user then
      if r.temp then ps.(temps := ps.temps - 1) else ps
    else match Route(ps, r.Length32())
      case Some(t) => ps.With(t, Pushed(ps.Of(t), r))
      case None => ps
  }

  /** Returning this region would push it onto a free list it is already on. */
  predicate AlreadyFree(ps: Pools, r: Region) {
    !r.temp && !r.user
    && match Route(ps, r.Length32()) case Some(t) => r in ps.Of(t).free case None => false
  }

  // ------------------------------------------------- protection domain change

  function Blocks(hs: seq<Handle>, chunk: nat, domain: nat): (rs: seq<Region>)
    ensures |rs| == |hs|
  {
    seq(|hs|, i requires 0 <= i < |hs| => Region(hs[i].ptr, hs[i].addr, chunk, false, false, domain))
  }

  function Indexed(index: map<nat, Region>, rs: seq<Region>): map<nat, Region> {
    if rs == [] then index
    else var last := |rs| - 1; Indexed(index, rs[..last])[rs[last].addr := rs[last]]
  }

  function Handles(supply: Supply, t: Tier): seq<Handle> {
    match t case Small => supply.small case Medium => supply.medium case Large => supply.large
  }

  function NewBlocks(ps: Pools, t: Tier, supply: Supply): seq<Region> {
    Blocks(Handles(supply, t), ps.Of(t).chunkSize, ps.domain)
  }

  function FilledTier(ps: Pools, t: Tier, supply: Supply): Pools {
    ps.With(t, Filled(ps.Of(t), NewBlocks(ps, t, supply)))
      .(index := Indexed(ps.index, NewBlocks(ps, t, supply)))
  }

  function Built(ps: Pools, supply: Supply): Pools {
    FilledTier(FilledTier(FilledTier(ps, Small, supply), Medium, supply), Large, supply)
  }

  /** DeallocateList stops at the first tier that still has blocks out. */
  function ListDrained(ps: Pools): Pools {
    if !Quiescent(ps.small) then ps
    else if !Quiescent(ps.medium) then ps.(small := Drained(ps.small))
    else ps.(small := Drained(ps.small), medium := Drained(ps.medium), large := Drained(ps.large))
  }

  /** setProtectionDomain goes on to build whether or not the list was drained. */
  function Rebuilt(ps: Pools, pd: nat, supply: Supply): Pools {
    Built(ListDrained(ps).(domain := pd), supply)
  }

  predicate FullSupply(supply: Supply) {
    |supply.small| == SMALL_BLOCKS && |supply.medium| == MEDIUM_BLOCKS && |supply.large| == LARGE_BLOCKS
  }

  /** The environment's side: no new block is one the pool still owns. */
  ghost predicate FreshSupply(ps: Pools, supply: Supply) {
    forall t :: FreshFor(ps.Of(t), NewBlocks(ps, t, supply))
  }

  class MemoryPool {
    const small: PoolContainer
    const medium: PoolContainer
    const large: PoolContainer
    var tempRegions: int
    var pointerMap: map<nat, Region>
    var protectionDomain: nat

    ghost predicate Valid() {
      small != medium && small != large && medium != large
    }

    ghost function View(): Pools
      reads this, small, medium, large
    {
      Pools(small.View(), medium.View(), large.View(), tempRegions, pointerMap, protectionDomain)
    }

    constructor (pd: nat, supply: Supply)
      requires FullSupply(supply)
      requires FreshSupply(Unbuilt(pd), supply)
      ensures Valid() && fresh(small) && fresh(medium) && fresh(large)
      ensures View() == Built(Unbuilt(pd), supply) && protectionDomain == pd
    {
      protectionDomain := pd;
      small := new PoolContainer(SMALL_CHUNK, SMALL_BLOCKS);
      medium := new PoolContainer(MEDIUM_CHUNK, MEDIUM_BLOCKS);
      large := new PoolContainer(LARGE_CHUNK, LARGE_BLOCKS);
      tempRegions, pointerMap := 0, map[];
      new;
      BuildTiers(supply);
    }

    method BuildTiers(supply: Supply)
      requires Valid() && FullSupply(supply) && FreshSupply(View(), supply)
      modifies this`pointerMap, small, medium, large
      ensures View() == Built(old(View()), supply)
    {
      ghost var v0 := View();
      assert FreshFor(v0.Of(Small), NewBlocks(v0, Small, supply));
      assert FreshFor(v0.Of(Medium), NewBlocks(v0, Medium, supply));
      assert FreshFor(v0.Of(Large), NewBlocks(v0, Large, supply));
      var blocks := RegisterBlocks(supply.small, small.chunkSize);
      FillTier(small, blocks);
      blocks := RegisterBlocks(supply.medium, medium.chunkSize);
      FillTier(medium, blocks);
      blocks := RegisterBlocks(supply.large, large.chunkSize);
      FillTier(large, blocks);
    }

    /** The allocation callback, called for each handle the environment gives. */
    method RegisterBlocks(hs: seq<Handle>, length: nat) returns (blocks: seq<Region>)
      modifies this`pointerMap
      ensures blocks == Blocks(hs, length, protectionDomain)
      ensures pointerMap == Indexed(old(pointerMap), blocks)
    {
      blocks := [];
      for i := 0 to |hs|
        invariant blocks == Blocks(hs, length, protectionDomain)[..i]
        invariant pointerMap == Indexed(old(pointerMap), blocks)
      {
        var region := AllocateRegisteredBlock(hs[i], length);
        assert (blocks + [region])[..i] == blocks;
        blocks := blocks + [region];
      }
    }

    method AllocateRegisteredBlock(h: Handle, length: nat) returns (region: Region)
      modifies this`pointerMap
      ensures region == Region(h.ptr, h.addr, length, false, false, protectionDomain)
      ensures pointerMap == old(pointerMap)[h.addr := region]
    {
      region := Region(h.ptr, h.addr, length, false, false, protectionDomain);
      pointerMap := pointerMap[region.addr := region];
    }

    method FillTier(tier: PoolContainer, blocks: seq<Region>)
      requires FreshFor(tier.View(), blocks)
      modifies tier
      ensures tier.View() == Filled(old(tier.View()), blocks)
    {
      AllDelivered(blocks);
      var ok := tier.AllocatePool(seq(|blocks|, i requires 0 <= i < |blocks| => Some(blocks[i])));
    }

    method DeallocateList() returns (ok: bool)
      requires Valid()
      modifies small, medium, large
      ensures View() == ListDrained(old(View()))
      ensures ok <==> forall t :: Quiescent(old(View()).Of(t))
    {
      ghost var v := View();
      assert Quiescent(v.small) <==> Quiescent(v.Of(Small));
      assert Quiescent(v.medium) <==> Quiescent(v.Of(Medium));
      assert Quiescent(v.large) <==> Quiescent(v.Of(Large));
      ok := true;
      var done := small.DeallocatePool();
      ok := ok && done != 0;
      if ok {
        done := medium.DeallocatePool();
        ok := ok && done != 0;
      }
      if ok {
        done := large.DeallocatePool();
        ok := ok && done != 0;
      }
    }

    method SetProtectionDomain(pd: nat, supply: Supply)
      requires Valid() && FullSupply(supply)
      requires FreshSupply(ListDrained(View()).(domain := pd), supply)
      modifies this, small, medium, large
      ensures View() == Rebuilt(old(View()), pd, supply) && protectionDomain == pd
    {
      var ok := DeallocateList();
      protectionDomain := pd;
      BuildTiers(supply);
    }

    method CanAllocateRegionUnsafe(length: nat) returns (can: bool)
      ensures can <==> CanAllocate(View(), length)
    {
      if length <= small.chunkSize {
        return small.freeList != [];
      } else if length <= medium.chunkSize {
        return medium.freeList != [];
      } else if length <= large.chunkSize {
        return large.freeList != [];
      }
      return true;
    }

    /** `h` is used only when the environment is asked for a temporary block.
        The wait for a block is over when this runs. */
    method AllocateRegion(length: nat, h: Handle) returns (buffer: Region)
      requires Valid() && CanAllocate(View(), length)
      modifies this`tempRegions, small, medium, large
      ensures buffer == Issued(old(View()), length, h)
      ensures View() == Allocated(old(View()), length)
    {
      if length <= small.chunkSize {
        buffer := small.Pop();
      } else if length <= medium.chunkSize {
        buffer := medium.Pop();
      } else if length <= large.chunkSize {
        buffer := large.Pop();
      } else {
        buffer := Region(h.ptr, h.addr, length, false, true, protectionDomain);
        tempRegions := tempRegions + 1;
      }
    }

    /** `terminated` when the block is on the free list it would go to. */
    method Deallocate(region: Region) returns (terminated: bool)
      requires Valid()
      modifies this`tempRegions, small, medium, large
      ensures terminated <==> AlreadyFree(old(View()), region)
      ensures View() == if terminated then old(View()) else Deallocated(old(View()), region)
    {
      if region.temp || region.user {
        if region.temp {
          tempRegions := tempRegions - 1;
        }
        return false;
      }
      var length := region.Length32();
      if length <= small.chunkSize {
        terminated := small.Push(region);
      } else if length <= medium.chunkSize {
        terminated := medium.Push(region);
      } else if length <= large.chunkSize {
        terminated := large.Push(region);
      } else {
        terminated := false;
      }
    }

    /** The char* interface: no address when the length ends the process. */
    method AllocateBytes(length: nat) returns (address: Option<nat>)
      requires Valid() && CanAllocate(View(), length)
      modifies this`tempRegions, small, medium, large
      ensures address.None? <==> length > large.chunkSize
      ensures address.None? ==> View() == old(View())
      ensures address.Some? ==>
                && address.value == Issued(old(View()), length, Handle(0, 0)).addr
                && View() == Allocated(old(View()), length)
    {
      if length > large.chunkSize {
        return None;
      }
      var region := AllocateRegion(length, Handle(0, 0));
      return Some(region.addr);
    }

    /** Deallocation by address: `found` is false for an address the index does
        not know, where the lookup yields a null region. */
    method DeallocateAddress(address: nat) returns (found: bool, terminated: bool)
      requires Valid()
      modifies this`tempRegions, small, medium, large
      ensures found <==> address in pointerMap
      ensures found && !terminated ==> View() == Deallocated(old(View()), pointerMap[address])
      ensures !found || terminated ==> View() == old(View())
      ensures terminated <==> found && AlreadyFree(old(View()), pointerMap[address])
    {
      if address !in pointerMap {
        return false, false;
      }
      terminated := Deallocate(pointerMap[address]);
      return true, terminated;
    }
  }

  function Unbuilt(pd: nat): Pools {
    Pools(Pool(SMALL_CHUNK, SMALL_BLOCKS, [], {}, 0), Pool(MEDIUM_CHUNK, MEDIUM_BLOCKS, [], {}, 0),
          Pool(LARGE_CHUNK, LARGE_BLOCKS, [], {}, 0), 0, map[], pd)
  }

  lemma {:induction false} AllDelivered(blocks: seq<Region>)
    ensures Delivered(seq(|blocks|, i requires 0 <= i < |blocks| => Some(blocks[i]))) == blocks
  {
    if blocks == [] {
    } else {
      AllDelivered(blocks[1..]);
      assert seq(|blocks|, i requires 0 <= i < |blocks| => Some(blocks[i]))[1..]
          == seq(|blocks[1..]|, i requires 0 <= i < |blocks[1..]| => Some(blocks[1..][i]));
    }
  }
}
