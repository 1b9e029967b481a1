/** AllocatePool and DeallocatePool while other threads push and pop. Neither
    takes the mutex itself: one thread, `m`, runs them, and between its calls of
    push and pop it changes the block list, resets the count and reads sizes,
    count and free list without the lock, each as a step of its own. All
    threads push and pop by the steps of PoolProtocol. */
module LifeCycleRaces {
  import opened Collections
  import opened Regions
  import opened PoolContainers
  import P = PoolProtocol

  /** Where `m` stands. In AllocatePool: `left` blocks to make before the reset,
      or in the push of the one just made. In DeallocatePool: about to compare
      the sizes, to read the count, to look for a free block; in the pop of one
      it saw; or past the loop, about to clear the block list. */
  datatype Phase =
    | Filling(left: nat)
    | Pushing(left: nat)
    | Filled
    | Checking
    | Counting
    | Refused
    | Draining
    | Popping
    | Clearing
    | Cleared

  /** `debt` is what the use count is short of the blocks held. While `m` is at
      work, `taken` and `stored` count what other threads pop and push, and
      `out` is what they held before; `made` and `drained` count what `m` does,
      of the `size` blocks it is to make; `was` is the number of blocks before. */
  datatype System = System(s: P.State, m: P.Tid, phase: Phase, debt: int, size: nat, was: nat,
                           out: int, taken: nat, stored: nat, made: nat, drained: nat)

  datatype Step =
    | Thread(step: P.Step)
    | Make(b: Region)
    | Reset
    | CompareSizes
    | ReadCount
    | SeeBlock
    | SeeEmpty
    | Clear

  function Actor(step: P.Step): P.Tid {
    step.t
  }

  /** The steps of the call `m` is in. */
  predicate OwnStep(phase: Phase, step: P.Step) {
    match phase
    case Pushing(_) => step.CallPush? || step.Lock? || step.Store? || step.Unlock? || step.Notify?
    case Popping => step.CallPop? || step.Lock? || step.TestAndTake? || step.WakeSpuriously?
    case _ => false
  }

  /** A new block is none that is in the pool or held. What other threads do
      once the list is cleared is not told here. */
  ghost predicate Enabled(y: System, step: Step) {
    match step
    case Thread(p) =>
      && P.Enabled(y.s, p) && !y.phase.Cleared?
      && (Actor(p) == y.m ==> OwnStep(y.phase, p))
      && (p.HandOver? ==> p.to != y.m)
    case Make(b) =>
      && y.phase.Filling? && y.phase.left > 0
      && b !in y.s.pool.blocks && b !in y.s.pool.free && (forall t: P.Tid :: (t, b) !in y.s.held)
    case Reset => y.phase == Filling(0)
    case CompareSizes => y.phase.Checking?
    case ReadCount => y.phase.Counting?
    case SeeBlock => y.phase.Draining? && y.s.pool.free != []
    case SeeEmpty => y.phase.Draining? && y.s.pool.free == []
    case Clear => y.phase.Clearing?
  }

  /** `m` is between its first step and its last. */
  predicate AtWork(phase: Phase) {
    phase.Filling? || phase.Pushing? || phase.Draining? || phase.Popping? || phase.Clearing?
  }

  function PhaseAfter(y: System, p: P.Step): Phase {
    if Actor(p) != y.m then y.phase
    else if p.Notify? && y.phase.Pushing? then Filling(y.phase.left)
    else if p.TestAndTake? && y.phase.Popping? && y.s.pool.free != [] then Draining
    else y.phase
  }

  predicate Takes(y: System, p: P.Step) {
    p.TestAndTake? && y.s.pool.free != []
  }

  function Apply(y: System, step: Step): System
    requires Enabled(y, step)
  {
    var pool := y.s.pool;
    match step
    case Thread(p) =>
      var others := AtWork(y.phase) && Actor(p) != y.m;
      y.(s := P.Apply(y.s, p), phase := PhaseAfter(y, p),
         taken := y.taken + (if others && Takes(y, p) then 1 else 0),
         stored := y.stored + (if others && p.Store? then 1 else 0),
         drained := y.drained + (if Actor(p) == y.m && Takes(y, p) then 1 else 0))
    case Make(b) =>
      y.(s := y.s.(pool := pool.(blocks := pool.blocks + {b}), held := y.s.held + {(y.m, b)}),
         phase := Pushing(y.phase.left - 1), debt := y.debt + 1, made := y.made + 1)
    case Reset =>
      y.(s := y.s.(pool := pool.(useCount := 0)), phase := Filled, debt := y.debt + pool.useCount)
    case CompareSizes => y.(phase := if |pool.free| == |pool.blocks| then Counting else Refused)
    case ReadCount =>
      if pool.useCount == 0 then y.(phase := Draining, out := |y.s.held|, taken := 0, stored := 0, drained := 0)
      else y.(phase := Refused)
    case SeeBlock => y.(phase := Popping)
    case SeeEmpty => y.(phase := Clearing)
    case Clear => y.(s := y.s.(pool := pool.(blocks := {})), phase := Cleared)
  }

  /** Where a sequence of steps leads, if each is enabled in its turn. */
  ghost function Reached(y: System, steps: seq<Step>): Option<System> {
    if steps == [] then Some(y)
    else
      match Reached(y, steps[..|steps| - 1])
      case Some(z) => if Enabled(z, steps[|steps| - 1]) then Some(Apply(z, steps[|steps| - 1])) else None
      case None => None
  }

  lemma RunSnoc(y: System, steps: seq<Step>, z: System, step: Step) returns (longer: seq<Step>)
    requires Reached(y, steps) == Some(z) && Enabled(z, step)
    ensures longer == steps + [step] && Reached(y, longer) == Some(Apply(z, step))
  {
    longer := steps + [step];
    assert longer[..|steps|] == steps;
  }

  // -------------------------------------------------------------- invariants

  /** The same state with the use count put right, and room for the new blocks. */
  function Corrected(y: System): P.State {
    y.s.(pool := y.s.pool.(useCount := y.s.pool.useCount + y.debt, maxChunks := y.s.pool.maxChunks + y.made))
  }

  function Mine(y: System): set<(P.Tid, Region)> {
    set p | p in y.s.held && p.0 == y.m
  }

  function Theirs(y: System): set<(P.Tid, Region)> {
    set p | p in y.s.held && p.0 != y.m
  }

  /** What `m` holds, by where it stands. */
  ghost predicate OwnOk(y: System) {
    && y.m < |y.s.pc|
    && var pc := y.s.pc[y.m];
       match y.phase
       case Filling(_) => pc == P.Idle && Mine(y) == {}
       case Pushing(_) =>
         if pc.Idle? || pc.PushEntry? || pc.PushLocked? then |Mine(y)| == 1
         else (pc.PushStored? || pc.Notifying?) && Mine(y) == {}
       case Popping =>
         (pc.Idle? || pc.PopEntry? || pc.Asleep? || pc.Waking? || pc.PopLocked?) && |Mine(y)| == y.drained
       case Draining => pc == P.Idle && |Mine(y)| == y.drained
       case Clearing => pc == P.Idle && |Mine(y)| == y.drained
       case Cleared => true
       case _ => pc == P.Idle && Mine(y) == {}
  }

  /** What the others hold, and how many blocks there are. */
  ghost predicate TalliesOk(y: System) {
    && |y.s.pool.blocks| == y.was + y.made
    && (AtWork(y.phase) ==> |Theirs(y)| == y.out + y.taken - y.stored)
    && (y.phase.Filling? || y.phase.Pushing? ==> y.made + y.phase.left == y.size)
    && (y.phase.Filled? ==> y.made == y.size && y.debt == y.out + y.taken - y.stored)
    && (y.phase.Draining? || y.phase.Popping? || y.phase.Clearing? ==> y.out == y.debt)
  }

  ghost predicate Inv(y: System) {
    !y.phase.Cleared? ==>
      P.Exclusive(y.s) && P.Promising(y.s) && P.Owned(Corrected(y)) && OwnOk(y) && TalliesOk(y)
  }

  lemma Split(y: System)
    ensures |y.s.held| == |Mine(y)| + |Theirs(y)|
  {
    assert y.s.held == Mine(y) + Theirs(y);
  }

  /** A step of push or pop does not look at the count. */
  lemma CorrectedStep(y: System, p: P.Step)
    requires Enabled(y, Thread(p))
    ensures P.Enabled(Corrected(y), p)
    ensures P.Apply(Corrected(y), p) == Corrected(Apply(y, Thread(p)))
  {
    assert forall w: P.Tid :: P.At(Corrected(y), w, P.Asleep) <==> P.At(y.s, w, P.Asleep);
  }

  lemma ProtocolStep(y: System, p: P.Step)
    requires Inv(y) && Enabled(y, Thread(p))
    ensures var y' := Apply(y, Thread(p));
            P.Exclusive(y'.s) && P.Promising(y'.s) && P.Owned(Corrected(y'))
  {
    P.ExclusiveStep(y.s, p);
    P.PromisingStep(y.s, p);
    CorrectedStep(y, p);
    assert P.Exclusive(Corrected(y));
    P.OwnedStep(Corrected(y), p);
  }

  /** Whose holdings a step of push or pop changes, and by how much. */
  lemma HoldingsStep(y: System, p: P.Step)
    requires Inv(y) && Enabled(y, Thread(p))
    ensures var y' := Apply(y, Thread(p));
            var change := (if Takes(y, p) then 1 else 0) - (if p.Store? then 1 else 0);
            && |Mine(y')| == |Mine(y)| + (if Actor(p) == y.m then change else 0)
            && |Theirs(y')| == |Theirs(y)| + (if Actor(p) == y.m then 0 else change)
  {
    var y' := Apply(y, Thread(p));
    match p
    case TestAndTake(t) =>
      if y.s.pool.free != [] {
        var b := Top(y.s.pool);
        assert b in y.s.pool.free;
        assert (t, b) !in y.s.held;
        HoldingsAdd(y, y', (t, b));
      } else {
        assert y'.s.held == y.s.held;
      }
    case Store(t) =>
      var b := y.s.pc[t].block;
      assert (t, b) in y.s.held;
      assert y.s.held == y'.s.held + {(t, b)};
      HoldingsAdd(y', y, (t, b));
    case HandOver(t, to, b) => HoldingsPass(y, y', t, to, b);
    case _ => assert y'.s.held == y.s.held;
  }

  lemma HoldingsAdd(y: System, y': System, p: (P.Tid, Region))
    requires y.m == y'.m && p !in y.s.held && y'.s.held == y.s.held + {p}
    ensures |Mine(y')| == |Mine(y)| + (if p.0 == y.m then 1 else 0)
    ensures |Theirs(y')| == |Theirs(y)| + (if p.0 == y.m then 0 else 1)
  {
    if p.0 == y.m {
      assert Mine(y') == Mine(y) + {p} && Theirs(y') == Theirs(y);
    } else {
      assert Mine(y') == Mine(y) && Theirs(y') == Theirs(y) + {p};
    }
  }

  lemma HoldingsPass(y: System, y': System, t: P.Tid, to: P.Tid, b: Region)
    requires y.m == y'.m && t != y.m && to != y.m && (t, b) in y.s.held && (to == t || (to, b) !in y.s.held)
    requires y'.s.held == y.s.held - {(t, b)} + {(to, b)}
    ensures |Mine(y')| == |Mine(y)| && |Theirs(y')| == |Theirs(y)|
  {
    var without := y.(s := y.s.(held := y.s.held - {(t, b)}));
    assert y.s.held == without.s.held + {(t, b)};
    HoldingsAdd(without, y, (t, b));
    HoldingsAdd(without, y', (to, b));
  }

  lemma ThreadStep(y: System, p: P.Step)
    requires Inv(y) && Enabled(y, Thread(p))
    ensures Inv(Apply(y, Thread(p)))
  {
    ProtocolStep(y, p);
    HoldingsStep(y, p);
    OwnAfter(y, p);
  }

  lemma OwnAfter(y: System, p: P.Step)
    requires Inv(y) && Enabled(y, Thread(p))
    requires var y' := Apply(y, Thread(p));
             |Mine(y')| == |Mine(y)| + if Actor(p) == y.m then
               (if Takes(y, p) then 1 else 0) - (if p.Store? then 1 else 0) else 0
    ensures OwnOk(Apply(y, Thread(p)))
  {
    var y' := Apply(y, Thread(p));
    assert Actor(p) != y.m && !(p.Notify? && p.woken == Some(y.m)) ==> y'.s.pc[y.m] == y.s.pc[y.m];
  }

  /** A new block is in the list and in `m`'s hands before it is pushed. */
  lemma MakeStep(y: System, b: Region)
    requires Inv(y) && Enabled(y, Make(b))
    ensures Inv(Apply(y, Make(b)))
  {
    var y' := Apply(y, Make(b));
    HoldingsAdd(y, y', (y.m, b));
    assert y'.s.pool.free == y.s.pool.free;
    forall x | x in y'.s.pool.blocks && x !in y'.s.pool.free ensures exists t :: (t, x) in y'.s.held {
      if x == b {
        assert (y.m, x) in y'.s.held;
      } else {
        var t :| (t, x) in Corrected(y).held;
        assert (t, x) in y'.s.held;
      }
    }
  }

  lemma ResetStep(y: System)
    requires Inv(y) && Enabled(y, Reset)
    ensures Inv(Apply(y, Reset))
  {
    var y' := Apply(y, Reset);
    assert Corrected(y') == Corrected(y);
    Split(y);
    assert Theirs(y') == Theirs(y) && Mine(y') == Mine(y);
  }

  lemma OtherStep(y: System, step: Step)
    requires Inv(y) && Enabled(y, step) && !step.Thread? && !step.Make? && !step.Reset? && !step.Clear?
    ensures Inv(Apply(y, step))
  {
    var y' := Apply(y, step);
    assert Corrected(y') == Corrected(y);
    assert Theirs(y') == Theirs(y) && Mine(y') == Mine(y);
    Split(y);
  }

  lemma StepInv(y: System, step: Step)
    requires Inv(y) && Enabled(y, step)
    ensures Inv(Apply(y, step))
  {
    match step
    case Thread(p) => ThreadStep(y, p);
    case Make(b) => MakeStep(y, b);
    case Reset => ResetStep(y);
    case Clear =>
    case _ => OtherStep(y, step);
  }

  lemma {:induction false} RunInv(y: System, steps: seq<Step>)
    requires Inv(y) && Reached(y, steps).Some?
    ensures Inv(Reached(y, steps).value)
  {
    if steps == [] {
    } else {
      RunInv(y, steps[..|steps| - 1]);
      StepInv(Reached(y, steps[..|steps| - 1]).value, steps[|steps| - 1]);
    }
  }

  // ------------------------------------------------------------ AllocatePool

  /** AllocatePool is about to begin, with any blocks out and any other calls
      under way. */
  ghost predicate StartsFilling(y: System) {
    Inv(y) && y.phase == Filling(y.size) && y.made == 0 && y.taken == 0 && y.stored == 0
  }

  /** Nothing is known of the blocks but this: the free list repeats nothing and
      lies in the block list, and each block is free or with exactly one holder. */
  ghost predicate WellOwned(s: P.State) {
    && Distinct(s.pool.free) && Elements(s.pool.free) <= s.pool.blocks
    && (forall t, u, b :: (t, b) in s.held && (u, b) in s.held ==> t == u)
    && (forall t, b :: (t, b) in s.held ==> b in s.pool.blocks && b !in s.pool.free)
    && (forall b :: b in s.pool.blocks ==> b in s.pool.free || exists t :: (t, b) in s.held)
    && |s.pool.free| + |s.held| == |s.pool.blocks|
  }

  lemma Accounts(y: System)
    requires Inv(y) && !y.phase.Cleared?
    ensures WellOwned(y.s) && y.s.pool.useCount == |y.s.held| - y.debt && Unaccounted(y.s.pool) == y.debt
  {
    assert P.Owned(Corrected(y));
  }

  lemma {:induction false} FillFrame(y: System, steps: seq<Step>)
    requires StartsFilling(y) && Reached(y, steps).Some?
    ensures var z := Reached(y, steps).value;
            && (z.phase.Filling? || z.phase.Pushing? || z.phase.Filled?)
            && z.out == y.out && z.size == y.size && z.was == y.was && z.m == y.m
  {
    if steps == [] {
    } else {
      FillFrame(y, steps[..|steps| - 1]);
    }
  }

  /** The count after AllocatePool is short by exactly the blocks that are out at
      its reset: those out before it, and the pops less the pushes of other
      threads meanwhile. So the pool can ever be drained again, all blocks being
      back, exactly when these cancel; and otherwise no push and no pop mends it.
      Nothing else is disturbed: no lost wake-up, no block with two owners. */
  lemma AllocatePoolRaces(y0: System, steps: seq<Step>)
    requires StartsFilling(y0) && Reached(y0, steps).Some? && Reached(y0, steps).value.phase.Filled?
    ensures var y := Reached(y0, steps).value;
            var forgotten := |y0.s.held| + y.taken - y.stored;
            && |y.s.pool.blocks| == |y0.s.pool.blocks| + y0.size
            && Unaccounted(y.s.pool) == forgotten && y.s.pool.useCount == |y.s.held| - forgotten
            && (Quiescent(y.s.pool) <==> y.s.held == {} && forgotten == 0)
            && (forgotten != 0 ==> forall acts :: !Quiescent(PoolContainers.After(y.s.pool, acts)))
            && WellOwned(y.s) && P.Exclusive(y.s) && P.Promising(y.s)
  {
    var y := Reached(y0, steps).value;
    RunInv(y0, steps);
    FillFrame(y0, steps);
    Accounts(y);
    Split(y0);
    forall acts | y.debt != 0 ensures !Quiescent(PoolContainers.After(y.s.pool, acts)) {
      UnaccountedForever(y.s.pool, acts);
    }
  }

  // ---------------------------------------------------------- DeallocatePool

  ghost predicate StartsDraining(y: System) {
    Inv(y) && y.phase.Checking?
  }

  lemma {:induction false} DrainFrame(y: System, steps: seq<Step>)
    requires StartsDraining(y) && Reached(y, steps).Some?
    ensures var z := Reached(y, steps).value;
            && !z.phase.Filling? && !z.phase.Pushing? && !z.phase.Filled?
            && z.debt == y.debt && z.was == y.was && z.m == y.m && z.made == y.made
  {
    if steps == [] {
    } else {
      DrainFrame(y, steps[..|steps| - 1]);
    }
  }

  /** When DeallocatePool is about to clear the block list, other threads hold
      as many of its blocks as they popped less what they pushed since it read
      the count (and what was forgotten before), and others may be back on the
      free list. It is safe to clear, nothing being in use or on the free list,
      exactly when DeallocatePool has popped every block of the pool itself. */
  lemma DeallocatePoolRaces(y0: System, steps: seq<Step>)
    requires StartsDraining(y0) && Reached(y0, steps).Some? && Reached(y0, steps).value.phase.Clearing?
    ensures var y := Reached(y0, steps).value;
            && y.s.pool.blocks == y0.s.pool.blocks
            && |Theirs(y)| == y0.debt + y.taken - y.stored && |Mine(y)| == y.drained
            && |y.s.pool.free| + y.drained + |Theirs(y)| == |y.s.pool.blocks|
            && y.s.pool.useCount == y.drained + y.taken - y.stored
            && (Theirs(y) == {} && y.s.pool.free == [] <==> y.drained == |y.s.pool.blocks|)
            && WellOwned(y.s) && P.Exclusive(y.s) && P.Promising(y.s)
  {
    var y := Reached(y0, steps).value;
    RunInv(y0, steps);
    DrainFrame(y0, steps);
    SameBlocks(y0, steps);
    Accounts(y);
    Split(y);
  }

  lemma {:induction false} SameBlocks(y: System, steps: seq<Step>)
    requires StartsDraining(y) && Reached(y, steps).Some? && !Reached(y, steps).value.phase.Cleared?
    ensures Reached(y, steps).value.s.pool.blocks == y.s.pool.blocks
  {
    if steps == [] {
    } else {
      DrainFrame(y, steps[..|steps| - 1]);
      SameBlocks(y, steps[..|steps| - 1]);
    }
  }

  /** What a test of DeallocatePool at place `i` of a run finds. */
  ghost predicate SizesAt(y: System, steps: seq<Step>, i: int, equal: bool) {
    && 0 <= i < |steps| && steps[i] == CompareSizes
    && var x := Reached(y, steps[..i]);
       x.Some? && ((|x.value.s.pool.free| == |x.value.s.pool.blocks|) <==> equal)
  }

  ghost predicate CountAt(y: System, steps: seq<Step>, j: int, zero: bool) {
    && 0 <= j < |steps| && steps[j] == ReadCount
    && var x := Reached(y, steps[..j]);
       x.Some? && (x.value.s.pool.useCount == 0 <==> zero)
  }

  lemma EarlierTests(y: System, steps: seq<Step>, longer: seq<Step>, k: int, b: bool)
    requires |steps| <= |longer| && steps == longer[..|steps|] && 0 <= k < |steps|
    ensures SizesAt(y, steps, k, b) ==> SizesAt(y, longer, k, b)
    ensures CountAt(y, steps, k, b) ==> CountAt(y, longer, k, b)
  {
    assert steps[..k] == longer[..k];
  }

  predicate PastTests(phase: Phase) {
    phase.Draining? || phase.Popping? || phase.Clearing? || phase.Cleared?
  }

  /** How a step changes what the tests have let through. */
  lemma PhaseStep(z: System, step: Step)
    requires Enabled(z, step) && !z.phase.Filling? && !z.phase.Pushing? && !z.phase.Filled?
    ensures var phase, phase' := z.phase, Apply(z, step).phase;
            if step.CompareSizes? then
              phase' == if |z.s.pool.free| == |z.s.pool.blocks| then Counting else Refused
            else if step.ReadCount? then
              phase.Counting? && phase' == if z.s.pool.useCount == 0 then Draining else Refused
            else (PastTests(phase') <==> PastTests(phase)) && (phase'.Counting? <==> phase.Counting?)
                 && (phase'.Refused? <==> phase.Refused?)
  {
  }

  /** What the tests at places `i` and `j` have told, by where `m` stands. */
  ghost predicate Tested(y0: System, steps: seq<Step>, phase: Phase, i: int, j: int) {
    && (phase.Counting? || PastTests(phase) ==> SizesAt(y0, steps, i, true))
    && (PastTests(phase) ==> i < j && CountAt(y0, steps, j, true))
    && (phase.Refused? ==>
          SizesAt(y0, steps, i, false) || (SizesAt(y0, steps, i, true) && i < j && CountAt(y0, steps, j, false)))
  }

  lemma StillTested(y0: System, steps: seq<Step>, longer: seq<Step>, phase: Phase, i: int, j: int)
    requires |steps| <= |longer| && steps == longer[..|steps|] && Tested(y0, steps, phase, i, j)
    ensures Tested(y0, longer, phase, i, j)
  {
    if 0 <= i < |steps| {
      EarlierTests(y0, steps, longer, i, true);
      EarlierTests(y0, steps, longer, i, false);
    }
    if 0 <= j < |steps| {
      EarlierTests(y0, steps, longer, j, true);
      EarlierTests(y0, steps, longer, j, false);
    }
  }

  lemma {:induction false} TestsTell(y0: System, steps: seq<Step>) returns (i: int, j: int)
    requires StartsDraining(y0) && Reached(y0, steps).Some?
    ensures Tested(y0, steps, Reached(y0, steps).value.phase, i, j)
  {
    if steps == [] {
      i, j := 0, 0;
    } else {
      var last := |steps| - 1;
      var before := steps[..last];
      i, j := TestsTell(y0, before);
      DrainFrame(y0, before);
      var z := Reached(y0, before).value;
      StillTested(y0, before, steps, z.phase, i, j);
      PhaseStep(z, steps[last]);
      if steps[last].CompareSizes? {
        i := last;
        assert SizesAt(y0, steps, last, |z.s.pool.free| == |z.s.pool.blocks|);
      } else if steps[last].ReadCount? {
        j := last;
        assert CountAt(y0, steps, last, z.s.pool.useCount == 0);
      }
    }
  }

  /** Over every interleaving, DeallocatePool gets past its tests only if all
      blocks were free when it compared the sizes and, later, none was counted
      when it read the count; and it refuses only if one of the two was not so,
      leaving the block list as it was. */
  lemma DeallocatePoolTests(y0: System, steps: seq<Step>) returns (i: int, j: int)
    requires StartsDraining(y0) && Reached(y0, steps).Some?
    ensures var z := Reached(y0, steps).value;
            && (PastTests(z.phase) ==> SizesAt(y0, steps, i, true) && i < j && CountAt(y0, steps, j, true))
            && (z.phase.Refused? ==>
                  && (SizesAt(y0, steps, i, false)
                      || (SizesAt(y0, steps, i, true) && i < j && CountAt(y0, steps, j, false)))
                  && z.s.pool.blocks == y0.s.pool.blocks)
  {
    i, j := TestsTell(y0, steps);
    if Reached(y0, steps).value.phase.Refused? {
      SameBlocks(y0, steps);
    }
  }

  lemma TwoSteps(y: System, a: Step, b: Step)
    requires Enabled(y, a)
    ensures Reached(y, [a]) == Some(Apply(y, a))
    ensures Reached(y, [a, b]) == if Enabled(Apply(y, a), b) then Some(Apply(Apply(y, a), b)) else None
  {
    assert [a][..0] == [] && [a, b][..1] == [a];
  }

  /** With no other thread moving in between, the tests let through exactly a
      quiescent tier. */
  lemma TestsUndisturbed(y0: System)
    requires StartsDraining(y0)
    ensures var one, both := Reached(y0, [CompareSizes]), Reached(y0, [CompareSizes, ReadCount]);
            if |y0.s.pool.free| == |y0.s.pool.blocks| && y0.s.pool.useCount == 0 then
              both.Some? && both.value.phase.Draining? && both.value.s == y0.s && both.value.m == y0.m
            else if |y0.s.pool.free| == |y0.s.pool.blocks| then both == Some(y0.(phase := Refused))
            else one == Some(y0.(phase := Refused)) && both == None
  {
    TwoSteps(y0, CompareSizes, ReadCount);
  }

  // ------------------------------------------------------- runs that go wrong

  /** A thread with the mutex free takes it; one that has it leaves it. */
  function Entering(y: System, t: P.Tid, pc: P.PC): System
    requires t < |y.s.pc|
  {
    y.(s := y.s.(pc := y.s.pc[t := pc], owner := Some(t)))
  }

  function Calling(y: System, t: P.Tid, pc: P.PC): System
    requires t < |y.s.pc|
  {
    y.(s := y.s.(pc := y.s.pc[t := pc]))
  }

  /** `z` with one block popped by `t`. */
  function Taken(z: System, t: P.Tid): System
    requires z.s.pool.free != []
  {
    z.(s := z.s.(pool := Popped(z.s.pool), held := z.s.held + {(t, Top(z.s.pool))}),
       phase := if t == z.m then Draining else z.phase,
       taken := z.taken + (if t != z.m && AtWork(z.phase) then 1 else 0),
       drained := z.drained + (if t == z.m then 1 else 0))
  }

  /** A thread other than `m`, or `m` after it saw a block, gets the mutex for a pop. */
  lemma EnterPop(y: System, steps: seq<Step>, z: System, t: P.Tid) returns (longer: seq<Step>)
    requires Reached(y, steps) == Some(z) && !z.phase.Cleared?
    requires P.At(z.s, t, P.Idle) && z.s.owner == None && (t == z.m ==> z.phase.Popping?)
    ensures Reached(y, longer) == Some(Entering(z, t, P.PopLocked))
  {
    longer := RunSnoc(y, steps, z, Thread(P.CallPop(t)));
    var z1 := Calling(z, t, P.PopEntry);
    assert Apply(z, Thread(P.CallPop(t))) == z1;
    longer := RunSnoc(y, longer, z1, Thread(P.Lock(t)));
    assert z1.s.pc[t := P.PopLocked] == z.s.pc[t := P.PopLocked];
  }

  /** And pops one at once. */
  lemma PopAtOnce(y: System, steps: seq<Step>, z: System, t: P.Tid) returns (longer: seq<Step>, z': System)
    requires Reached(y, steps) == Some(z) && !z.phase.Cleared?
    requires P.At(z.s, t, P.Idle) && z.s.owner == None && z.s.pool.free != [] && (t == z.m ==> z.phase.Popping?)
    ensures Reached(y, longer) == Some(z') && z' == Taken(z, t)
  {
    longer := EnterPop(y, steps, z, t);
    z' := Taken(z, t);
    var z2 := Entering(z, t, P.PopLocked);
    LeavePop(z, t);
    longer := RunSnoc(y, longer, z2, Thread(P.TestAndTake(t)));
  }

  lemma LeavePop(z: System, t: P.Tid)
    requires !z.phase.Cleared?
    requires P.At(z.s, t, P.Idle) && z.s.owner == None && z.s.pool.free != [] && (t == z.m ==> z.phase.Popping?)
    ensures var z2 := Entering(z, t, P.PopLocked);
            Enabled(z2, Thread(P.TestAndTake(t))) && Apply(z2, Thread(P.TestAndTake(t))) == Taken(z, t)
  {
    assert z.s.pc[t := P.PopLocked][t := P.Idle] == z.s.pc;
  }

  /** The push of the block just made, no other thread moving. */
  lemma PushMade(y: System, steps: seq<Step>, z: System, b: Region) returns (longer: seq<Step>, z': System)
    requires Reached(y, steps) == Some(z) && z.phase.Pushing? && (z.m, b) in z.s.held
    requires P.At(z.s, z.m, P.Idle) && z.s.owner == None && forall w: P.Tid :: !P.At(z.s, w, P.Asleep)
    ensures Reached(y, longer) == Some(z') && z' == StoredBy(z, b).(phase := Filling(z.phase.left))
  {
    longer := RunSnoc(y, steps, z, Thread(P.CallPush(z.m, b)));
    var z1 := Calling(z, z.m, P.PushEntry(b));
    assert Apply(z, Thread(P.CallPush(z.m, b))) == z1;
    longer := RunSnoc(y, longer, z1, Thread(P.Lock(z.m)));
    var z2 := Entering(z, z.m, P.PushLocked(b));
    assert z1.s.pc[z.m := P.PushLocked(b)] == z2.s.pc;
    assert Apply(z1, Thread(P.Lock(z.m))) == z2;
    longer := RunSnoc(y, longer, z2, Thread(P.Store(z.m)));
    z' := StoredBy(z, b).(phase := Filling(z.phase.left));
    longer := LeavePush(y, longer, z, b);
  }

  function StoredBy(z: System, b: Region): System {
    z.(s := z.s.(pool := Pushed(z.s.pool, b), held := z.s.held - {(z.m, b)}))
  }

  lemma LeavePush(y: System, steps: seq<Step>, z: System, b: Region) returns (longer: seq<Step>)
    requires z.phase.Pushing? && (z.m, b) in z.s.held && P.At(z.s, z.m, P.Idle) && z.s.owner == None
    requires forall w: P.Tid :: !P.At(z.s, w, P.Asleep)
    requires var z2 := Entering(z, z.m, P.PushLocked(b));
             Enabled(z2, Thread(P.Store(z.m))) && Reached(y, steps) == Some(Apply(z2, Thread(P.Store(z.m))))
    ensures Reached(y, longer) == Some(StoredBy(z, b).(phase := Filling(z.phase.left)))
  {
    var z3 := Entering(StoredBy(z, b), z.m, P.PushStored);
    assert z.s.pc[z.m := P.PushLocked(b)][z.m := P.PushStored] == z3.s.pc;
    longer := RunSnoc(y, steps, z3, Thread(P.Unlock(z.m)));
    var z4 := Calling(StoredBy(z, b), z.m, P.Notifying);
    assert z3.s.pc[z.m := P.Notifying] == z4.s.pc;
    assert forall w: P.Tid :: P.At(z4.s, w, P.Asleep) ==> P.At(z.s, w, P.Asleep);
    longer := RunSnoc(y, longer, z4, Thread(P.Notify(z.m, None)));
    assert z4.s.pc[z.m := P.Idle] == z.s.pc;
  }

  /** One pop between the last push and the reset, and that block is forgotten. */
  lemma ResetForgetsAPop(y0: System, t: P.Tid, b: Region) returns (steps: seq<Step>)
    requires StartsFilling(y0) && y0.size == 1 && Enabled(y0, Make(b))
    requires t != y0.m && P.At(y0.s, t, P.Idle) && y0.s.owner == None && forall w: P.Tid :: !P.At(y0.s, w, P.Asleep)
    ensures Reached(y0, steps).Some?
    ensures var y := Reached(y0, steps).value;
            y.phase.Filled? && Unaccounted(y.s.pool) == |y0.s.held| + 1 && y.s.pool.useCount == 0 && (t, b) in y.s.held
  {
    steps := RunSnoc(y0, [], y0, Make(b));
    var z := Apply(y0, Make(b));
    assert forall w: P.Tid :: P.At(z.s, w, P.Asleep) ==> P.At(y0.s, w, P.Asleep);
    steps, z := PushMade(y0, steps, z, b);
    steps, z := PopAtOnce(y0, steps, z, t);
    steps := RunSnoc(y0, steps, z, Reset);
    AllocatePoolRaces(y0, steps);
  }

  /** DeallocatePool takes all but one of the free blocks, no other thread moving. */
  lemma {:induction false} DrainToOne(y: System, steps: seq<Step>, z: System) returns (longer: seq<Step>, z': System)
    requires Reached(y, steps) == Some(z) && z.phase.Draining? && z.s.pool.free != []
    requires P.At(z.s, z.m, P.Idle) && z.s.owner == None
    ensures Reached(y, longer) == Some(z') && z'.phase.Draining? && |z'.s.pool.free| == 1
    ensures z'.s.pc == z.s.pc && z'.s.owner == None && z'.m == z.m
    decreases |z.s.pool.free|
  {
    if |z.s.pool.free| == 1 {
      longer, z' := steps, z;
    } else {
      longer := RunSnoc(y, steps, z, SeeBlock);
      longer, z' := PopAtOnce(y, longer, Apply(z, SeeBlock), z.m);
      longer, z' := DrainToOne(y, longer, z');
    }
  }

  /** It sees the last free block, another thread takes it, and it waits. */
  lemma LastBlockTaken(y: System, steps: seq<Step>, z: System, t: P.Tid) returns (longer: seq<Step>)
    requires Reached(y, steps) == Some(z) && z.phase.Draining? && |z.s.pool.free| == 1 && z.s.owner == None
    requires P.At(z.s, z.m, P.Idle) && P.At(z.s, t, P.Idle) && t != z.m
    ensures Reached(y, longer).Some?
    ensures var e := Reached(y, longer).value; e.phase.Popping? && P.At(e.s, e.m, P.Asleep) && e.s.pool.free == []
  {
    longer := RunSnoc(y, steps, z, SeeBlock);
    var z1;
    longer, z1 := PopAtOnce(y, longer, Apply(z, SeeBlock), t);
    longer := EnterPop(y, longer, z1, z.m);
    longer := RunSnoc(y, longer, Entering(z1, z.m, P.PopLocked), Thread(P.TestAndTake(z.m)));
  }

  /** From any quiescent pool with blocks, DeallocatePool may end up asleep in
      pop(), and the pool empty. */
  lemma DeallocatePoolCanSleep(y0: System, t: P.Tid) returns (steps: seq<Step>)
    requires StartsDraining(y0) && Quiescent(y0.s.pool) && y0.s.pool.free != []
    requires t != y0.m && P.At(y0.s, t, P.Idle) && y0.s.owner == None
    ensures Reached(y0, steps).Some?
    ensures var y := Reached(y0, steps).value;
            y.phase.Popping? && P.At(y.s, y.m, P.Asleep) && y.s.pool.free == []
  {
    steps := RunSnoc(y0, [], y0, CompareSizes);
    var z := Apply(y0, CompareSizes);
    steps := RunSnoc(y0, steps, z, ReadCount);
    steps, z := DrainToOne(y0, steps, Apply(z, ReadCount));
    steps := LastBlockTaken(y0, steps, z, t);
  }

  /** There it stays until some thread pushes a block. */
  lemma {:induction false} SleepsUntilAPush(y: System, steps: seq<Step>)
    requires y.phase.Popping? && y.s.pool.free == [] && Reached(y, steps).Some?
    requires forall i :: 0 <= i < |steps| ==> !(steps[i].Thread? && steps[i].step.Store?)
    ensures var z := Reached(y, steps).value; z.phase.Popping? && z.s.pool.free == []
  {
    if steps == [] {
    } else {
      SleepsUntilAPush(y, steps[..|steps| - 1]);
    }
  }

  // ---------------------------------------------------- with no other thread

  /** The loop of AllocatePool from any point, and the reset. */
  lemma {:induction false} FillAlone(y: System, steps: seq<Step>, z: System, rs: seq<Region>)
    returns (longer: seq<Step>, z': System)
    requires Reached(y, steps) == Some(z) && z.phase == Filling(|rs|)
    requires FreshFor(z.s.pool, rs) && forall t: P.Tid, b :: b in rs ==> (t, b) !in z.s.held
    requires P.At(z.s, z.m, P.Idle) && z.s.owner == None && forall w: P.Tid :: !P.At(z.s, w, P.Asleep)
    ensures Reached(y, longer) == Some(z') && z'.phase.Filled?
    ensures z'.s == z.s.(pool := PoolContainers.Filled(z.s.pool, rs))
    decreases |rs|
  {
    if rs == [] {
      longer := RunSnoc(y, steps, z, Reset);
      z' := Apply(z, Reset);
      assert z.s.pool.free + [] == z.s.pool.free && z.s.pool.blocks + Elements([]) == z.s.pool.blocks;
    } else {
      var b := rs[0];
      longer := RunSnoc(y, steps, z, Make(b));
      var z1 := Apply(z, Make(b));
      assert forall w: P.Tid :: P.At(z1.s, w, P.Asleep) ==> P.At(z.s, w, P.Asleep);
      var z2;
      longer, z2 := PushMade(y, longer, z1, b);
      assert z2.s.held == z.s.held;
      assert forall w: P.Tid :: P.At(z2.s, w, P.Asleep) ==> P.At(z.s, w, P.Asleep);
      longer, z' := FillAlone(y, longer, z2, rs[1..]);
      FilledFront(z.s.pool, rs);
    }
  }

  lemma FilledFront(p: Pool, rs: seq<Region>)
    requires rs != []
    ensures PoolContainers.Filled(Pushed(p, rs[0]).(blocks := p.blocks + {rs[0]}), rs[1..])
            == PoolContainers.Filled(p, rs)
  {
    assert rs == [rs[0]] + rs[1..] && Elements([rs[0]]) == {rs[0]};
    ElementsAppend([rs[0]], rs[1..]);
    assert p.free + [rs[0]] + rs[1..] == p.free + rs;
    assert p.blocks + {rs[0]} + Elements(rs[1..]) == p.blocks + Elements(rs);
  }

  /** AllocatePool undisturbed does what it does to a tier used by one thread. */
  lemma AllocatePoolAlone(y0: System, rs: seq<Region>) returns (steps: seq<Step>)
    requires StartsFilling(y0) && y0.size == |rs| && y0.s.owner == None && forall w: P.Tid :: !P.At(y0.s, w, P.Asleep)
    requires FreshFor(y0.s.pool, rs) && forall t: P.Tid, b :: b in rs ==> (t, b) !in y0.s.held
    ensures Reached(y0, steps).Some? && Reached(y0, steps).value.phase.Filled?
    ensures Reached(y0, steps).value.s == y0.s.(pool := PoolContainers.Filled(y0.s.pool, rs))
  {
    var z;
    steps, z := FillAlone(y0, [], y0, rs);
  }

  /** The loop of DeallocatePool from any point, and the clearing. */
  lemma {:induction false} DrainAlone(y: System, steps: seq<Step>, z: System) returns (longer: seq<Step>, z': System)
    requires Reached(y, steps) == Some(z) && z.phase.Draining?
    requires P.At(z.s, z.m, P.Idle) && z.s.owner == None
    ensures Reached(y, longer) == Some(z') && z'.phase.Cleared?
    ensures z'.s.pool == z.s.pool.(free := [], blocks := {}, useCount := z.s.pool.useCount + |z.s.pool.free|)
    decreases |z.s.pool.free|
  {
    if z.s.pool.free == [] {
      longer := RunSnoc(y, steps, z, SeeEmpty);
      longer := RunSnoc(y, longer, Apply(z, SeeEmpty), Clear);
      z' := Apply(Apply(z, SeeEmpty), Clear);
    } else {
      longer := RunSnoc(y, steps, z, SeeBlock);
      longer, z' := PopAtOnce(y, longer, Apply(z, SeeBlock), z.m);
      longer, z' := DrainAlone(y, longer, z');
    }
  }

  /** DeallocatePool undisturbed does what it does to a tier used by one thread. */
  lemma DeallocatePoolAlone(y0: System) returns (steps: seq<Step>)
    requires StartsDraining(y0) && y0.s.owner == None
    ensures Reached(y0, steps).Some? && Reached(y0, steps).value.s.pool == Drained(y0.s.pool)
    ensures var phase := Reached(y0, steps).value.phase;
            if Quiescent(y0.s.pool) then phase.Cleared? else phase.Refused?
  {
    TestsUndisturbed(y0);
    if Quiescent(y0.s.pool) {
      var z;
      steps, z := DrainAlone(y0, [CompareSizes, ReadCount], Reached(y0, [CompareSizes, ReadCount]).value);
    } else if |y0.s.pool.free| == |y0.s.pool.blocks| {
      steps := [CompareSizes, ReadCount];
    } else {
      steps := [CompareSizes];
    }
  }
}
