/** Where every small block of the pool is, over whole runs of the system: on
    the free list, posted on a live client, in the application's hands, or
    stranded. A block is stranded when the client it is posted on is closed (a
    DISCONNECTED event, a failed accept, or a disconnect of our own; the
    destructor says so but flushes nothing) or when posting it throws. */
module BlockAccounting {
  import opened Collections
  import opened Regions
  import opened PoolContainers
  import Preposts

  type Qp = nat

  const PREPOSTS: nat := Preposts.MAX_PREPOSTS

  /** `posted` pairs a queue pair with a block in its receive queue; `waiting`
      holds the counter of every live client. */
  datatype System = System(small: Pool, waiting: map<Qp, nat>, posted: set<(Qp, Region)>,
                           app: set<Region>, stranded: set<Region>)

  datatype Step =
    | Allocate
    | Deallocate(b: Region)
    | Connect(qp: Qp)
    | Post(qp: Qp)
    | PostThrows(qp: Qp)
    | Complete(qp: Qp, b: Region)
    | Close(qp: Qp)

  /** Callers free what they hold; queue-pair numbers of live clients are
      unique; a completion reports a posted block, and the completion callback
      takes one receive off the counter and keeps the block. */
  predicate Enabled(s: System, step: Step) {
    match step
    case Allocate => s.small.free != []
    case Deallocate(b) => b in s.app
    case Connect(qp) => qp !in s.waiting
    case Post(qp) => qp in s.waiting && s.waiting[qp] < PREPOSTS && s.small.free != []
    case PostThrows(qp) => qp in s.waiting && s.waiting[qp] < PREPOSTS && s.small.free != []
    case Complete(qp, b) => qp in s.waiting && s.waiting[qp] > 0 && (qp, b) in s.posted
    case Close(qp) => qp in s.waiting
  }

  function Apply(s: System, step: Step): System
    requires Enabled(s, step)
  {
    match step
    case Allocate => s.(small := Popped(s.small), app := s.app + {Top(s.small)})
    case Deallocate(b) => s.(small := Pushed(s.small, b), app := s.app - {b})
    case Connect(qp) => s.(waiting := s.waiting[qp := 0])
    case Post(qp) =>
      s.(small := Popped(s.small), posted := s.posted + {(qp, Top(s.small))},
         waiting := s.waiting[qp := s.waiting[qp] + 1])
    case PostThrows(qp) => s.(small := Popped(s.small), stranded := s.stranded + {Top(s.small)})
    case Complete(qp, b) =>
      s.(posted := s.posted - {(qp, b)}, app := s.app + {b}, waiting := s.waiting[qp := s.waiting[qp] - 1])
    case Close(qp) =>
      s.(waiting := s.waiting - {qp}, posted := s.posted - PostedOn(s.posted, qp),
         stranded := s.stranded + BlocksOf(PostedOn(s.posted, qp)))
  }

  function PostedOn(posted: set<(Qp, Region)>, qp: Qp): set<(Qp, Region)> {
    set p | p in posted && p.0 == qp
  }

  function BlocksOf(posted: set<(Qp, Region)>): set<Region> {
    set p | p in posted :: p.1
  }

  predicate Run(s: System, steps: seq<Step>)
    decreases |steps|
  {
    steps == [] || (Enabled(s, steps[0]) && Run(Apply(s, steps[0]), steps[1..]))
  }

  function End(s: System, steps: seq<Step>): System
    requires Run(s, steps)
    decreases |steps|
  {
    if steps == [] then s else End(Apply(s, steps[0]), steps[1..])
  }

  // -------------------------------------------------------------- invariants

  /** One block, one client. */
  ghost predicate OneClient(posted: set<(Qp, Region)>) {
    forall p, q :: p in posted && q in posted && p.1 == q.1 ==> p == q
  }

  /** Four places, each block in exactly one. */
  ghost predicate Partition(blocks: set<Region>, free: set<Region>, posted: set<Region>,
                            app: set<Region>, lost: set<Region>) {
    forall b ::
      && (b in blocks <==> b in free || b in posted || b in app || b in lost)
      && (b in free ==> b !in posted && b !in app && b !in lost)
      && (b in posted ==> b !in app && b !in lost)
      && (b in app ==> b !in lost)
  }

  ghost predicate Placed(s: System) {
    && Distinct(s.small.free) && OneClient(s.posted)
    && Partition(s.small.blocks, Elements(s.small.free), BlocksOf(s.posted), s.app, s.stranded)
  }

  ghost predicate Counted(s: System) {
    && (forall p :: p in s.posted ==> p.0 in s.waiting)
    && (forall qp :: qp in s.waiting ==> s.waiting[qp] == |PostedOn(s.posted, qp)|)
    && s.small.useCount == |s.posted| + |s.app| + |s.stranded|
  }

  ghost predicate Inv(s: System) {
    Placed(s) && Counted(s)
  }

  /** A pool just built, no client yet. */
  ghost predicate Init(s: System) {
    && Balanced(s.small) && Quiescent(s.small)
    && s.waiting == map[] && s.posted == {} && s.app == {} && s.stranded == {}
  }

  lemma InitInv(s: System)
    requires Init(s)
    ensures Inv(s)
  {
    DistinctSize(s.small.free);
    SubsetSize(Elements(s.small.free), s.small.blocks);
    assert BlocksOf({}) == {};
  }

  lemma BlocksOfChange(posted: set<(Qp, Region)>, p: (Qp, Region))
    ensures BlocksOf(posted + {p}) == BlocksOf(posted) + {p.1}
    ensures OneClient(posted) && p in posted ==> BlocksOf(posted - {p}) == BlocksOf(posted) - {p.1}
  {
    forall b ensures b in BlocksOf(posted + {p}) <==> b in BlocksOf(posted) + {p.1} {
      if b in BlocksOf(posted) {
        var q :| q in posted && q.1 == b;
        assert q in posted + {p};
      }
      assert p in posted + {p};
    }
    if OneClient(posted) && p in posted {
      forall b ensures b in BlocksOf(posted - {p}) <==> b in BlocksOf(posted) - {p.1} {
        if b in BlocksOf(posted) - {p.1} {
          var q :| q in posted && q.1 == b;
          assert q in posted - {p};
        }
      }
    }
  }

  lemma PostedOnChange(posted: set<(Qp, Region)>, p: (Qp, Region), qp: Qp)
    ensures p !in posted ==> |PostedOn(posted + {p}, qp)| == |PostedOn(posted, qp)| + if p.0 == qp then 1 else 0
    ensures p in posted ==> |PostedOn(posted - {p}, qp)| == |PostedOn(posted, qp)| - if p.0 == qp then 1 else 0
  {
    assert PostedOn(posted + {p}, qp) == if p.0 == qp then PostedOn(posted, qp) + {p} else PostedOn(posted, qp);
    assert PostedOn(posted - {p}, qp) == PostedOn(posted, qp) - {p};
  }

  lemma TopLeaves(p: Pool)
    requires Distinct(p.free) && p.free != []
    ensures Distinct(Popped(p).free) && Elements(Popped(p).free) == Elements(p.free) - {Top(p)}
    ensures Top(p) in Elements(p.free)
  {
    assert p.free == Popped(p).free + [Top(p)];
    assert Top(p) !in Popped(p).free;
  }

  lemma NotPosted(posted: set<(Qp, Region)>, b: Region)
    requires b !in BlocksOf(posted)
    ensures forall p :: p in posted ==> p.1 != b
  {
    forall p | p in posted ensures p.1 != b {
      assert p.1 in BlocksOf(posted);
    }
  }

  lemma PopStep(s: System, step: Step)
    requires Inv(s) && Enabled(s, step) && (step.Allocate? || step.PostThrows?)
    ensures Inv(Apply(s, step))
  {
    TopLeaves(s.small);
    var s' := Apply(s, step);
    assert Partition(s'.small.blocks, Elements(s'.small.free), BlocksOf(s'.posted), s'.app, s'.stranded);
  }

  lemma PostPlaced(s: System, qp: Qp)
    requires Placed(s) && Enabled(s, Post(qp))
    ensures Placed(Apply(s, Post(qp))) && (qp, Top(s.small)) !in s.posted
  {
    TopLeaves(s.small);
    NotPosted(s.posted, Top(s.small));
    BlocksOfChange(s.posted, (qp, Top(s.small)));
  }

  lemma PostStep(s: System, qp: Qp)
    requires Inv(s) && Enabled(s, Post(qp))
    ensures Inv(Apply(s, Post(qp)))
  {
    PostPlaced(s, qp);
    var p := (qp, Top(s.small));
    forall q ensures |PostedOn(s.posted + {p}, q)| == |PostedOn(s.posted, q)| + if p.0 == q then 1 else 0 {
      PostedOnChange(s.posted, p, q);
    }
  }

  lemma DeallocateStep(s: System, b: Region)
    requires Inv(s) && Enabled(s, Deallocate(b))
    ensures Inv(Apply(s, Deallocate(b)))
  {
    var s' := Apply(s, Deallocate(b));
    assert b !in Elements(s.small.free);
    assert Elements(s'.small.free) == Elements(s.small.free) + {b};
    assert Partition(s'.small.blocks, Elements(s'.small.free), BlocksOf(s'.posted), s'.app, s'.stranded);
  }

  lemma CompletePlaced(s: System, qp: Qp, b: Region)
    requires Placed(s) && Enabled(s, Complete(qp, b))
    ensures Placed(Apply(s, Complete(qp, b))) && b !in s.app
  {
    BlocksOfChange(s.posted, (qp, b));
    assert b in BlocksOf(s.posted);
  }

  lemma CompleteStep(s: System, qp: Qp, b: Region)
    requires Inv(s) && Enabled(s, Complete(qp, b))
    ensures Inv(Apply(s, Complete(qp, b)))
  {
    CompletePlaced(s, qp, b);
    var p := (qp, b);
    forall q ensures |PostedOn(s.posted - {p}, q)| == |PostedOn(s.posted, q)| - if p.0 == q then 1 else 0 {
      PostedOnChange(s.posted, p, q);
    }
  }

  lemma BlocksOfSize(posted: set<(Qp, Region)>)
    requires OneClient(posted)
    ensures |BlocksOf(posted)| == |posted|
  {
    if posted == {} {
      assert BlocksOf(posted) == {};
    } else {
      var p :| p in posted;
      BlocksOfSize(posted - {p});
      BlocksOfChange(posted, p);
      assert p.1 in BlocksOf(posted);
    }
  }

  /** The receives of one client against those of the others. */
  lemma PostedSplit(posted: set<(Qp, Region)>, qp: Qp)
    requires OneClient(posted)
    ensures var on, off := PostedOn(posted, qp), posted - PostedOn(posted, qp);
            && (forall b :: b in BlocksOf(posted) <==> b in BlocksOf(on) || b in BlocksOf(off))
            && (forall b :: b in BlocksOf(on) ==> b !in BlocksOf(off))
            && |BlocksOf(on)| == |on| && |off| == |posted| - |on|
            && (forall q :: q != qp ==> PostedOn(off, q) == PostedOn(posted, q))
  {
    var on, off := PostedOn(posted, qp), posted - PostedOn(posted, qp);
    BlocksOfSize(on);
    forall b ensures b in BlocksOf(posted) <==> b in BlocksOf(on) || b in BlocksOf(off) {
      if b in BlocksOf(posted) {
        var p :| p in posted && p.1 == b;
        assert p in on || p in off;
      }
    }
    forall q | q != qp ensures PostedOn(off, q) == PostedOn(posted, q) {}
  }

  /** Closing a client strands exactly the receives it was waiting for. */
  lemma CloseStep(s: System, qp: Qp)
    requires Inv(s) && Enabled(s, Close(qp))
    ensures var s' := Apply(s, Close(qp));
            && Inv(s')
            && s'.stranded == s.stranded + BlocksOf(PostedOn(s.posted, qp))
            && |s'.stranded| == |s.stranded| + s.waiting[qp]
            && s'.small == s.small && s'.app == s.app
  {
    PostedSplit(s.posted, qp);
    ClosePlaced(s, qp);
    assert s.stranded !! BlocksOf(PostedOn(s.posted, qp));
  }

  lemma ClosePlaced(s: System, qp: Qp)
    requires Placed(s) && Enabled(s, Close(qp))
    ensures Placed(Apply(s, Close(qp)))
    ensures forall b :: b in BlocksOf(PostedOn(s.posted, qp)) ==> b !in s.stranded
  {
    PostedSplit(s.posted, qp);
    var on, off := PostedOn(s.posted, qp), s.posted - PostedOn(s.posted, qp);
    assert Partition(s.small.blocks, Elements(s.small.free), BlocksOf(off), s.app, s.stranded + BlocksOf(on));
  }

  lemma StepInv(s: System, step: Step)
    requires Inv(s) && Enabled(s, step)
    ensures Inv(Apply(s, step))
    ensures Apply(s, step).small.blocks == s.small.blocks && s.stranded <= Apply(s, step).stranded
  {
    match step
    case Allocate => PopStep(s, step);
    case PostThrows(_) => PopStep(s, step);
    case Deallocate(b) => DeallocateStep(s, b);
    case Connect(qp) =>
      assert PostedOn(s.posted, qp) == {} by {
        assert forall p :: p in s.posted ==> p.0 in s.waiting;
      }
    case Post(qp) => PostStep(s, qp);
    case Complete(qp, b) => CompleteStep(s, qp, b);
    case Close(qp) => CloseStep(s, qp);
  }

  lemma {:induction false} RunInv(s: System, steps: seq<Step>)
    requires Inv(s) && Run(s, steps)
    ensures Inv(End(s, steps))
    ensures End(s, steps).small.blocks == s.small.blocks && s.stranded <= End(s, steps).stranded
    decreases |steps|
  {
    if steps == [] {
    } else {
      StepInv(s, steps[0]);
      RunInv(Apply(s, steps[0]), steps[1..]);
    }
  }

  // ------------------------------------------------------------ main results

  /** Conservation over every run: no block is lost track of, none is in two
      places, the use count is what is posted, held and stranded, and each
      client's counter is the number of its posted blocks. */
  lemma Conservation(s0: System, steps: seq<Step>)
    requires Init(s0) && Run(s0, steps)
    ensures var s := End(s0, steps);
            && s.small.blocks == s0.small.blocks
            && s.small.blocks == Elements(s.small.free) + BlocksOf(s.posted) + s.app + s.stranded
            && Elements(s.small.free) !! BlocksOf(s.posted) !! s.app !! s.stranded
            && OneClient(s.posted)
            && s.small.useCount == |s.posted| + |s.app| + |s.stranded|
            && |s.small.free| + s.small.useCount == |s.small.blocks|
            && (forall qp :: qp in s.waiting ==> s.waiting[qp] == |PostedOn(s.posted, qp)|)
  {
    InitInv(s0);
    RunInv(s0, steps);
    Sizes(End(s0, steps));
  }

  lemma Sizes(s: System)
    requires Inv(s)
    ensures |s.small.free| + |s.posted| + |s.app| + |s.stranded| == |s.small.blocks|
  {
    DistinctSize(s.small.free);
    BlocksOfSize(s.posted);
    PartitionSize(s.small.blocks, Elements(s.small.free), BlocksOf(s.posted), s.app, s.stranded);
  }

  lemma PartitionSize(blocks: set<Region>, free: set<Region>, posted: set<Region>, app: set<Region>, lost: set<Region>)
    requires Partition(blocks, free, posted, app, lost)
    ensures |free| + |posted| + |app| + |lost| == |blocks|
  {
    var two := free + posted;
    assert free !! posted;
    var three := two + app;
    assert two !! app;
    assert three !! lost;
    assert blocks == three + lost;
  }

  /** How many blocks are in each place, or by how much that changes. */
  datatype Tally = Tally(free: int, posted: int, app: int, stranded: int)

  function TallyOf(s: System): Tally {
    Tally(|s.small.free|, |s.posted|, |s.app|, |s.stranded|)
  }

  function Plus(a: Tally, b: Tally): Tally {
    Tally(a.free + b.free, a.posted + b.posted, a.app + b.app, a.stranded + b.stranded)
  }

  /** From which place to which a step takes how many blocks. */
  function Moved(s: System, step: Step): Tally
    requires Enabled(s, step)
  {
    match step
    case Allocate => Tally(-1, 0, 1, 0)
    case Deallocate(_) => Tally(1, 0, -1, 0)
    case Connect(_) => Tally(0, 0, 0, 0)
    case Post(_) => Tally(-1, 1, 0, 0)
    case PostThrows(_) => Tally(-1, 0, 0, 1)
    case Complete(_, _) => Tally(0, -1, 1, 0)
    case Close(qp) => Tally(0, -(s.waiting[qp] as int), 0, s.waiting[qp])
  }

  function MovedBy(s: System, steps: seq<Step>): Tally
    requires Run(s, steps)
    decreases |steps|
  {
    if steps == [] then Tally(0, 0, 0, 0)
    else Plus(Moved(s, steps[0]), MovedBy(Apply(s, steps[0]), steps[1..]))
  }

  /** Receives waiting at clients closed in the run, and posts refused in it. */
  function ClosedWith(s: System, steps: seq<Step>): nat
    requires Run(s, steps)
    decreases |steps|
  {
    if steps == [] then 0
    else (if steps[0].Close? then s.waiting[steps[0].qp] else 0) + ClosedWith(Apply(s, steps[0]), steps[1..])
  }

  function Refused(steps: seq<Step>): nat {
    if steps == [] then 0 else (if steps[0].PostThrows? then 1 else 0) + Refused(steps[1..])
  }

  lemma PopMoves(s: System, step: Step)
    requires Inv(s) && Enabled(s, step) && (step.Allocate? || step.PostThrows?)
    ensures TallyOf(Apply(s, step)) == Plus(TallyOf(s), Moved(s, step))
  {
    TopLeaves(s.small);
    assert Top(s.small) !in s.app && Top(s.small) !in s.stranded;
  }

  lemma PostMoves(s: System, step: Step)
    requires Inv(s) && Enabled(s, step) && (step.Post? || step.Complete?)
    ensures TallyOf(Apply(s, step)) == Plus(TallyOf(s), Moved(s, step))
  {
    match step
    case Post(qp) => PostPlaced(s, qp);
    case Complete(qp, b) => CompletePlaced(s, qp, b);
  }

  lemma CloseMoves(s: System, qp: Qp)
    requires Inv(s) && Enabled(s, Close(qp))
    ensures TallyOf(Apply(s, Close(qp))) == Plus(TallyOf(s), Moved(s, Close(qp)))
  {
    PostedSplit(s.posted, qp);
    CloseStep(s, qp);
  }

  /** A step moves as many blocks as it says, from the one place to the other:
      an allocated block is the application's, a posted one the client's. */
  lemma MovesExactly(s: System, step: Step)
    requires Inv(s) && Enabled(s, step)
    ensures TallyOf(Apply(s, step)) == Plus(TallyOf(s), Moved(s, step))
  {
    match step
    case Allocate => PopMoves(s, step);
    case PostThrows(_) => PopMoves(s, step);
    case Post(_) => PostMoves(s, step);
    case Complete(_, _) => PostMoves(s, step);
    case Close(qp) => CloseMoves(s, qp);
    case _ =>
  }

  lemma {:induction false} RunMovesExactly(s: System, steps: seq<Step>)
    requires Inv(s) && Run(s, steps)
    ensures TallyOf(End(s, steps)) == Plus(TallyOf(s), MovedBy(s, steps))
    decreases |steps|
  {
    if steps == [] {
    } else {
      StepInv(s, steps[0]);
      MovesExactly(s, steps[0]);
      RunMovesExactly(Apply(s, steps[0]), steps[1..]);
    }
  }

  /** Over every run the stranded blocks grow by exactly the receives waiting at
      the clients that are closed and the posts that are refused: no allocation,
      no completion and no return of a block strands any. */
  lemma {:induction false} StrandedExactly(s: System, steps: seq<Step>)
    requires Inv(s) && Run(s, steps)
    ensures |End(s, steps).stranded| == |s.stranded| + ClosedWith(s, steps) + Refused(steps)
    decreases |steps|
  {
    if steps == [] {
    } else {
      StepInv(s, steps[0]);
      MovesExactly(s, steps[0]);
      StrandedExactly(Apply(s, steps[0]), steps[1..]);
    }
  }

  /** What is allocated is the application's and can be returned, which puts
      everything back as it was. */
  lemma DeallocateUndoesAllocate(s: System)
    requires Inv(s) && s.small.free != []
    ensures var held := Apply(s, Allocate);
            && held.app == s.app + {Top(s.small)} && held.stranded == s.stranded && held.posted == s.posted
            && Enabled(held, Deallocate(Top(s.small))) && Apply(held, Deallocate(Top(s.small))) == s
  {
    TopLeaves(s.small);
    assert s.small.free == Popped(s.small).free + [Top(s.small)];
    assert s.app + {Top(s.small)} - {Top(s.small)} == s.app;
  }

  /** A completed block is the application's and can be returned: it is then free
      as if it had never been posted. */
  lemma DeallocateAfterComplete(s: System, qp: Qp, b: Region)
    requires Inv(s) && Enabled(s, Complete(qp, b))
    ensures var done := Apply(s, Complete(qp, b));
            && done.app == s.app + {b} && done.stranded == s.stranded && done.small == s.small
            && Enabled(done, Deallocate(b))
            && Apply(done, Deallocate(b))
               == s.(small := Pushed(s.small, b), posted := s.posted - {(qp, b)},
                     waiting := s.waiting[qp := s.waiting[qp] - 1])
  {
    CompletePlaced(s, qp, b);
    assert s.app + {b} - {b} == s.app;
  }

  /** A block posted and completed at once might as well have been allocated;
      returning it leaves everything as it was. */
  lemma CompleteUndoesPost(s: System, qp: Qp)
    requires Inv(s) && Enabled(s, Post(qp))
    ensures var b, posted := Top(s.small), Apply(s, Post(qp));
            && Enabled(posted, Complete(qp, b))
            && Apply(posted, Complete(qp, b)) == Apply(s, Allocate)
  {
    PostPlaced(s, qp);
    var p := (qp, Top(s.small));
    assert s.posted + {p} - {p} == s.posted;
    assert s.waiting[qp := s.waiting[qp] + 1][qp := s.waiting[qp]] == s.waiting;
  }

  /** The clients with a full complement, the application and the stranded
      blocks share the pool: at no time do more clients have one than fit, and
      what is stranded once counts against every later state. */
  lemma FullClientsFit(s0: System, steps: seq<Step>, later: seq<Step>, full: set<Qp>)
    requires Init(s0) && Run(s0, steps) && Run(End(s0, steps), later)
    requires forall qp :: qp in full ==>
               var s := End(End(s0, steps), later); qp in s.waiting && s.waiting[qp] >= PREPOSTS
    ensures PREPOSTS * |full| + |End(s0, steps).stranded| <= |s0.small.blocks|
    ensures |s0.small.blocks| == 64 ==> |full| <= 2
    ensures |s0.small.blocks| == 64 && |End(s0, steps).stranded| > 32 ==> full == {}
  {
    InitInv(s0);
    RunInv(s0, steps);
    RunInv(End(s0, steps), later);
    var s := End(End(s0, steps), later);
    Sizes(s);
    FullClients(s.posted, full);
    SubsetSize(End(s0, steps).stranded, s.stranded);
    if |full| >= 1 && |End(s0, steps).stranded| > 32 {
      assert PREPOSTS * |full| >= PREPOSTS;
    }
  }

  lemma {:induction false} FullClients(posted: set<(Qp, Region)>, full: set<Qp>)
    requires forall qp :: qp in full ==> |PostedOn(posted, qp)| >= PREPOSTS
    ensures PREPOSTS * |full| <= |posted|
    decreases full
  {
    if full == {} {
    } else {
      var qp :| qp in full;
      var on, off := PostedOn(posted, qp), posted - PostedOn(posted, qp);
      forall q | q in full - {qp} ensures PostedOn(off, q) == PostedOn(posted, q) {}
      FullClients(off, full - {qp});
      assert posted == on + off;
      assert |full - {qp}| == |full| - 1;
    }
  }

  /** When every block is stranded the pool is dry for ever: no allocation, no
      posted receive, every client that ever connects waits for none. */
  lemma DryForEver(s: System, steps: seq<Step>)
    requires Inv(s) && s.stranded == s.small.blocks && Run(s, steps)
    ensures var e := End(s, steps);
            && e.small.free == [] && e.posted == {} && e.app == {}
            && (forall qp :: qp in e.waiting ==> e.waiting[qp] == 0)
            && (s.small.blocks != {} ==> !Quiescent(e.small))
  {
    RunInv(s, steps);
    var e := End(s, steps);
    Sizes(e);
    SubsetSize(s.stranded, e.stranded);
    forall qp | qp in e.waiting ensures e.waiting[qp] == 0 {
      assert PostedOn(e.posted, qp) <= e.posted;
    }
  }

  /** A stranded block is never given back: no run deallocates it, and it is
      never on the free list again. */
  lemma {:induction false} StrandedForEver(s: System, steps: seq<Step>, b: Region)
    requires Inv(s) && Run(s, steps) && b in s.stranded
    ensures b in End(s, steps).stranded && b !in End(s, steps).small.free
    ensures forall i :: 0 <= i < |steps| ==> steps[i] != Deallocate(b)
    decreases |steps|
  {
    if steps == [] {
    } else {
      StepInv(s, steps[0]);
      StrandedForEver(Apply(s, steps[0]), steps[1..], b);
    }
  }

  // ---------------------------------------------------------------- refilling

  function Missing(waiting: map<Qp, nat>, qps: seq<Qp>): nat {
    if qps == [] then 0
    else
      var qp := qps[|qps| - 1];
      Missing(waiting, qps[..|qps| - 1])
      + if qp in waiting && waiting[qp] < PREPOSTS then PREPOSTS - waiting[qp] else 0
  }

  ghost predicate Lists(qps: seq<Qp>, waiting: map<Qp, nat>) {
    Distinct(qps) && forall qp :: qp in qps <==> qp in waiting
  }

  predicate PostsOnly(steps: seq<Step>) {
    forall i :: 0 <= i < |steps| ==> steps[i].Post?
  }

  predicate AllFull(s: System) {
    forall qp :: qp in s.waiting ==> s.waiting[qp] >= PREPOSTS
  }

  lemma {:induction false} MissingStep(waiting: map<Qp, nat>, qps: seq<Qp>, qp: Qp)
    requires Distinct(qps) && qp in waiting && waiting[qp] < PREPOSTS
    ensures Missing(waiting[qp := waiting[qp] + 1], qps) == Missing(waiting, qps) - if qp in qps then 1 else 0
  {
    if qps == [] {
    } else {
      MissingStep(waiting, qps[..|qps| - 1], qp);
      assert qps == qps[..|qps| - 1] + [qps[|qps| - 1]];
    }
  }

  lemma {:induction false} MissingZero(waiting: map<Qp, nat>, qps: seq<Qp>)
    requires forall qp :: qp in qps ==> qp in waiting
    ensures Missing(waiting, qps) == 0 <==> forall qp :: qp in qps ==> waiting[qp] >= PREPOSTS
  {
    if qps == [] {
    } else {
      MissingZero(waiting, qps[..|qps| - 1]);
      assert qps == qps[..|qps| - 1] + [qps[|qps| - 1]];
    }
  }

  /** Posts in whatever order, by one thread or several: each makes up for one
      missing receive and costs one free block. */
  lemma {:induction false} PostRun(s: System, steps: seq<Step>, qps: seq<Qp>)
    requires Run(s, steps) && PostsOnly(steps) && Lists(qps, s.waiting)
    ensures var e := End(s, steps);
            && Lists(qps, e.waiting)
            && |e.small.free| == |s.small.free| - |steps|
            && Missing(e.waiting, qps) == Missing(s.waiting, qps) - |steps|
    decreases |steps|
  {
    if steps == [] {
    } else {
      MissingStep(s.waiting, qps, steps[0].qp);
      PostRun(Apply(s, steps[0]), steps[1..], qps);
    }
  }

  lemma {:induction false} FillUp(s: System, qps: seq<Qp>) returns (steps: seq<Step>)
    requires Lists(qps, s.waiting) && Missing(s.waiting, qps) <= |s.small.free|
    ensures Run(s, steps) && PostsOnly(steps) && AllFull(End(s, steps))
    decreases Missing(s.waiting, qps)
  {
    MissingZero(s.waiting, qps);
    if Missing(s.waiting, qps) == 0 {
      steps := [];
    } else {
      var qp :| qp in qps && s.waiting[qp] < PREPOSTS;
      MissingStep(s.waiting, qps, qp);
      var rest := FillUp(Apply(s, Post(qp)), qps);
      steps := [Post(qp)] + rest;
      assert steps[1..] == rest;
    }
  }

  /** Every client can be brought to its full complement exactly when the free
      blocks are at least the missing receives; the posts are then as many. */
  lemma RefillExact(s: System, qps: seq<Qp>)
    requires Lists(qps, s.waiting)
    ensures (exists steps :: Run(s, steps) && PostsOnly(steps) && AllFull(End(s, steps)))
            <==> Missing(s.waiting, qps) <= |s.small.free|
    ensures forall steps :: Run(s, steps) && PostsOnly(steps) && AllFull(End(s, steps)) ==>
              |steps| == Missing(s.waiting, qps) && |End(s, steps).small.free| == |s.small.free| - |steps|
  {
    forall steps | Run(s, steps) && PostsOnly(steps) && AllFull(End(s, steps))
      ensures |steps| == Missing(s.waiting, qps) <= |s.small.free|
      ensures |End(s, steps).small.free| == |s.small.free| - |steps|
    {
      PostRun(s, steps, qps);
      MissingZero(End(s, steps).waiting, qps);
    }
    if Missing(s.waiting, qps) <= |s.small.free| {
      var steps := FillUp(s, qps);
    }
  }

  /** `n` posts to one client are what Preposts.Connection.RefillPreposts does
      in one go: the same blocks in the same order, the same pool. */
  lemma {:induction false} RefillIsPosts(s: System, qp: Qp, n: nat) returns (steps: seq<Step>)
    requires qp in s.waiting && s.waiting[qp] + n <= PREPOSTS && n <= |s.small.free|
    ensures PostsOnly(steps) && |steps| == n && Run(s, steps)
    ensures var e, taken := End(s, steps), Preposts.Taken(s.small, n);
            && e.small == Preposts.Dispensed(s.small, n)
            && e.posted == s.posted + (set b | b in taken :: (qp, b))
            && e.waiting == s.waiting[qp := s.waiting[qp] + n]
            && e.app == s.app && e.stranded == s.stranded
    decreases n
  {
    if n == 0 {
      steps := [];
      assert s.waiting[qp := s.waiting[qp]] == s.waiting;
    } else {
      TakenHead(s.small, n);
      var rest := RefillIsPosts(Apply(s, Post(qp)), qp, n - 1);
      steps := RunCons(s, Post(qp), rest);
      assert forall i :: 0 < i < n ==> steps[i] == rest[i - 1];
    }
  }

  lemma TakenHead(p: Pool, n: nat)
    requires 0 < n <= |p.free|
    ensures Preposts.Taken(p, n) == [Top(p)] + Preposts.Taken(Popped(p), n - 1)
    ensures Preposts.Dispensed(p, n) == Preposts.Dispensed(Popped(p), n - 1)
  {
  }

  // ----------------------------------------------- clients that send nothing

  lemma RunCons(s: System, step: Step, rest: seq<Step>) returns (run: seq<Step>)
    requires Enabled(s, step) && Run(Apply(s, step), rest)
    ensures run == [step] + rest && Run(s, run) && End(s, run) == End(Apply(s, step), rest)
  {
    run := [step] + rest;
    assert run[1..] == rest;
  }

  lemma {:induction false} RunAppend(s: System, a: seq<Step>, b: seq<Step>)
    requires Run(s, a) && Run(End(s, a), b)
    ensures Run(s, a + b) && End(s, a + b) == End(End(s, a), b)
    decreases |a|
  {
    if a == [] {
      assert a + b == b;
    } else {
      RunAppend(Apply(s, a[0]), a[1..], b);
      assert (a + b)[1..] == a[1..] + b;
    }
  }

  /** A client is refilled to its complement and then closed. */
  lemma {:induction false} PostAndClose(s: System, qp: Qp, n: nat) returns (steps: seq<Step>)
    requires Inv(s) && qp in s.waiting && n <= |s.small.free| && s.waiting[qp] + n == PREPOSTS
    ensures Run(s, steps)
    ensures var e := End(s, steps);
            && Inv(e) && qp !in e.waiting && e.small.blocks == s.small.blocks
            && |e.small.free| == |s.small.free| - n
            && |e.stranded| == |s.stranded| + PREPOSTS
    decreases n
  {
    if n == 0 {
      CloseStep(s, qp);
      steps := RunCons(s, Close(qp), []);
    } else {
      PostStep(s, qp);
      var rest := PostAndClose(Apply(s, Post(qp)), qp, n - 1);
      steps := RunCons(s, Post(qp), rest);
    }
  }

  /** A client that connects, is given its receives and goes away without
      sending anything costs the pool a full complement. */
  lemma SilentClient(s: System, qp: Qp) returns (steps: seq<Step>)
    requires Inv(s) && qp !in s.waiting && |s.small.free| >= PREPOSTS
    ensures Run(s, steps)
    ensures var e := End(s, steps);
            && Inv(e) && qp !in e.waiting && e.small.blocks == s.small.blocks
            && |e.small.free| == |s.small.free| - PREPOSTS
            && |e.stranded| == |s.stranded| + PREPOSTS
  {
    StepInv(s, Connect(qp));
    var rest := PostAndClose(Apply(s, Connect(qp)), qp, PREPOSTS);
    steps := RunCons(s, Connect(qp), rest);
  }

  /** Two of them, one after the other, dry a pool of 64 blocks for good: from
      then on no run has a free block, and a client that connects is never
      given a receive, so that refilling it cannot come to an end. */
  lemma TwoSilentClients(s0: System, qp: Qp) returns (steps: seq<Step>)
    requires Init(s0) && |s0.small.blocks| == 64
    ensures Run(s0, steps) && End(s0, steps).stranded == s0.small.blocks
    ensures forall later :: Run(End(s0, steps), later) ==>
              var e := End(End(s0, steps), later);
              e.small.free == [] && (AllFull(e) <==> e.waiting == map[])
  {
    InitInv(s0);
    var first := SilentClient(s0, qp);
    var s1 := End(s0, first);
    var second := SilentClient(s1, qp);
    var s2 := End(s1, second);
    RunAppend(s0, first, second);
    steps := first + second;
    Sizes(s2);
    SubsetSize(s2.stranded, s2.small.blocks);
    forall later | Run(s2, later)
      ensures var e := End(s2, later); e.small.free == [] && (AllFull(e) <==> e.waiting == map[])
    {
      DryForEver(s2, later);
      var e := End(s2, later);
      if e.waiting != map[] {
        var q :| q in e.waiting;
      }
    }
  }
}
