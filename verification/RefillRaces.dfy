/** Several threads in refill_preposts of one client. The counter is tested, the
    pool is tested without its lock, a block is popped, posted and only then
    counted, all as steps of their own; a refused post throws; a completion is
    polled and only then counted off; and other users of the pool come in
    between. Threads are counted by where they stand. */
module RefillRaces {
  import opened Regions
  import Preposts

  const PREPOSTS: nat := Preposts.MAX_PREPOSTS

  /** `outside` are about to test the counter (or not refilling), `short` found
      it short, `popping` found a free block and are in pop(), `holding` have
      theirs, `posted` have posted it and not counted it. `waiting` is the
      counter without its wrap, `queue` the receives on the device, `polled` the
      completions not counted off yet, `lost` the blocks of refused posts. */
  datatype Race = Race(outside: nat, short: nat, popping: nat, holding: nat, posted: nat,
                       waiting: int, queue: nat, polled: nat, free: nat, lost: nat)

  datatype Step = SeeShort | SeeEmpty | SeeFree | Pop | Post | Throw | Count | Complete | Uncount | Take | Give

  /** The 64-bit counter seen through 32 bits: below zero it looks huge. */
  function Seen(waiting: int): nat {
    waiting % UINT32
  }

  predicate Enabled(s: Race, step: Step) {
    match step
    case SeeShort => s.outside > 0 && Seen(s.waiting) < PREPOSTS
    case SeeEmpty => s.short > 0 && s.free == 0
    case SeeFree => s.short > 0 && s.free > 0
    case Pop => s.popping > 0 && s.free > 0
    case Post => s.holding > 0
    case Throw => s.holding > 0
    case Count => s.posted > 0
    case Complete => s.queue > 0
    case Uncount => s.polled > 0
    case Take => s.free > 0
    case Give => true
  }

  function Apply(s: Race, step: Step): Race
    requires Enabled(s, step)
  {
    match step
    case SeeShort => s.(outside := s.outside - 1, short := s.short + 1)
    case SeeEmpty => s.(short := s.short - 1, outside := s.outside + 1)
    case SeeFree => s.(short := s.short - 1, popping := s.popping + 1)
    case Pop => s.(popping := s.popping - 1, holding := s.holding + 1, free := s.free - 1)
    case Post => s.(holding := s.holding - 1, posted := s.posted + 1, queue := s.queue + 1)
    case Throw => s.(holding := s.holding - 1, outside := s.outside + 1, lost := s.lost + 1)
    case Count => s.(posted := s.posted - 1, outside := s.outside + 1, waiting := s.waiting + 1)
    case Complete => s.(queue := s.queue - 1, polled := s.polled + 1)
    case Uncount => s.(polled := s.polled - 1, waiting := s.waiting - 1)
    case Take => s.(free := s.free - 1)
    case Give => s.(free := s.free + 1)
  }

  predicate Run(s: Race, steps: seq<Step>)
    decreases |steps|
  {
    steps == [] || (Enabled(s, steps[0]) && Run(Apply(s, steps[0]), steps[1..]))
  }

  function End(s: Race, steps: seq<Step>): Race
    requires Run(s, steps)
    decreases |steps|
  {
    if steps == [] then s else End(Apply(s, steps[0]), steps[1..])
  }

  function Threads(s: Race): nat {
    s.outside + s.short + s.popping + s.holding + s.posted
  }

  /** On the way: each of these will count one more, or give up. */
  function Coming(s: Race): nat {
    s.short + s.popping + s.holding + s.posted
  }

  ghost predicate Inv(s: Race) {
    && s.waiting == s.queue + s.polled - s.posted
    && s.waiting + Coming(s) <= PREPOSTS - 1 + Threads(s)
  }

  /** `n` threads, none refilling yet, and a client at most full. */
  ghost predicate Init(s: Race, n: nat) {
    n > 0 && s.outside == n && Coming(s) == 0
    && s.waiting == s.queue <= PREPOSTS && s.polled == 0 && n + PREPOSTS <= UINT32
  }

  function Start(n: nat, waiting: nat, free: nat): Race {
    Race(n, 0, 0, 0, 0, waiting, waiting, 0, free, 0)
  }

  /** The counter looks short exactly when it is: one below zero looks full. */
  lemma SeenShort(s: Race)
    requires s.waiting >= -(s.posted as int) && Threads(s) + PREPOSTS <= UINT32 && s.waiting < UINT32
    ensures Seen(s.waiting) < PREPOSTS <==> 0 <= s.waiting < PREPOSTS
  {
    if s.waiting < 0 {
      assert s.waiting % UINT32 == s.waiting + UINT32;
    }
  }

  lemma StepInv(s: Race, step: Step)
    requires Inv(s) && Enabled(s, step) && Threads(s) + PREPOSTS <= UINT32
    ensures Inv(Apply(s, step)) && Threads(Apply(s, step)) == Threads(s)
  {
    if step.SeeShort? {
      SeenShort(s);
    }
  }

  lemma {:induction false} RunInv(s: Race, steps: seq<Step>)
    requires Inv(s) && Run(s, steps) && Threads(s) + PREPOSTS <= UINT32
    ensures Inv(End(s, steps)) && Threads(End(s, steps)) == Threads(s)
    decreases |steps|
  {
    if steps == [] {
    } else {
      StepInv(s, steps[0]);
      RunInv(Apply(s, steps[0]), steps[1..]);
    }
  }

  /** However n threads and the completions interleave, a client never has more
      than 31 + n receives, on the device, in completions not counted off, or on
      the counter. The counter is the first two less the posts not counted yet;
      it may run below zero, by no more than those. With one thread the bound is
      the complement of 32. */
  lemma AtMostOneEachOver(s0: Race, n: nat, steps: seq<Step>)
    requires Init(s0, n) && Run(s0, steps)
    ensures var s := End(s0, steps);
            && s.waiting <= PREPOSTS - 1 + n && s.queue + s.polled <= PREPOSTS - 1 + n
            && s.waiting == s.queue + s.polled - s.posted >= -(n as int)
  {
    RunInv(s0, steps);
  }

  /** How often a step is taken. */
  function Times(steps: seq<Step>, step: Step): nat {
    if steps == [] then 0 else (if steps[0] == step then 1 else 0) + Times(steps[1..], step)
  }

  /** Over every interleaving, where the threads are is told by how often each
      step was taken, in whatever order. */
  lemma {:induction false} ThreadsTell(s: Race, steps: seq<Step>)
    requires Run(s, steps)
    ensures var e := End(s, steps);
            && e.short == s.short + Times(steps, SeeShort) - Times(steps, SeeEmpty) - Times(steps, SeeFree)
            && e.popping == s.popping + Times(steps, SeeFree) - Times(steps, Pop)
            && e.holding == s.holding + Times(steps, Pop) - Times(steps, Post) - Times(steps, Throw)
            && e.posted == s.posted + Times(steps, Post) - Times(steps, Count)
    decreases |steps|
  {
    if steps == [] {
    } else {
      ThreadsTell(Apply(s, steps[0]), steps[1..]);
    }
  }

  /** And so are the blocks. */
  lemma {:induction false} BlocksTell(s: Race, steps: seq<Step>)
    requires Run(s, steps)
    ensures var e := End(s, steps);
            && e.free == s.free + Times(steps, Give) - Times(steps, Take) - Times(steps, Pop)
            && e.queue == s.queue + Times(steps, Post) - Times(steps, Complete)
            && e.lost == s.lost + Times(steps, Throw)
    decreases |steps|
  {
    if steps == [] {
    } else {
      BlocksTell(Apply(s, steps[0]), steps[1..]);
    }
  }

  /** And the completions and the counter. */
  lemma {:induction false} CountsTell(s: Race, steps: seq<Step>)
    requires Run(s, steps)
    ensures var e := End(s, steps);
            && e.polled == s.polled + Times(steps, Complete) - Times(steps, Uncount)
            && e.waiting == s.waiting + Times(steps, Count) - Times(steps, Uncount)
    decreases |steps|
  {
    if steps == [] {
    } else {
      CountsTell(Apply(s, steps[0]), steps[1..]);
    }
  }

  /** So refilling makes and loses no block but one for each refused post: what
      the pool, the threads, the receives and the completions not counted off
      account for changes with what others take and give and what is counted off. */
  lemma RefillsConserve(s: Race, steps: seq<Step>)
    requires Run(s, steps)
    ensures var e := End(s, steps);
            e.free + e.holding + e.queue + e.polled
            == s.free + s.holding + s.queue + s.polled - Times(steps, Throw)
               + Times(steps, Give) - Times(steps, Take) - Times(steps, Uncount)
  {
    ThreadsTell(s, steps);
    BlocksTell(s, steps);
    CountsTell(s, steps);
  }

  /** With the pool dry a thread goes round its loop and nothing comes of it. */
  lemma {:induction false} SpinsWhenDry(s: Race, n: nat) returns (steps: seq<Step>)
    requires s.outside > 0 && Seen(s.waiting) < PREPOSTS && s.free == 0
    ensures |steps| == 2 * n && Run(s, steps) && End(s, steps) == s
    decreases n
  {
    if n == 0 {
      steps := [];
    } else {
      var rest := SpinsWhenDry(s, n - 1);
      steps := [SeeShort, SeeEmpty] + rest;
      assert steps[1..][1..] == rest;
    }
  }

  // ------------------------------------------------------ the bound is reached

  /** `n` threads take the same step, one after the other. */
  function All(n: nat, step: Step): (steps: seq<Step>)
    ensures |steps| == n
  {
    seq(n, _ => step)
  }

  predicate CanAll(s: Race, n: nat, step: Step) {
    match step
    case SeeShort => n <= s.outside && Seen(s.waiting) < PREPOSTS
    case SeeFree => n <= s.short && s.free > 0
    case Pop => n <= s.popping && n <= s.free
    case Post => n <= s.holding
    case Count => n <= s.posted
    case _ => n == 0
  }

  function Moved(s: Race, n: nat, step: Step): Race
    requires CanAll(s, n, step)
  {
    match step
    case SeeShort => s.(outside := s.outside - n, short := s.short + n)
    case SeeFree => s.(short := s.short - n, popping := s.popping + n)
    case Pop => s.(popping := s.popping - n, holding := s.holding + n, free := s.free - n)
    case Post => s.(holding := s.holding - n, posted := s.posted + n, queue := s.queue + n)
    case Count => s.(posted := s.posted - n, outside := s.outside + n, waiting := s.waiting + n)
    case _ => s
  }

  lemma {:induction false} AllMove(s: Race, n: nat, step: Step)
    requires CanAll(s, n, step)
    ensures Run(s, All(n, step)) && End(s, All(n, step)) == Moved(s, n, step)
    decreases n
  {
    if n == 0 {
    } else {
      AllMove(Apply(s, step), n - 1, step);
      assert All(n, step)[1..] == All(n - 1, step);
    }
  }

  lemma {:induction false} RunAppend(s: Race, a: seq<Step>, b: seq<Step>)
    requires Run(s, a) && Run(End(s, a), b)
    ensures Run(s, a + b) && End(s, a + b) == End(End(s, a), b)
    decreases |a|
  {
    if a == [] {
      assert a + b == b;
    } else {
      RunAppend(Apply(s, a[0]), a[1..], b);
      assert (a + b)[1..] == a[1..] + b;
    }
  }

  /** All threads see one receive missing, and each makes up for it. */
  lemma OneEachOver(s: Race, n: nat) returns (steps: seq<Step>)
    requires Init(s, n) && s.waiting == PREPOSTS - 1 && s.free >= n
    ensures Run(s, steps) && End(s, steps).waiting == End(s, steps).queue == PREPOSTS - 1 + n
  {
    AllMove(s, n, SeeShort);
    var s1 := Moved(s, n, SeeShort);
    AllMove(s1, n, SeeFree);
    var s2 := Moved(s1, n, SeeFree);
    AllMove(s2, n, Pop);
    var s3 := Moved(s2, n, Pop);
    AllMove(s3, n, Post);
    var s4 := Moved(s3, n, Post);
    AllMove(s4, n, Count);
    RunAppend(s3, All(n, Post), All(n, Count));
    RunAppend(s2, All(n, Pop), All(n, Post) + All(n, Count));
    RunAppend(s1, All(n, SeeFree), All(n, Pop) + (All(n, Post) + All(n, Count)));
    steps := All(n, SeeShort) + (All(n, SeeFree) + (All(n, Pop) + (All(n, Post) + All(n, Count))));
    RunAppend(s, All(n, SeeShort), All(n, SeeFree) + (All(n, Pop) + (All(n, Post) + All(n, Count))));
  }

  // ---------------------------------------------------------- blocked in pop()

  /** The test of the pool promises nothing: two threads see the same free block,
      one gets it, and the other waits in pop() for a block to come back, which
      it does until one does. */
  lemma TwoSeeOneBlock(waiting: nat) returns (steps: seq<Step>)
    requires waiting < PREPOSTS
    ensures var s := Start(2, waiting, 1);
            Init(s, 2) && Run(s, steps) && End(s, steps).popping == 1 && End(s, steps).free == 0
  {
    var s := Start(2, waiting, 1);
    AllMove(s, 2, SeeShort);
    var s1 := Moved(s, 2, SeeShort);
    AllMove(s1, 2, SeeFree);
    var s2 := Moved(s1, 2, SeeFree);
    AllMove(s2, 1, Pop);
    RunAppend(s1, All(2, SeeFree), All(1, Pop));
    steps := All(2, SeeShort) + (All(2, SeeFree) + All(1, Pop));
    RunAppend(s, All(2, SeeShort), All(2, SeeFree) + All(1, Pop));
  }

  lemma {:induction false} BlockedUntilGiven(s: Race, steps: seq<Step>)
    requires s.free == 0 && Run(s, steps) && forall i :: 0 <= i < |steps| ==> steps[i] != Give
    ensures End(s, steps).popping == s.popping && End(s, steps).free == 0
    decreases |steps|
  {
    if steps == [] {
    } else {
      BlockedUntilGiven(Apply(s, steps[0]), steps[1..]);
    }
  }
}
