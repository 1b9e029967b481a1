/** RdmaMemoryRegion: mapping and registering memory, the search for an
    unfragmented region on the BG/Q device, and release. The kernel and the
    verbs library appear as a `Device` value: which pages are mapped, which
    regions are registered, and the order of the calls that undo either. What
    they answer is a script given from outside. */
module RegionAllocation {
  import opened Collections
  import opened Regions

  const PAGE: nat := 4096
  const MAX_ATTEMPTS: nat := 16
  const FRAGMENT_LIMIT: nat := 100
  const ENOMEM: int := 12

  /** A registration: its key, first page, length in bytes and fragment count. */
  datatype Mr = Mr(key: nat, page: nat, length: nat, frags: nat)

  /** What one attempt meets: mmap fails; the pages are mapped but cannot be
      registered; or both succeed. */
  datatype Attempt =
    | MapFails(errno: int)
    | RegisterFails(page: nat)
    | Registers(page: nat, key: nat, frags: nat)

  datatype Device = Device(mapped: set<nat>, registered: set<Mr>,
                           deregistered: seq<Mr>, unmapped: seq<(nat, nat)>)

  /** The pages `length` bytes take from page `page` on. */
  function Pages(page: nat, length: nat): set<nat> {
    set p: nat | page <= p < page + PageCount(length) && Within(page, length, p)
  }

  function PageCount(length: nat): nat {
    (length + PAGE - 1) / PAGE
  }

  predicate Within(page: nat, length: nat, p: nat) {
    page <= p < page + PageCount(length)
  }

  /** They are the pages some of its bytes lie on. */
  lemma PagesAre(page: nat, length: nat, p: nat)
    ensures p in Pages(page, length) <==> page <= p && p * 4096 < page * 4096 + length
  {
    assert p in Pages(page, length) <==> Within(page, length, p);
  }

  function Map(d: Device, page: nat, length: nat): Device {
    d.(mapped := d.mapped + Pages(page, length))
  }

  function Register(d: Device, mr: Mr): Device {
    d.(registered := d.registered + {mr})
  }

  function Deregister(d: Device, mr: Mr): Device {
    d.(registered := d.registered - {mr}, deregistered := d.deregistered + [mr])
  }

  function Unmap(d: Device, page: nat, length: nat): Device {
    d.(mapped := d.mapped - Pages(page, length), unmapped := d.unmapped + [(page, length)])
  }

  // -------------------------------------------------------------- the search

  function MrOf(a: Attempt, length: nat): Mr
    requires a.Registers?
  {
    Mr(a.key, a.page, length, a.frags)
  }

  /** How the attempts end: after `n` registrations with the last one kept as
      candidate, or with an error after `n` registrations. */
  datatype Outcome = Found(n: nat) | Failed(n: nat, err: int)

  /** Whether the search goes on after the attempt at `i` has registered. */
  predicate GoesOn(bgvrnic: bool, script: seq<Attempt>, i: nat)
    requires i < |script| && script[i].Registers?
  {
    bgvrnic && script[i].frags > 1 && i + 1 < MAX_ATTEMPTS
  }

  ghost predicate EndsWith(bgvrnic: bool, script: seq<Attempt>, o: Outcome) {
    && o.n <= |script|
    && (forall i :: 0 <= i < o.n ==> script[i].Registers?)
    && match o
       case Found(n) =>
         && 0 < n <= MAX_ATTEMPTS
         && (forall i :: 0 <= i < n - 1 ==> GoesOn(bgvrnic, script, i))
         && !GoesOn(bgvrnic, script, n - 1)
       case Failed(n, err) =>
         && n < |script| && n < MAX_ATTEMPTS
         && (forall i :: 0 <= i < n ==> GoesOn(bgvrnic, script, i))
         && (match script[n]
             case MapFails(e) => err == e
             case RegisterFails(_) => err == ENOMEM
             case Registers(_, _, _) => false)
  }

  /** Which of the candidates is kept: the leftmost with the fewest fragments,
      if that is fewer than the limit the search starts from; else the first. */
  ghost predicate Kept(frags: seq<nat>, best: nat) {
    && best < |frags|
    && (if exists i :: 0 <= i < |frags| && frags[i] < FRAGMENT_LIMIT
        then (forall i :: 0 <= i < best ==> frags[best] < frags[i])
             && (forall i :: best < i < |frags| ==> frags[best] <= frags[i])
        else best == 0)
  }

  lemma KeptIsUnique(frags: seq<nat>, b: nat, c: nat)
    requires Kept(frags, b) && Kept(frags, c)
    ensures b == c
  {
  }

  /** The region kept has the fewest fragments of all exactly when some region is
      below 100 or the first one has the fewest itself; of several with the
      fewest it is the first. */
  lemma MinimumExactly(frags: seq<nat>, best: nat)
    requires Kept(frags, best)
    ensures (forall i :: 0 <= i < |frags| ==> frags[best] <= frags[i])
            <==> (exists i :: 0 <= i < |frags| && frags[i] < 100)
                 || (forall i :: 0 <= i < |frags| ==> frags[0] <= frags[i])
    ensures forall i :: 0 <= i < best ==> frags[best] < frags[i]
    ensures (forall i :: 0 <= i < |frags| ==> frags[i] >= 100) ==> best == 0
  {
  }

  function Candidates(script: seq<Attempt>, n: nat, length: nat): (mrs: seq<Mr>)
    requires n <= |script| && forall i :: 0 <= i < n ==> script[i].Registers?
    ensures |mrs| == n
  {
    seq(n, i requires 0 <= i < n => MrOf(script[i], length))
  }

  function FragsOf(mrs: seq<Mr>): (frags: seq<nat>)
    ensures |frags| == |mrs|
  {
    seq(|mrs|, i requires 0 <= i < |mrs| => mrs[i].frags)
  }

  /** The device with the first `n` candidates mapped and registered. */
  function Acquired(d: Device, mrs: seq<Mr>): Device {
    if mrs == [] then d
    else
      var mr := mrs[|mrs| - 1];
      Register(Map(Acquired(d, mrs[..|mrs| - 1]), mr.page, mr.length), mr)
  }

  /** The device after all of `mrs` except the one at `best` were released. */
  function Dropped(d: Device, mrs: seq<Mr>, best: nat): Device {
    if mrs == [] then d
    else
      var last := |mrs| - 1;
      var before := Dropped(d, mrs[..last], best);
      if last == best then before
      else Unmap(Deregister(before, mrs[last]), mrs[last].page, mrs[last].length)
  }

  /** The environment's side of a script: pages not mapped already, keys not
      taken, attempts not overlapping. */
  ghost predicate FreshScript(d: Device, script: seq<Attempt>, length: nat) {
    && (forall i :: 0 <= i < |script| && !script[i].MapFails? ==> Pages(script[i].page, length) !! d.mapped)
    && (forall i, j :: 0 <= i < j < |script| && !script[i].MapFails? && !script[j].MapFails? ==>
          Pages(script[i].page, length) !! Pages(script[j].page, length))
    && (forall i :: 0 <= i < |script| && script[i].Registers? ==>
          forall mr :: mr in d.registered ==> mr.key != script[i].key)
    && (forall i, j :: 0 <= i < j < |script| && script[i].Registers? && script[j].Registers? ==>
          script[i].key != script[j].key)
  }

  class RdmaMemoryRegion {
    var region: Option<Mr>
    var frags: int
    var user: bool
    var messageLength: nat

    constructor ()
      ensures region == None && frags == 0 && !user && messageLength == 0
    {
      region, frags, user, messageLength := None, 0, false, 0;
    }

    /** A region around a user's buffer, which is registered but not mapped
        here; its length passes through 32 bits. No key means no registration. */
    constructor FromBuffer(page: nat, length: nat, key: Option<nat>)
      ensures user && frags == -1 && messageLength == length % UINT32
      ensures region == if key.Some? then Some(Mr(key.value, page, length % UINT32, 0)) else None
    {
      messageLength := length % UINT32;
      user, frags := true, -1;
      region := if key.Some? then Some(Mr(key.value, page, length % UINT32, 0)) else None;
    }

    /** Tries up to sixteen times on the BG/Q device, once elsewhere; then
        keeps one candidate and releases the others. An error leaves the
        region as it was and every earlier attempt mapped and registered. */
    method Allocate(dev: Device, bgvrnic: bool, length: nat, script: seq<Attempt>)
      returns (err: int, dev': Device, o: Outcome, best: nat)
      requires |script| == MAX_ATTEMPTS
      requires forall i :: 0 <= i < |script| && script[i].MapFails? ==> script[i].errno != 0
      modifies this`region, this`frags
      ensures EndsWith(bgvrnic, script, o)
      ensures o.Failed? ==>
                && err == o.err != 0 && region == old(region) && frags == old(frags)
                && dev' == (var d := Acquired(dev, Candidates(script, o.n, length));
                            if script[o.n].RegisterFails? then Map(d, script[o.n].page, length) else d)
      ensures o.Found? ==>
                && err == 0
                && best < o.n
                && (if bgvrnic then Kept(FragsOf(Candidates(script, o.n, length)), best) else best == 0 && o.n == 1)
                && region == Some(MrOf(script[best], length))
                && frags == (if bgvrnic then script[best].frags else 1)
                && dev' == Dropped(Acquired(dev, Candidates(script, o.n, length)),
                           Candidates(script, o.n, length), best)
    {
      var regionList := new Mr[MAX_ATTEMPTS];
      best := 0;
      o, dev' := Search(dev, bgvrnic, length, script, regionList);
      if o.Failed? {
        return o.err, dev', o, best;
      }
      assert o.n > 1 ==> GoesOn(bgvrnic, script, 0);
      best, dev' := KeepOne(dev', regionList, o.n, bgvrnic);
      err := 0;
    }

    /** With several candidates the others are released; the one kept becomes the
        region. */
    method KeepOne(dev: Device, list: array<Mr>, n: nat, bgvrnic: bool) returns (best: nat, dev': Device)
      requires 0 < n <= list.Length && (!bgvrnic ==> n == 1)
      modifies this`region, this`frags
      ensures best < n && (if bgvrnic then Kept(FragsOf(list[..n]), best) else best == 0)
      ensures region == Some(list[best]) && frags == if bgvrnic then list[best].frags else 1
      ensures dev' == Dropped(dev, list[..n], best)
    {
      best, dev' := 0, dev;
      if n > 1 {
        best := FewestFragments(list, n);
        dev' := DropOthers(dev, list, n, best);
      } else {
        DroppedNone(dev, list[..n]);
      }
      region, frags := Some(list[best]), if bgvrnic then list[best].frags else 1;
    }

    /** Deregisters, and unmaps what it mapped itself, by its length as 32 bits.
        A failing deregistration leaves everything as it was. */
    method Release(dev: Device, deregisterFails: bool) returns (err: int, dev': Device)
      modifies this`region
      ensures old(region).None? ==> err == 0 && dev' == dev && region == None
      ensures old(region).Some? && deregisterFails ==> err == -1 && dev' == dev && region == old(region)
      ensures old(region).Some? && !deregisterFails ==>
                err == 0 && region == None && dev' == Released(dev, old(region).value, user)
    {
      dev' := dev;
      if region.Some? {
        var mr := region.value;
        var length := mr.length % UINT32;
        if deregisterFails {
          return -1, dev;
        }
        dev' := Deregister(dev', mr);
        if !user {
          dev' := Unmap(dev', mr.page, length);
        }
        region := None;
      }
      err := 0;
    }
  }

  function Released(d: Device, mr: Mr, user: bool): Device {
    var gone := Deregister(d, mr);
    if user then gone else Unmap(gone, mr.page, mr.length % UINT32)
  }

  lemma OneMoreCandidate(d: Device, script: seq<Attempt>, n: nat, length: nat)
    requires n < |script| && forall i :: 0 <= i <= n ==> script[i].Registers?
    ensures var mrs, mr := Candidates(script, n, length), MrOf(script[n], length);
            && Candidates(script, n + 1, length) == mrs + [mr]
            && Acquired(d, mrs + [mr]) == Register(Map(Acquired(d, mrs), mr.page, mr.length), mr)
  {
    var mrs, mr := Candidates(script, n, length), MrOf(script[n], length);
    assert (mrs + [mr])[..n] == mrs;
  }

  /** The loop that maps and registers until it has an unfragmented region, or as
      many as it may try, in `list`. */
  method Search(dev: Device, bgvrnic: bool, length: nat, script: seq<Attempt>, list: array<Mr>)
    returns (o: Outcome, dev': Device)
    requires |script| == MAX_ATTEMPTS == list.Length
    requires forall i :: 0 <= i < |script| && script[i].MapFails? ==> script[i].errno != 0
    modifies list
    ensures EndsWith(bgvrnic, script, o) && (o.Failed? ==> o.err != 0)
    ensures o.Found? ==> list[..o.n] == Candidates(script, o.n, length)
    ensures var d := Acquired(dev, Candidates(script, o.n, length));
            dev' == if o.Failed? && script[o.n].RegisterFails? then Map(d, script[o.n].page, length) else d
  {
    var attempt := 0;
    var more := true;
    dev' := dev;
    while more
      invariant 0 <= attempt <= MAX_ATTEMPTS && (more ==> attempt < MAX_ATTEMPTS)
      invariant forall i :: 0 <= i < attempt ==> script[i].Registers?
      invariant list[..attempt] == Candidates(script, attempt, length)
      invariant dev' == Acquired(dev, Candidates(script, attempt, length))
      invariant more ==> forall i :: 0 <= i < attempt ==> GoesOn(bgvrnic, script, i)
      invariant !more ==> attempt > 0 && !GoesOn(bgvrnic, script, attempt - 1)
      invariant forall i :: 0 <= i < attempt - 1 ==> GoesOn(bgvrnic, script, i)
      decreases MAX_ATTEMPTS - attempt, more
    {
      match script[attempt] {
        case MapFails(errno) =>
          return Failed(attempt, errno), dev';
        case RegisterFails(page) =>
          return Failed(attempt, ENOMEM), Map(dev', page, length);
        case Registers(page, key, fragments) =>
          var mr := Mr(key, page, length, fragments);
          dev' := Register(Map(dev', page, length), mr);
          list[attempt] := mr;
          OneMoreCandidate(dev, script, attempt, length);
          assert list[..attempt + 1] == list[..attempt] + [mr];
          more := bgvrnic && fragments > 1 && attempt + 1 < MAX_ATTEMPTS;
          attempt := attempt + 1;
      }
    }
    o := Found(attempt);
  }

  /** The loop that looks for the candidate with the fewest fragments. */
  method FewestFragments(list: array<Mr>, n: nat) returns (best: nat)
    requires 0 < n <= list.Length
    ensures best < n
    ensures Kept(FragsOf(list[..n]), best)
  {
    ghost var frags := FragsOf(list[..n]);
    var minFragments := FRAGMENT_LIMIT;
    best := 0;
    for index := 0 to n
      invariant best < n
      invariant minFragments == FRAGMENT_LIMIT ==>
                  best == 0 && forall i :: 0 <= i < index ==> frags[i] >= FRAGMENT_LIMIT
      invariant minFragments != FRAGMENT_LIMIT ==>
                  && minFragments < FRAGMENT_LIMIT && best < index && frags[best] == minFragments
                  && (forall i :: 0 <= i < best ==> minFragments < frags[i])
                  && (forall i :: best < i < index ==> minFragments <= frags[i])
    {
      if list[index].frags < minFragments {
        best := index;
        minFragments := list[index].frags;
      }
    }
  }

  /** The loop that releases every candidate but one. */
  method DropOthers(dev: Device, list: array<Mr>, n: nat, best: nat) returns (dev': Device)
    requires n <= list.Length
    ensures dev' == Dropped(dev, list[..n], best)
  {
    dev' := dev;
    for index := 0 to n
      invariant dev' == Dropped(dev, list[..index], best)
    {
      assert list[..index + 1][..index] == list[..index];
      if index != best {
        dev' := Unmap(Deregister(dev', list[index]), list[index].page, list[index].length);
      }
    }
  }

  lemma DroppedNone(d: Device, mrs: seq<Mr>)
    requires |mrs| == 1
    ensures Dropped(d, mrs, 0) == d
  {
    assert mrs[..0] == [];
  }

  // ------------------------------------------------------------ main results

  /** How a search on the BG/Q device ends, told from the script: where the first
      attempt stands that fails, or finds a region in one fragment, or is the
      sixteenth. It goes no further than that, and no less far. */
  lemma SearchEnds(script: seq<Attempt>, i: nat, o: Outcome)
    requires |script| == 16 && i < 16
    requires forall j :: 0 <= j < i ==> script[j].Registers? && script[j].frags > 1
    requires script[i].Registers? ==> script[i].frags <= 1 || i == 15
    ensures EndsWith(true, script, o) <==>
              match script[i]
              case Registers(_, _, _) => o == Found(i + 1)
              case MapFails(e) => o == Failed(i, e)
              case RegisterFails(_) => o == Failed(i, 12)
  {
    forall j | 0 <= j < i ensures GoesOn(true, script, j) {}
    assert script[i].Registers? ==> !GoesOn(true, script, i);
  }

  /** On any other device there is one attempt. */
  lemma OneAttempt(script: seq<Attempt>, o: Outcome)
    requires |script| == 16
    ensures EndsWith(false, script, o) <==>
              match script[0]
              case Registers(_, _, _) => o == Found(1)
              case MapFails(e) => o == Failed(0, e)
              case RegisterFails(_) => o == Failed(0, 12)
  {
    assert script[0].Registers? ==> !GoesOn(false, script, 0);
  }

  /** With fewer than sixteen attempts the one kept is the last, and it has at
      most one fragment; it is kept for that and not for its place. */
  lemma EarlyEndKeepsLast(script: seq<Attempt>, n: nat, length: nat, best: nat)
    requires |script| == MAX_ATTEMPTS && EndsWith(true, script, Found(n)) && n < MAX_ATTEMPTS
    requires Kept(FragsOf(Candidates(script, n, length)), best)
    ensures best == n - 1 && script[best].frags <= 1
  {
    var frags := FragsOf(Candidates(script, n, length));
    assert forall i :: 0 <= i < n ==> frags[i] == script[i].frags;
    assert !GoesOn(true, script, n - 1);
    forall i | 0 <= i < n - 1 ensures frags[i] > 1 {
      assert GoesOn(true, script, i);
    }
    assert Kept(frags, n - 1);
    KeptIsUnique(frags, best, n - 1);
  }

  /** Sixteen attempts next to each other, the first in 200 fragments, the others
      in 150. */
  function Worse(length: nat): (script: seq<Attempt>)
    ensures |script| == MAX_ATTEMPTS
  {
    seq(MAX_ATTEMPTS, i requires 0 <= i < MAX_ATTEMPTS =>
      Registers(i * PageCount(length), i, if i == 0 then 200 else 150))
  }

  lemma {:induction false} Spaced(i: nat, j: nat, n: nat)
    requires i < j
    ensures i * n + n <= j * n
    decreases j - i
  {
    if j == i + 1 {
    } else {
      Spaced(i + 1, j, n);
      assert (i + 1) * n == i * n + n;
    }
  }

  /** On a device with nothing mapped that script is possible, all of it is
      used, and the region kept is not one with the fewest fragments. */
  lemma MinimumMissed(d: Device, length: nat, best: nat)
    requires d.mapped == {} && d.registered == {}
    requires Kept(FragsOf(Candidates(Worse(length), MAX_ATTEMPTS, length)), best)
    ensures FreshScript(d, Worse(length), length) && EndsWith(true, Worse(length), Found(MAX_ATTEMPTS))
    ensures best == 0 && FragsOf(Candidates(Worse(length), MAX_ATTEMPTS, length))[1] < Worse(length)[best].frags
  {
    var script := Worse(length);
    forall i, j | 0 <= i < j < |script| ensures Pages(script[i].page, length) !! Pages(script[j].page, length) {
      Spaced(i, j, PageCount(length));
    }
    assert forall i :: 0 <= i < MAX_ATTEMPTS ==> FragsOf(Candidates(script, MAX_ATTEMPTS, length))[i] >= FRAGMENT_LIMIT;
  }

  ghost predicate FreshRegions(d: Device, mrs: seq<Mr>) {
    && (forall i :: 0 <= i < |mrs| ==> Pages(mrs[i].page, mrs[i].length) !! d.mapped && mrs[i] !in d.registered)
    && (forall i, j :: 0 <= i < j < |mrs| ==>
          Pages(mrs[i].page, mrs[i].length) !! Pages(mrs[j].page, mrs[j].length) && mrs[i] != mrs[j])
  }

  function PagesOf(mrs: seq<Mr>): set<nat> {
    if mrs == [] then {} else PagesOf(mrs[..|mrs| - 1]) + Pages(mrs[|mrs| - 1].page, mrs[|mrs| - 1].length)
  }

  lemma {:induction false} AcquiredAdds(d: Device, mrs: seq<Mr>)
    ensures Acquired(d, mrs) == d.(mapped := d.mapped + PagesOf(mrs), registered := d.registered + Elements(mrs))
  {
    if mrs == [] {
      assert d.mapped + {} == d.mapped && Elements(mrs) == {} && d.registered + {} == d.registered;
    } else {
      var last := |mrs| - 1;
      AcquiredAdds(d, mrs[..last]);
      ElementsAppend(mrs[..last], [mrs[last]]);
      assert mrs == mrs[..last] + [mrs[last]] && Elements([mrs[last]]) == {mrs[last]};
      assert d.registered + Elements(mrs[..last]) + {mrs[last]} == d.registered + Elements(mrs);
      assert d.mapped + PagesOf(mrs[..last]) + Pages(mrs[last].page, mrs[last].length) == d.mapped + PagesOf(mrs);
    }
  }

  /** All candidates but the one kept, in order, as the calls that undo them. */
  function Losers(mrs: seq<Mr>, best: nat): seq<Mr> {
    if mrs == [] then []
    else
      var last := |mrs| - 1;
      Losers(mrs[..last], best) + if last == best then [] else [mrs[last]]
  }

  function Calls(mrs: seq<Mr>): seq<(nat, nat)> {
    seq(|mrs|, i requires 0 <= i < |mrs| => (mrs[i].page, mrs[i].length))
  }

  /** `d` with the regions `gone` deregistered and unmapped, in this order. */
  function Without(d: Device, gone: seq<Mr>): Device {
    Device(d.mapped - PagesOf(gone), d.registered - Elements(gone), d.deregistered + gone, d.unmapped + Calls(gone))
  }

  lemma WithoutOneMore(d: Device, gone: seq<Mr>, mr: Mr)
    ensures Unmap(Deregister(Without(d, gone), mr), mr.page, mr.length) == Without(d, gone + [mr])
  {
    var now := gone + [mr];
    assert now[..|gone|] == gone && now[|gone|] == mr;
    ElementsAppend(gone, [mr]);
    assert Elements([mr]) == {mr};
    assert d.registered - Elements(gone) - {mr} == d.registered - Elements(now);
    assert d.mapped - PagesOf(gone) - Pages(mr.page, mr.length) == d.mapped - PagesOf(now);
    assert Calls(now) == Calls(gone) + [(mr.page, mr.length)];
    assert d.unmapped + Calls(gone) + [(mr.page, mr.length)] == d.unmapped + Calls(now);
  }

  lemma {:induction false} DroppedRemoves(d: Device, mrs: seq<Mr>, best: nat)
    ensures Dropped(d, mrs, best) == Without(d, Losers(mrs, best))
  {
    if mrs == [] {
      assert Without(d, []) == d;
    } else {
      var last := |mrs| - 1;
      DroppedRemoves(d, mrs[..last], best);
      WithoutOneMore(d, Losers(mrs[..last], best), mrs[last]);
      assert Losers(mrs[..last], best) + [] == Losers(mrs[..last], best);
    }
  }

  lemma {:induction false} PagesAppend(a: seq<Mr>, b: seq<Mr>)
    ensures PagesOf(a + b) == PagesOf(a) + PagesOf(b)
  {
    if b == [] {
      assert a + b == a;
    } else {
      PagesAppend(a, b[..|b| - 1]);
      assert (a + b)[..|a + b| - 1] == a + b[..|b| - 1];
    }
  }

  lemma {:induction false} PagesApart(mrs: seq<Mr>, pages: set<nat>)
    requires forall i :: 0 <= i < |mrs| ==> Pages(mrs[i].page, mrs[i].length) !! pages
    ensures PagesOf(mrs) !! pages
  {
    if mrs == [] {
    } else {
      PagesApart(mrs[..|mrs| - 1], pages);
    }
  }

  lemma {:induction false} PagesMember(mrs: seq<Mr>, p: nat)
    ensures p in PagesOf(mrs) <==> exists i :: 0 <= i < |mrs| && p in Pages(mrs[i].page, mrs[i].length)
  {
    if mrs == [] {
    } else {
      PagesMember(mrs[..|mrs| - 1], p);
      assert mrs == mrs[..|mrs| - 1] + [mrs[|mrs| - 1]];
    }
  }

  /** The losers are every candidate but the kept one, each once. */
  lemma {:induction false} LosersAre(mrs: seq<Mr>, best: nat)
    requires best < |mrs|
    ensures Losers(mrs, best) == mrs[..best] + mrs[best + 1..]
  {
    var last := |mrs| - 1;
    if last == best {
      NoLoserLeftOut(mrs[..last], best);
      assert mrs[best + 1..] == [];
    } else {
      LosersAre(mrs[..last], best);
      assert mrs[best + 1..] == mrs[..last][best + 1..] + [mrs[last]];
      assert mrs[..last][..best] == mrs[..best];
    }
  }

  lemma {:induction false} NoLoserLeftOut(mrs: seq<Mr>, best: nat)
    requires best >= |mrs|
    ensures Losers(mrs, best) == mrs
  {
    if mrs == [] {
    } else {
      NoLoserLeftOut(mrs[..|mrs| - 1], best);
      assert mrs == mrs[..|mrs| - 1] + [mrs[|mrs| - 1]];
    }
  }

  /** A search that ends well has added one mapping and one registration, both
      those of the kept candidate; each other candidate was deregistered once
      and unmapped once, at its own address and full length. */
  lemma SearchAccounting(d: Device, mrs: seq<Mr>, best: nat)
    requires FreshRegions(d, mrs) && best < |mrs|
    ensures var d', losers := Dropped(Acquired(d, mrs), mrs, best), mrs[..best] + mrs[best + 1..];
            && d'.mapped == d.mapped + Pages(mrs[best].page, mrs[best].length)
            && d'.registered == d.registered + {mrs[best]}
            && d'.deregistered == d.deregistered + losers
            && d'.unmapped == d.unmapped + Calls(losers)
  {
    AcquiredAdds(d, mrs);
    DroppedRemoves(Acquired(d, mrs), mrs, best);
    LosersAre(mrs, best);
    AroundBest(d, mrs, best);
  }

  lemma AroundBest(d: Device, mrs: seq<Mr>, best: nat)
    requires FreshRegions(d, mrs) && best < |mrs|
    ensures var losers, kept := mrs[..best] + mrs[best + 1..], Pages(mrs[best].page, mrs[best].length);
            && d.mapped + PagesOf(mrs) - PagesOf(losers) == d.mapped + kept
            && d.registered + Elements(mrs) - Elements(losers) == d.registered + {mrs[best]}
  {
    var left, right := mrs[..best], mrs[best + 1..];
    var one := [mrs[best]];
    var losers := left + right;
    assert mrs == left + one + right;
    assert one[..0] == [] && PagesOf(one) == Pages(mrs[best].page, mrs[best].length);
    assert Elements([mrs[best]]) == {mrs[best]};
    PagesAppend(left + one, right);
    PagesAppend(left, one);
    PagesAppend(left, right);
    ElementsAppend(left + one, right);
    ElementsAppend(left, one);
    ElementsAppend(left, right);
    LosersApart(d, mrs, best);
  }

  lemma LosersApart(d: Device, mrs: seq<Mr>, best: nat)
    requires FreshRegions(d, mrs) && best < |mrs|
    ensures var losers := mrs[..best] + mrs[best + 1..];
            && PagesOf(losers) !! d.mapped && PagesOf(losers) !! Pages(mrs[best].page, mrs[best].length)
            && Elements(losers) !! d.registered && mrs[best] !in Elements(losers)
  {
    var losers := mrs[..best] + mrs[best + 1..];
    assert forall i :: 0 <= i < |losers| ==> losers[i] == mrs[if i < best then i else i + 1];
    PagesApart(losers, Pages(mrs[best].page, mrs[best].length));
    PagesApart(losers, d.mapped);
  }

  lemma FreshCandidates(d: Device, script: seq<Attempt>, n: nat, length: nat)
    requires FreshScript(d, script, length) && n <= |script| && forall i :: 0 <= i < n ==> script[i].Registers?
    ensures FreshRegions(d, Candidates(script, n, length))
  {
  }

  /** Allocating and then releasing puts the device back as it was exactly for
      lengths below 2^32: release unmaps a 32-bit length, and for a longer
      region the rest of the mapping stays. */
  lemma RegionRoundTrip(d: Device, mrs: seq<Mr>, best: nat)
    requires FreshRegions(d, mrs) && best < |mrs| && mrs[best].length > 0
    ensures var after := Released(Dropped(Acquired(d, mrs), mrs, best), mrs[best], false);
            && after.registered == d.registered
            && (after.mapped == d.mapped <==> mrs[best].length < UINT32)
            && after.mapped == d.mapped + (Pages(mrs[best].page, mrs[best].length)
                                           - Pages(mrs[best].page, mrs[best].length % UINT32))
  {
    SearchAccounting(d, mrs, best);
    var mr := mrs[best];
    var whole, part := Pages(mr.page, mr.length), Pages(mr.page, mr.length % UINT32);
    ShortLength(mr.page, mr.length);
    assert d.mapped + whole - part == d.mapped + (whole - part);
    assert d.registered + {mr} - {mr} == d.registered;
    if part < whole {
      var p :| p in whole - part;
      assert p in d.mapped + (whole - part);
    }
  }

  lemma ShortLength(page: nat, length: nat)
    requires length > 0
    ensures Pages(page, length % UINT32) <= Pages(page, length)
    ensures length < UINT32 <==> Pages(page, length % UINT32) == Pages(page, length)
    ensures length >= UINT32 ==> Pages(page, length % UINT32) < Pages(page, length)
  {
    var rest := length % UINT32;
    assert forall p :: Within(page, rest, p) ==> Within(page, length, p);
    if length >= UINT32 {
      var last := page + PageCount(length) - 1;
      assert Within(page, length, last) && !Within(page, rest, last);
      assert last in Pages(page, length) && last !in Pages(page, rest);
    }
  }

  /** A region around a user's buffer gives up its registration only. */
  lemma UserRegionRelease(d: Device, mr: Mr)
    requires mr !in d.registered
    ensures Released(Register(d, mr), mr, true) == d.(deregistered := d.deregistered + [mr])
  {
    assert d.registered + {mr} - {mr} == d.registered;
  }

  lemma FirstPage(page: nat, length: nat)
    requires length > 0
    ensures page in Pages(page, length)
  {
    assert Within(page, length, page);
  }

  /** An error exit leaks: exactly what the earlier attempts mapped and registered
      stays, and so do the pages whose registration failed; nothing is undone. */
  lemma FailureLeaks(d: Device, script: seq<Attempt>, n: nat, length: nat)
    requires FreshScript(d, script, length) && n < |script| && forall i :: 0 <= i < n ==> script[i].Registers?
    requires length > 0 && !script[n].Registers?
    ensures var mrs := Candidates(script, n, length);
            var d' := if script[n].RegisterFails? then Map(Acquired(d, mrs), script[n].page, length)
                      else Acquired(d, mrs);
            && d'.registered == d.registered + Elements(mrs) && |Elements(mrs)| == n
            && d'.deregistered == d.deregistered && d'.unmapped == d.unmapped
            && (forall p :: p in d'.mapped <==> p in d.mapped || PageOfCandidates(script, n + 1, length, p))
            && (d'.mapped == d.mapped <==> n == 0 && script[n].MapFails?)
  {
    var mrs := Candidates(script, n, length);
    FreshCandidates(d, script, n, length);
    AcquiredAdds(d, mrs);
    DistinctSize(mrs);
    forall p ensures p in PagesOf(mrs) <==> PageOfCandidates(script, n, length, p) {
      CandidatePages(script, n, length, p);
    }
    if n > 0 {
      FirstPage(script[0].page, length);
      assert PageOfCandidates(script, n, length, script[0].page);
    }
    if script[n].RegisterFails? {
      FirstPage(script[n].page, length);
    }
  }

  /** One of the first `n` attempts mapped this page. */
  ghost predicate PageOfCandidates(script: seq<Attempt>, n: nat, length: nat, p: nat)
    requires n <= |script|
  {
    exists i :: 0 <= i < n && !script[i].MapFails? && p in Pages(script[i].page, length)
  }

  lemma CandidatePages(script: seq<Attempt>, n: nat, length: nat, p: nat)
    requires n <= |script| && forall i :: 0 <= i < n ==> script[i].Registers?
    ensures p in PagesOf(Candidates(script, n, length)) <==> PageOfCandidates(script, n, length, p)
  {
    var mrs := Candidates(script, n, length);
    PagesMember(mrs, p);
    if i :| 0 <= i < |mrs| && p in Pages(mrs[i].page, mrs[i].length) {
      assert p in Pages(script[i].page, length);
    }
    if i :| 0 <= i < n && !script[i].MapFails? && p in Pages(script[i].page, length) {
      assert p in Pages(mrs[i].page, mrs[i].length);
    }
  }
}
