/** RdmaCompletionQueue's own buffer: a fixed array with one index for the next
    free slot and one for the next completion to hand out. */
module CompletionQueues {
  import opened Collections

  const MAX_QUEUE: nat := 256

  datatype Completion = Completion(wrId: nat, qpNum: nat, ok: bool)

  /** What a poll of the device for one entry answers when it has an answer. */
  datatype Answer = Got(completion: Completion) | PollFails

  /** What the buffer stands for. `total` is the statistics counter. */
  datatype Buffered = Buffered(pending: seq<Completion>, used: nat, total: int)

  class CompletionQueue {
    const completions: array<Completion>
    var numCompletions: nat
    var nextCompletion: nat
    var totalCompletions: int

    ghost predicate Valid()
      reads this
    {
      && completions.Length == MAX_QUEUE
      && numCompletions <= MAX_QUEUE
      && (nextCompletion < numCompletions || nextCompletion == numCompletions == 0)
    }

    /** The queue held, how many slots are spent, and the counter. */
    ghost function View(): Buffered
      requires Valid()
      reads this, completions
    {
      Buffered(completions[nextCompletion..numCompletions], numCompletions, totalCompletions)
    }

    constructor ()
      ensures Valid() && View() == Buffered([], 0, 0) && fresh(completions)
    {
      completions := new Completion[MAX_QUEUE](_ => Completion(0, 0, true));
      numCompletions, nextCompletion, totalCompletions := 0, 0, 0;
    }

    /** `polled` is what the device writes behind the last entry; a negative
        answer throws and nothing changes. Writing past the array is the
        caller's to avoid. */
    method RemoveCompletions(numEntries: nat, polled: Option<seq<Completion>>) returns (nc: int)
      requires Valid()
      requires polled.Some? ==> |polled.value| <= numEntries && numCompletions + |polled.value| <= MAX_QUEUE
      modifies this`numCompletions, this`totalCompletions, completions
      ensures Valid() && nextCompletion == old(nextCompletion)
      ensures polled.None? ==> nc == -1 && View() == old(View())
      ensures polled.Some? ==> nc == |polled.value| && View() == Removed(old(View()), polled.value)
    {
      if polled.None? {
        return -1;
      }
      var batch := polled.value;
      for i := 0 to |batch|
        invariant completions[nextCompletion..numCompletions] == old(completions[nextCompletion..numCompletions])
        invariant completions[numCompletions..numCompletions + i] == batch[..i]
        modifies completions
      {
        completions[numCompletions + i] := batch[i];
      }
      assert completions[nextCompletion..numCompletions + |batch|]
          == completions[nextCompletion..numCompletions] + completions[numCompletions..numCompletions + |batch|];
      numCompletions := numCompletions + |batch|;
      totalCompletions := totalCompletions + numCompletions;
      nc := |batch|;
    }

    method PopCompletion() returns (completion: Option<Completion>)
      requires Valid()
      modifies this`numCompletions, this`nextCompletion
      ensures Valid() && View() == Popped(old(View()))
      ensures completion == if old(View()).pending == [] then None else Some(old(View()).pending[0])
    {
      if numCompletions == 0 {
        return None;
      }
      completion := Some(completions[nextCompletion]);
      nextCompletion := nextCompletion + 1;
      if nextCompletion == numCompletions {
        numCompletions := 0;
        nextCompletion := 0;
      }
    }

    /** The notification loop: polls one entry at a time and pops it at once,
        until a poll finds nothing or, when `fails`, answers with an error, which
        is caught. `supply` is what the device gives before that. */
    method HandleNotification(supply: seq<Completion>, fails: bool) returns (handled: seq<Completion>)
      requires Valid() && View().pending == []
      modifies this, completions
      ensures Valid() && handled == supply
      ensures View() == Buffered([], 0, old(View()).total + |supply|)
    {
      handled := [];
      ghost var total := View().total;
      var nc := RemoveCompletions(1, NextPoll(supply, 0, fails));
      while nc > 0
        invariant Valid() && |handled| <= |supply| && handled == supply[..|handled|]
        invariant nc == (if |handled| < |supply| then 1 else if fails then -1 else 0)
        invariant View() == InFlight(supply, |handled|, total)
        decreases |supply| - |handled|
      {
        NextAlone(supply, |handled| + 1, total);
        var completion := PopCompletion();
        handled := handled + [completion.value];
        assert handled == supply[..|handled|];
        assert |handled| == |supply| ==> View() == InFlight(supply, |handled|, total);
        nc := RemoveCompletions(1, NextPoll(supply, |handled|, fails));
      }
    }
  }

  /** The buffer with `k` handled and the next one, if there is one, polled. */
  function InFlight(supply: seq<Completion>, k: nat, total: int): Buffered
    requires k <= |supply|
  {
    Buffered(supply[k..k + OneAt(supply, k)], OneAt(supply, k), total + k + OneAt(supply, k))
  }

  /** The answer to a request for one with `k` gone already. */
  function NextPoll(supply: seq<Completion>, k: nat, fails: bool): Option<seq<Completion>>
    requires k <= |supply|
  {
    if k == |supply| && fails then None else Some(supply[k..k + OneAt(supply, k)])
  }

  /** Popping the one polled and polling again. */
  lemma NextAlone(supply: seq<Completion>, k: nat, total: int)
    requires 0 < k <= |supply|
    ensures InFlight(supply, k - 1, total).pending == [supply[k - 1]]
    ensures Removed(Popped(InFlight(supply, k - 1, total)), supply[k..k + OneAt(supply, k)])
            == InFlight(supply, k, total)
    ensures k == |supply| ==> Popped(InFlight(supply, k - 1, total)) == InFlight(supply, k, total)
    ensures supply[..k] == supply[..k - 1] + [supply[k - 1]]
  {
    assert supply[k - 1..k][1..] == [];
  }

  /** How many a request for one gets with `k` gone already. */
  function OneAt(supply: seq<Completion>, k: nat): (n: nat)
    ensures k <= |supply| ==> k + n <= |supply|
  {
    if k < |supply| then 1 else 0
  }

  /** Appends a batch; the counter grows by the slots spent, not by the batch. */
  function Removed(b: Buffered, batch: seq<Completion>): Buffered {
    Buffered(b.pending + batch, b.used + |batch|, b.total + b.used + |batch|)
  }

  /** Takes the head; the slots come back when the last one is taken. */
  function Popped(b: Buffered): Buffered {
    if b.pending == [] then b
    else b.(pending := b.pending[1..], used := if |b.pending| == 1 then 0 else b.used)
  }

  // -------------------------------------------------------------------- runs

  /** One call: asking for up to `n` completions and being given `batch`, or a pop. */
  datatype Call = Remove(n: nat, batch: seq<Completion>) | Pop

  const EMPTY := Buffered([], 0, 0)

  function After(calls: seq<Call>): Buffered {
    if calls == [] then EMPTY
    else
      var b := After(calls[..|calls| - 1]);
      match calls[|calls| - 1]
      case Remove(_, batch) => Removed(b, batch)
      case Pop => Popped(b)
  }

  function Polled(calls: seq<Call>): seq<Completion> {
    if calls == [] then []
    else Polled(calls[..|calls| - 1]) + match calls[|calls| - 1] case Remove(_, batch) => batch case Pop => []
  }

  /** The completions handed out, pops of an empty queue giving none. */
  function HandedOut(calls: seq<Call>): seq<Completion> {
    if calls == [] then []
    else
      var before := calls[..|calls| - 1];
      HandedOut(before)
      + if calls[|calls| - 1].Pop? && After(before).pending != [] then [After(before).pending[0]] else []
  }

  /** The number of entries polled since the queue last became empty by a pop. */
  function PolledSinceDrain(calls: seq<Call>): nat {
    if calls == [] then 0
    else
      var before := calls[..|calls| - 1];
      match calls[|calls| - 1]
      case Remove(_, batch) => PolledSinceDrain(before) + |batch|
      case Pop => if |HandedOut(calls)| == |Polled(calls)| then 0 else PolledSinceDrain(before)
  }

  /** A call writes only inside the array, whatever the device answers. */
  predicate WritesInside(before: seq<Call>, call: Call) {
    call.Remove? ==> After(before).used + call.n <= MAX_QUEUE
  }

  /** First in, first out, over every run: what was handed out and what is
      pending are what was polled, in that order. */
  lemma {:induction false} Fifo(calls: seq<Call>)
    ensures HandedOut(calls) + After(calls).pending == Polled(calls)
    ensures HandedOut(calls) <= Polled(calls)
  {
    if calls == [] {
    } else {
      var before := calls[..|calls| - 1];
      Fifo(before);
      var done, pending := HandedOut(before), After(before).pending;
      match calls[|calls| - 1]
      case Remove(_, batch) =>
        assert HandedOut(calls) == done;
        assert done + (pending + batch) == (done + pending) + batch;
      case Pop =>
        if pending == [] {
          assert HandedOut(calls) == done;
        } else {
          assert pending == [pending[0]] + pending[1..];
          assert (done + [pending[0]]) + pending[1..] == done + pending;
        }
    }
  }

  /** The slots spent are the entries polled since the last full drain: so every
      request of a run stays within the array, whatever the device answers,
      exactly when that number and each request never exceed 256 together. */
  lemma {:induction false} SlotsSpent(calls: seq<Call>)
    ensures After(calls).used == PolledSinceDrain(calls)
    ensures After(calls).pending == [] <==> After(calls).used == 0
    ensures |After(calls).pending| <= After(calls).used
    ensures forall n, batch :: WritesInside(calls, Remove(n, batch)) <==> PolledSinceDrain(calls) + n <= MAX_QUEUE
  {
    if calls == [] {
    } else {
      var before := calls[..|calls| - 1];
      SlotsSpent(before);
      Fifo(before);
      Fifo(calls);
    }
  }

  /** Every call of a run writes inside the array. */
  predicate StaysInside(calls: seq<Call>) {
    forall i :: 0 <= i < |calls| ==> WritesInside(calls[..i], calls[i])
  }

  lemma StaysInsideExactly(calls: seq<Call>)
    ensures StaysInside(calls) <==>
              forall i :: 0 <= i < |calls| && calls[i].Remove? ==>
                PolledSinceDrain(calls[..i]) + calls[i].n <= MAX_QUEUE
  {
    forall i | 0 <= i < |calls|
      ensures WritesInside(calls[..i], calls[i])
              <==> (calls[i].Remove? ==> PolledSinceDrain(calls[..i]) + calls[i].n <= MAX_QUEUE)
    {
      SlotsSpent(calls[..i]);
    }
  }

  /** So the calls of a run meet what RemoveCompletions asks of them, whatever
      the device may answer at each, exactly when the run stays inside. */
  lemma RequirementsMetExactly(calls: seq<Call>)
    ensures StaysInside(calls) <==>
              forall i, batch: seq<Completion> :: 0 <= i < |calls| && calls[i].Remove? && |batch| <= calls[i].n ==>
                After(calls[..i]).used + |batch| <= MAX_QUEUE
  {
    if !StaysInside(calls) {
      var i :| 0 <= i < |calls| && !WritesInside(calls[..i], calls[i]);
      var batch := seq(calls[i].n, _ => Completion(0, 0, true));
      assert |batch| == calls[i].n && After(calls[..i]).used + |batch| > MAX_QUEUE;
    } else {
      assert forall i :: 0 <= i < |calls| ==> WritesInside(calls[..i], calls[i]);
    }
  }

  /** The slots found spent by the polls of a run, summed. */
  function FoundSpent(calls: seq<Call>): nat {
    if calls == [] then 0
    else FoundSpent(calls[..|calls| - 1])
         + match calls[|calls| - 1] case Remove(_, _) => After(calls[..|calls| - 1]).used case Pop => 0
  }

  /** The statistics counter overcounts by the slots each poll found spent; it
      is the number of completions polled exactly when every poll came to an
      empty buffer. */
  lemma TotalOvercounts(calls: seq<Call>)
    ensures After(calls).total == |Polled(calls)| + FoundSpent(calls)
    ensures After(calls).total == |Polled(calls)| <==> EveryPollFindsEmpty(calls)
  {
    TotalIs(calls);
    FoundNone(calls);
  }

  predicate EveryPollFindsEmpty(calls: seq<Call>) {
    forall i :: 0 <= i < |calls| && calls[i].Remove? ==> After(calls[..i]).used == 0
  }

  lemma {:induction false} TotalIs(calls: seq<Call>)
    ensures After(calls).total == |Polled(calls)| + FoundSpent(calls)
  {
    if calls == [] {
    } else {
      TotalIs(calls[..|calls| - 1]);
    }
  }

  lemma {:induction false} FoundNone(calls: seq<Call>)
    ensures FoundSpent(calls) == 0 <==> EveryPollFindsEmpty(calls)
  {
    if calls == [] {
    } else {
      var last := |calls| - 1;
      var before := calls[..last];
      FoundNone(before);
      assert forall i :: 0 <= i < last ==> before[..i] == calls[..i] && before[i] == calls[i];
      if EveryPollFindsEmpty(before) && (calls[last].Remove? ==> After(before).used == 0) {
        assert EveryPollFindsEmpty(calls);
      }
    }
  }

  /** Two polls of one entry each with no pop between them count three. */
  lemma TotalIsNotACount(c: Completion)
    ensures After([Remove(1, [c]), Remove(1, [c])]).total == 3
    ensures |Polled([Remove(1, [c]), Remove(1, [c])])| == 2
  {
    var one := [Remove(1, [c])];
    var two := [Remove(1, [c]), Remove(1, [c])];
    assert one[..0] == [] && two[..1] == one;
    assert After(one) == Removed(EMPTY, [c]);
    assert Polled(one) == [c] && Polled(two) == [c, c];
  }
}
