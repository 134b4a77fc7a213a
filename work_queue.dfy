/**
 * The work queue the admin forms drain, and the drain loop they share
 * (`run_queue` in both queue forms).
 *
 * The queue itself belongs to Drupal's queue service; it is modelled as a FIFO
 * of unclaimed items plus the multiset of claimed ones. A claim takes the
 * oldest unclaimed item; a release makes it claimable again at the front, as
 * the database queue does (it orders claims by creation time).
 *
 * `processItem` of the queue workers is an action that may succeed, throw an
 * Exception (caught by the loop) or throw an Error (not caught). The outcome of
 * the k-th call is the k-th entry of an oracle sequence, so the proofs hold for
 * every behaviour of the workers. The oracle's length also bounds the number of
 * calls: the source loop has no bound of its own and stops only when nothing can
 * be claimed, so running out of outcomes while items are still claimable stands
 * for PHP's execution time limit, which ends the request with a fatal error.
 */
module WorkQueue {
  import opened Wrappers

  /** A queue item: its id in the queue and its serialized payload. */
  datatype QueueItem = QueueItem(itemId: nat, data: string)

  class Queue {
    /** Unclaimed items, oldest first. */
    var items: seq<QueueItem>
    /** Items claimed and neither deleted nor released yet. */
    var leased: multiset<QueueItem>

    constructor (items: seq<QueueItem>)
      ensures this.items == items && leased == multiset{}
    {
      this.items := items;
      leased := multiset{};
    }

    /** numberOfItems(): every item in the queue, claimed or not. */
    function NumberOfItems(): (n: nat)
      reads this
      ensures n == |items| + |leased|
    {
      |items| + |leased|
    }

    /** createItem() for each of `found`, in order. */
    method CreateItems(found: seq<QueueItem>)
      modifies this
      ensures items == old(items) + found && leased == old(leased)
      ensures NumberOfItems() == old(NumberOfItems()) + |found|
    {
      items := items + found;
    }

    /** claimItem(): the oldest unclaimed item, now leased, or nothing when none is left. */
    method ClaimItem() returns (item: Option<QueueItem>)
      modifies this
      ensures old(items) == [] ==> item.None? && items == [] && leased == old(leased)
      ensures old(items) != [] ==>
                item == Some(old(items)[0]) && items == old(items)[1..] && leased == old(leased) + multiset{item.value}
    {
      if items == [] {
        item := None;
      } else {
        item := Some(items[0]);
        leased := leased + multiset{items[0]};
        items := items[1..];
      }
    }

    /** deleteItem(): a claimed item leaves the queue for good. */
    method DeleteItem(item: QueueItem)
      requires item in leased
      modifies this
      ensures items == old(items) && leased == old(leased) - multiset{item}
    {
      leased := leased - multiset{item};
    }

    /**
     * releaseItem(): a claimed item becomes claimable again, ahead of the others.
     * The database queue orders claims by creation time, so putting the item at
     * the front is exact when it is the only lease, as in the drain loop, where
     * each item is released or deleted before the next claim; two leases
     * released out of order would come back oldest first instead.
     */
    method ReleaseItem(item: QueueItem)
      requires item in leased
      modifies this
      ensures items == [item] + old(items) && leased == old(leased) - multiset{item}
    {
      leased := leased - multiset{item};
      items := [item] + items;
    }

    /** deleteQueue(): every item, claimed or not, is removed. */
    method DeleteQueue()
      modifies this
      ensures items == [] && leased == multiset{} && NumberOfItems() == 0
    {
      items := [];
      leased := multiset{};
    }
  }

  /** How one processItem call ends: normally, with an Exception, or with an Error. */
  datatype ProcessOutcome = Processed | Failed | Crashed

  /** One turn of the loop: the claimed item and how processing it ended. */
  datatype Attempt = Attempt(item: QueueItem, outcome: ProcessOutcome)

  /**
   * Where a drain ends: the unclaimed items left, the turns taken, whether an
   * Error escaped the loop (leaving the last claimed item leased), and whether
   * the time limit ended the request while items were still claimable.
   */
  datatype DrainResult = DrainResult(remaining: seq<QueueItem>, attempts: seq<Attempt>, crashed: bool, timedOut: bool)

  /**
   * The drain loop on the unclaimed items, one turn per outcome until nothing
   * can be claimed. A processed item leaves the queue, a failed one is put
   * back at the front and claimed again on the next turn.
   */
  function Drain(pending: seq<QueueItem>, outcomes: seq<ProcessOutcome>): (r: DrainResult)
    ensures |r.attempts| <= |outcomes|
    ensures !(r.crashed && r.timedOut)
    ensures r.timedOut ==> r.remaining != [] && |r.attempts| == |outcomes|
    ensures r.remaining == [] || r.crashed || r.timedOut
    decreases |outcomes|
  {
    if pending == [] then DrainResult(pending, [], false, false)
    else if outcomes == [] then DrainResult(pending, [], false, true)
    else
      var attempt := Attempt(pending[0], outcomes[0]);
      match outcomes[0]
      case Crashed => DrainResult(pending[1..], [attempt], true, false)
      case Processed =>
        var rest := Drain(pending[1..], outcomes[1..]);
        DrainResult(rest.remaining, [attempt] + rest.attempts, rest.crashed, rest.timedOut)
      case Failed =>
        var rest := Drain(pending, outcomes[1..]);
        DrainResult(rest.remaining, [attempt] + rest.attempts, rest.crashed, rest.timedOut)
  }

  /** Number of turns whose item was processed (the `$count` of the loop). */
  function Successes(attempts: seq<Attempt>): (n: nat)
  {
    if attempts == [] then 0
    else (if attempts[0].outcome == Processed then 1 else 0) + Successes(attempts[1..])
  }

  /** The items of the turns that took them out of the unclaimed list for good (processed or crashed). */
  function Taken(attempts: seq<Attempt>): (items: seq<QueueItem>)
  {
    if attempts == [] then []
    else (if attempts[0].outcome == Failed then [] else [attempts[0].item]) + Taken(attempts[1..])
  }

  /** The items of the turns whose item was processed, hence deleted. */
  function Deleted(attempts: seq<Attempt>): (items: seq<QueueItem>)
  {
    if attempts == [] then []
    else (if attempts[0].outcome == Processed then [attempts[0].item] else []) + Deleted(attempts[1..])
  }

  lemma {:induction false} DeletedCount(attempts: seq<Attempt>)
    ensures |Deleted(attempts)| == Successes(attempts)
  {
    if attempts != [] {
      DeletedCount(attempts[1..]);
    }
  }

  /**
   * Turn k of the drain saw outcome k; there are never more turns than
   * outcomes; an Error ends the drain at once (it is the last turn).
   */
  lemma {:induction false} DrainFollowsOutcomes(pending: seq<QueueItem>, outcomes: seq<ProcessOutcome>)
    ensures var d := Drain(pending, outcomes);
            |d.attempts| <= |outcomes|
            && (forall k :: 0 <= k < |d.attempts| ==> d.attempts[k].outcome == outcomes[k])
            && (forall k :: 0 <= k < |d.attempts| && d.attempts[k].outcome == Crashed ==> k == |d.attempts| - 1)
            && (d.crashed <==> d.attempts != [] && d.attempts[|d.attempts| - 1].outcome == Crashed)
    decreases |outcomes|
  {
    if pending != [] && outcomes != [] && outcomes[0] != Crashed {
      DrainFollowsOutcomes(if outcomes[0] == Processed then pending[1..] else pending, outcomes[1..]);
    }
  }

  /**
   * The loop ends in exactly one way: claimItem returns nothing, an Error
   * escapes, or the time limit is reached with items still claimable; only the
   * first lets the handler go on to its status message.
   */
  lemma {:induction false} DrainStops(pending: seq<QueueItem>, outcomes: seq<ProcessOutcome>)
    ensures var d := Drain(pending, outcomes);
            (d.remaining == [] && !d.crashed) || d.crashed || d.timedOut
    ensures var d := Drain(pending, outcomes);
            d.timedOut <==> !d.crashed && d.remaining != []
    decreases |outcomes|
  {
    if pending != [] && outcomes != [] && outcomes[0] != Crashed {
      DrainStops(if outcomes[0] == Processed then pending[1..] else pending, outcomes[1..]);
    }
  }

  /**
   * Items leave the queue in FIFO order: the items taken (deleted, or stuck
   * claimed after an Error) followed by the items left are exactly the items
   * the drain started with.
   */
  lemma {:induction false} DrainFifo(pending: seq<QueueItem>, outcomes: seq<ProcessOutcome>)
    ensures var d := Drain(pending, outcomes);
            Taken(d.attempts) + d.remaining == pending
    decreases |outcomes|
  {
    if pending != [] && outcomes != [] {
      var d := Drain(pending, outcomes);
      var attempt := Attempt(pending[0], outcomes[0]);
      match outcomes[0]
      case Crashed =>
        assert d.attempts[1..] == [];
      case Processed =>
        DrainFifo(pending[1..], outcomes[1..]);
        assert d.attempts[1..] == Drain(pending[1..], outcomes[1..]).attempts;
        assert Taken(d.attempts) == [pending[0]] + Taken(d.attempts[1..]);
        assert pending == [pending[0]] + pending[1..];
      case Failed =>
        DrainFifo(pending, outcomes[1..]);
        assert d.attempts[1..] == Drain(pending, outcomes[1..]).attempts;
    }
  }

  /** The reported count is the number of items removed from the unclaimed list and deleted. */
  lemma {:induction false} DrainCount(pending: seq<QueueItem>, outcomes: seq<ProcessOutcome>)
    ensures var d := Drain(pending, outcomes);
            Successes(d.attempts) == |pending| - |d.remaining| - (if d.crashed then 1 else 0)
    decreases |outcomes|
  {
    if pending != [] && outcomes != [] && outcomes[0] != Crashed {
      var d := Drain(pending, outcomes);
      var next := if outcomes[0] == Processed then pending[1..] else pending;
      DrainCount(next, outcomes[1..]);
      assert d.attempts[1..] == Drain(next, outcomes[1..]).attempts;
    }
  }

  /** With every call succeeding and enough time, the whole queue is processed and counted. */
  lemma {:induction false} DrainAllProcessed(pending: seq<QueueItem>, outcomes: seq<ProcessOutcome>)
    requires |outcomes| >= |pending|
    requires forall k :: 0 <= k < |outcomes| ==> outcomes[k] == Processed
    ensures var d := Drain(pending, outcomes);
            d.remaining == [] && !d.crashed && !d.timedOut
            && Successes(d.attempts) == |pending| && Deleted(d.attempts) == pending
    decreases |outcomes|
  {
    if pending != [] {
      var d := Drain(pending, outcomes);
      DrainAllProcessed(pending[1..], outcomes[1..]);
      assert d.attempts[1..] == Drain(pending[1..], outcomes[1..]).attempts;
      assert pending == [pending[0]] + pending[1..];
    }
  }

  /**
   * An item that throws on every call blocks the queue: it is released and
   * claimed again on every turn, nothing behind it is reached and nothing is
   * counted, until the time limit ends the request.
   */
  lemma {:induction false} DrainBlockedByFailingHead(pending: seq<QueueItem>, outcomes: seq<ProcessOutcome>)
    requires pending != []
    requires forall k :: 0 <= k < |outcomes| ==> outcomes[k] == Failed
    ensures var d := Drain(pending, outcomes);
            d.remaining == pending && !d.crashed && d.timedOut && Successes(d.attempts) == 0
            && |d.attempts| == |outcomes|
            && forall k :: 0 <= k < |d.attempts| ==> d.attempts[k].item == pending[0]
    decreases |outcomes|
  {
    if outcomes != [] {
      var d := Drain(pending, outcomes);
      DrainBlockedByFailingHead(pending, outcomes[1..]);
      assert d.attempts[1..] == Drain(pending, outcomes[1..]).attempts;
    }
  }

  /**
   * The drain loop of `run_queue`: claim an item, process it, delete it and
   * count it on success, release it when processing throws an Exception; stop
   * when nothing can be claimed. An Error thrown by processItem leaves the loop
   * with the item still claimed (`crashed`); the time limit may end it with
   * items still claimable (`timedOut`).
   */
  method RunQueue(queue: Queue, outcomes: seq<ProcessOutcome>)
    returns (count: nat, attempts: seq<Attempt>, crashed: bool, timedOut: bool)
    modifies queue
    ensures var d := Drain(old(queue.items), outcomes);
            queue.items == d.remaining && attempts == d.attempts && crashed == d.crashed && timedOut == d.timedOut
    ensures crashed ==> attempts != [] && queue.leased == old(queue.leased) + multiset{attempts[|attempts| - 1].item}
    ensures !crashed ==> queue.leased == old(queue.leased)
    ensures count == Successes(attempts)
  {
    count, attempts, crashed, timedOut := 0, [], false, false;
    ghost var goal := Drain(queue.items, outcomes);
    var k := 0;
    while k < |outcomes|
      invariant 0 <= k <= |outcomes|
      invariant queue.leased == old(queue.leased)
      invariant goal == Resume(attempts, Drain(queue.items, outcomes[k..]))
      invariant count == Successes(attempts)
    {
      ghost var before := queue.items;
      ghost var tail := outcomes[k..];
      assert tail[0] == outcomes[k] && tail[1..] == outcomes[k + 1..];
      var attempt := Turn(queue, outcomes[k]);
      if attempt.None? {
        DrainEmpty(tail);
        return;
      }
      SuccessesAppend(attempts, attempt.value);
      ghost var done := attempts;
      attempts := attempts + [attempt.value];
      if attempt.value.outcome == Crashed {
        DrainCrash(before, tail);
        crashed := true;
        return;
      }
      if attempt.value.outcome == Processed {
        count := count + 1;
      }
      DrainAdvance(done, before, tail);
      k := k + 1;
    }
    assert outcomes[k..] == [];
    DrainExhausted(queue.items);
    timedOut := queue.items != [];
  }

  /**
   * One turn of the loop: claim an item; process it; delete it on success,
   * release it on an Exception, leave it claimed on an Error. Nothing is
   * returned when nothing can be claimed.
   */
  method Turn(queue: Queue, outcome: ProcessOutcome) returns (attempt: Option<Attempt>)
    modifies queue
    ensures old(queue.items) == [] ==> attempt.None? && queue.items == [] && queue.leased == old(queue.leased)
    ensures old(queue.items) != [] ==>
              attempt == Some(Attempt(old(queue.items)[0], outcome))
              && queue.items == (if outcome == Failed then old(queue.items) else old(queue.items)[1..])
              && queue.leased == (if outcome == Crashed then old(queue.leased) + multiset{old(queue.items)[0]}
                                  else old(queue.leased))
  {
    var item := queue.ClaimItem();
    if item.None? {
      return None;
    }
    var claimed := item.value;
    attempt := Some(Attempt(claimed, outcome));
    if outcome == Processed {
      queue.DeleteItem(claimed);
    } else if outcome == Failed {
      queue.ReleaseItem(claimed);
    }
  }

  /** The drain's result once `done` turns have been taken and `rest` is what the remaining turns do. */
  function Resume(done: seq<Attempt>, rest: DrainResult): (r: DrainResult)
  {
    DrainResult(rest.remaining, done + rest.attempts, rest.crashed, rest.timedOut)
  }

  lemma DrainEmpty(outcomes: seq<ProcessOutcome>)
    ensures Drain([], outcomes) == DrainResult([], [], false, false)
  {
  }

  lemma DrainExhausted(pending: seq<QueueItem>)
    ensures Drain(pending, []) == DrainResult(pending, [], false, pending != [])
  {
  }

  lemma DrainCrash(pending: seq<QueueItem>, outcomes: seq<ProcessOutcome>)
    requires pending != [] && outcomes != [] && outcomes[0] == Crashed
    ensures Drain(pending, outcomes) == DrainResult(pending[1..], [Attempt(pending[0], Crashed)], true, false)
  {
  }

  /** One turn that does not crash: the claimed item is deleted (processed) or put back (failed). */
  lemma DrainAdvance(done: seq<Attempt>, pending: seq<QueueItem>, outcomes: seq<ProcessOutcome>)
    requires pending != [] && outcomes != [] && outcomes[0] != Crashed
    ensures Resume(done, Drain(pending, outcomes))
         == Resume(done + [Attempt(pending[0], outcomes[0])],
                   Drain(if outcomes[0] == Processed then pending[1..] else pending, outcomes[1..]))
  {
    var next := if outcomes[0] == Processed then pending[1..] else pending;
    var r := Drain(next, outcomes[1..]);
    assert Drain(pending, outcomes).attempts == [Attempt(pending[0], outcomes[0])] + r.attempts;
    assert done + ([Attempt(pending[0], outcomes[0])] + r.attempts)
        == (done + [Attempt(pending[0], outcomes[0])]) + r.attempts;
  }

  lemma {:induction false} SuccessesAppend(attempts: seq<Attempt>, attempt: Attempt)
    ensures Successes(attempts + [attempt]) == Successes(attempts) + (if attempt.outcome == Processed then 1 else 0)
  {
    if attempts == [] {
      assert [attempt][1..] == [];
    } else {
      assert (attempts + [attempt])[1..] == attempts[1..] + [attempt];
      SuccessesAppend(attempts[1..], attempt);
    }
  }
}
