/**
 * The Shows queue admin form: populate, drain and reset the Shows queue.
 * Unlike the Video Content form it ignores what updateQueue returns.
 */
module ShowsQueueForm {
  import opened WorkQueue
  import opened ContentManagers
  import opened QueueFormBase

  class ShowsQueueForm {
    const showManager: ContentManager
    /** Messages handed to the messenger, oldest first. */
    var messages: seq<Message>

    constructor (showManager: ContentManager)
      ensures this.showManager == showManager && messages == []
    {
      this.showManager := showManager;
      messages := [];
    }

    /**
     * submitForm(): dispatches on the name of the button pressed. `raised` is
     * true when the handler does not run to its end: an Error from the queue
     * worker leaves it or the time limit ends the request during the drain loop.
     */
    method SubmitForm(trigger: string, env: Environment) returns (raised: bool)
      modifies this, showManager, showManager.queue
      // update_queue: the count is the queue size after updateQueue minus the size before,
      // always reported as a status whether or not the update completed.
      ensures trigger == UpdateQueueTrigger ==>
                showManager.queue.items == old(showManager.queue.items) + env.found
                && showManager.queue.leased == old(showManager.queue.leased)
                && showManager.lastUpdateTime == env.updatedTime
      ensures trigger == UpdateQueueTrigger ==>
                var added := showManager.queue.NumberOfItems() - old(showManager.queue.NumberOfItems());
                added == |env.found| && messages == old(messages) + [QueueUpdated(added)]
                && !IsError(messages[|messages| - 1])
      ensures trigger == UpdateQueueTrigger ==> !raised
      // run_queue: processed items are deleted and counted, failed ones released and not counted;
      // no report is made when an Error escapes or the time limit ends the request.
      ensures trigger == RunQueueTrigger ==>
                var d := Drain(old(showManager.queue.items), env.outcomes);
                showManager.queue.items == d.remaining && raised == (d.crashed || d.timedOut)
                && unchanged(showManager)
      ensures trigger == RunQueueTrigger && !raised ==>
                var d := Drain(old(showManager.queue.items), env.outcomes);
                messages == old(messages) + [QueueRunComplete(Successes(d.attempts))]
                && showManager.queue.leased == old(showManager.queue.leased)
      ensures trigger == RunQueueTrigger && raised ==> messages == old(messages)
      ensures trigger == RunQueueTrigger ==>
                var d := Drain(old(showManager.queue.items), env.outcomes);
                d.crashed ==>
                  d.attempts != []
                  && showManager.queue.leased == old(showManager.queue.leased) + multiset{d.attempts[|d.attempts| - 1].item}
      ensures trigger == RunQueueTrigger ==>
                var d := Drain(old(showManager.queue.items), env.outcomes);
                d.timedOut ==> showManager.queue.leased == old(showManager.queue.leased)
      // reset_queue: the queue is emptied and the Show last-update time forgotten.
      ensures trigger == ResetQueueTrigger ==>
                showManager.queue.items == [] && showManager.queue.leased == multiset{}
                && showManager.lastUpdateTime.None?
                && messages == old(messages) + [QueueWasReset] && !raised
      // Any other button changes neither the queue nor the stored state.
      ensures trigger !in {UpdateQueueTrigger, RunQueueTrigger, ResetQueueTrigger} ==>
                !raised && unchanged(this, showManager, showManager.queue)
    {
      raised := false;
      var queue := showManager.queue;
      if trigger == UpdateQueueTrigger {
        var countBefore := queue.NumberOfItems();
        var _ := showManager.UpdateQueue(env.found, env.updateCompletes, env.updatedTime);
        var count := queue.NumberOfItems() - countBefore;
        messages := messages + [QueueUpdated(count)];
      } else if trigger == RunQueueTrigger {
        var count, attempts, crashed, timedOut := RunQueue(queue, env.outcomes);
        if crashed || timedOut {
          raised := true;
        } else {
          messages := messages + [QueueRunComplete(count)];
        }
      } else if trigger == ResetQueueTrigger {
        queue.DeleteQueue();
        showManager.ResetLastUpdateTime();
        messages := messages + [QueueWasReset];
      }
    }
  }
}
