/**
 * The two content managers (Show and Video Content) as the queue forms use
 * them: each owns a work queue and a last-update time kept in Drupal's state.
 *
 * Their change detection (`updateQueue`) talks to the Media Manager API and is
 * not part of this model: what it enqueues, the last-update time it stores and
 * whether it completes are given by the caller.
 */
module ContentManagers {
  import opened Wrappers
  import opened WorkQueue
  import ApiContentManagerBase

  class ContentManager {
    /** The manager's work queue (`getQueue()`). */
    const queue: Queue
    /** The stored last-update time; None when it was never set or has been reset. */
    var lastUpdateTime: Option<ApiContentManagerBase.Time>

    constructor (queue: Queue, lastUpdateTime: Option<ApiContentManagerBase.Time>)
      ensures this.queue == queue && this.lastUpdateTime == lastUpdateTime
    {
      this.queue := queue;
      this.lastUpdateTime := lastUpdateTime;
    }

    /**
     * updateQueue(): enqueues the changed items it finds (`found`), stores the
     * last-update time it arrives at (`updatedTime`, possibly the old one) and
     * reports whether the update ran to completion (`complete`).
     */
    method UpdateQueue(found: seq<QueueItem>, complete: bool, updatedTime: Option<ApiContentManagerBase.Time>)
      returns (completed: bool)
      modifies this, queue
      ensures queue.items == old(queue.items) + found && queue.leased == old(queue.leased)
      ensures lastUpdateTime == updatedTime
      ensures completed == complete
    {
      queue.CreateItems(found);
      lastUpdateTime := updatedTime;
      completed := complete;
    }

    /** resetLastUpdateTime(): forgets the stored last-update time. */
    method ResetLastUpdateTime()
      modifies this
      ensures lastUpdateTime == None
    {
      lastUpdateTime := None;
    }
  }
}
