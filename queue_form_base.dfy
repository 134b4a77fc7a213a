/**
 * What the two queue admin forms share: the names of their submit buttons,
 * the messages they show and what their collaborators do during one
 * submission.
 */
module QueueFormBase {
  import opened Wrappers
  import opened WorkQueue
  import ApiContentManagerBase

  const UpdateQueueTrigger := "update_queue"
  const RunQueueTrigger := "run_queue"
  const ResetQueueTrigger := "reset_queue"
  const BuildBatchQueueTrigger := "build_batch_queue"
  const ExecuteBatchQueueTrigger := "execute_batch_queue"
  const DeleteBatchQueueTrigger := "delete_batch_queue"

  /** The messages the forms hand to the messenger, with the counts they report. */
  datatype Message =
    | QueueUpdated(added: int)              // status: the update finished, with the number of items added
    | QueueUpdateIncomplete(added: int)     // error: the update stopped early, with the number of items added
    | QueueRunComplete(processed: nat)      // status: the run finished, with the number of items processed
    | QueueWasReset                         // status: the queue was reset
    | BatchQueueDeleted                     // status: the batch queue was deleted

  /** Messages added with addError rather than addStatus. */
  predicate IsError(message: Message)
  {
    message.QueueUpdateIncomplete?
  }

  /**
   * The behaviour of the collaborators during one submission: the items
   * updateQueue enqueues, the last-update time it stores and whether it
   * completes, the outcome of each processItem call, and the node storage the
   * batch build queries.
   */
  datatype Environment = Environment(
    found: seq<QueueItem>,
    updatedTime: Option<ApiContentManagerBase.Time>,
    updateCompletes: bool,
    outcomes: seq<ProcessOutcome>,
    storage: ApiContentManagerBase.Storage)
}
