/**
 * The Video Content queue admin form: populate, drain and reset the Video
 * Content queue, and start the two-step batch update (build the batch queue
 * from all Shows in groups of ten, then execute it).
 *
 * `batch_set` only records the batch definition; the batch callbacks live in
 * files outside this model, so a batch is modelled as the definition handed
 * to `batch_set`.
 */
module VideoContentQueueForm {
  import opened Sequences
  import opened WorkQueue
  import opened ContentManagers
  import opened QueueFormBase
  import opened ApiContentManagerBase

  /** Shows per build operation. */
  const BatchGroupSize: nat := 10

  /** Bundle id of Show nodes. */
  const ShowBundle := "show"

  // ----------------------------------------------------------------------
  // The Show query
  // ----------------------------------------------------------------------

  /**
   * `loadByProperties([bundle key => $bundle])` on the node storage: the
   * stored nodes of one bundle, in storage order.
   */
  function LoadByBundle(nodes: seq<Node>, bundle: string): (found: seq<Node>)
    ensures forall n :: n in found ==> n in nodes && n.bundle == bundle
    ensures forall n :: n in nodes && n.bundle == bundle ==> n in found
    ensures |found| <= |nodes|
  {
    FilterContents(nodes, (n: Node) => n.bundle == bundle);
    Filter(nodes, (n: Node) => n.bundle == bundle)
  }

  /**
   * The query keeps storage order: the answer for two consecutive stretches of
   * storage is the answer for the first followed by the answer for the second.
   * With LoadByBundleSingle this determines the answer node by node.
   */
  lemma LoadByBundleAppend(a: seq<Node>, b: seq<Node>, bundle: string)
    ensures LoadByBundle(a + b, bundle) == LoadByBundle(a, bundle) + LoadByBundle(b, bundle)
  {
    FilterAppend(a, b, (n: Node) => n.bundle == bundle);
  }

  /** A single stored node is in the answer exactly when it is of the bundle. */
  lemma LoadByBundleSingle(n: Node, bundle: string)
    ensures LoadByBundle([n], bundle) == if n.bundle == bundle then [n] else []
  {
    FilterSingle(n, (n: Node) => n.bundle == bundle);
  }

  // ----------------------------------------------------------------------
  // array_chunk
  // ----------------------------------------------------------------------

  /**
   * PHP's `array_chunk($s, $size)`: consecutive groups of `size` elements, the
   * last one holding what is left. PHP rejects a size below 1.
   */
  function Chunk<T>(s: seq<T>, size: nat): (groups: seq<seq<T>>)
    requires size > 0
    ensures forall i :: 0 <= i < |groups| ==> 0 < |groups[i]| <= size
    ensures forall i :: 0 <= i < |groups| - 1 ==> |groups[i]| == size
    decreases |s|
  {
    if s == [] then []
    else if |s| <= size then [s]
    else [s[..size]] + Chunk(s[size..], size)
  }

  /** The groups concatenated in order. */
  function Flatten<T>(groups: seq<seq<T>>): (flat: seq<T>)
  {
    if groups == [] then [] else groups[0] + Flatten(groups[1..])
  }

  /** The groups, concatenated in order, give back the list. */
  lemma {:induction false} ChunkFlatten<T>(s: seq<T>, size: nat)
    requires size > 0
    ensures Flatten(Chunk(s, size)) == s
    decreases |s|
  {
    if s != [] && |s| > size {
      ChunkFlatten(s[size..], size);
      var groups := Chunk(s, size);
      assert groups[1..] == Chunk(s[size..], size);
      assert s == s[..size] + s[size..];
    }
  }

  /** 25 Shows give groups of 10, 10 and 5. */
  lemma ChunkTwentyFive<T>(s: seq<T>)
    requires |s| == 25
    ensures var groups := Chunk(s, BatchGroupSize);
            |groups| == 3 && |groups[0]| == 10 && |groups[1]| == 10 && |groups[2]| == 5
            && groups[0] == s[..10] && groups[1] == s[10..20] && groups[2] == s[20..]
  {
    var groups := Chunk(s, BatchGroupSize);
    assert groups == [s[..10]] + Chunk(s[10..], 10);
    assert Chunk(s[10..], 10) == [s[10..][..10]] + Chunk(s[10..][10..], 10);
    assert Chunk(s[10..][10..], 10) == [s[10..][10..]];
    assert s[10..][..10] == s[10..20];
    assert s[10..][10..] == s[20..];
  }

  // ----------------------------------------------------------------------
  // Batch definitions
  // ----------------------------------------------------------------------

  /**
   * A batch operation: `kcts9_media_manager_batch_video_content_build` with one
   * group of Shows, or `kcts9_media_manager_batch_video_content_run` with no
   * arguments.
   */
  datatype Operation = BuildGroup(group: seq<Node>) | RunBatchQueue

  /**
   * Which batch is set: building the batch queue (its `finished` callback is
   * `..._build_finished`, its file `batch.video_content.builder.inc`) or
   * executing it (`..._run_finished`, `batch.video_content.runner.inc`).
   */
  datatype BatchKind = BuildBatch | ExecuteBatch

  /** A definition handed to `batch_set`. */
  datatype Batch = Batch(kind: BatchKind, operations: seq<Operation>)

  /** One build operation per group, in group order. */
  predicate OnePerGroup(operations: seq<Operation>, groups: seq<seq<Node>>)
  {
    |operations| == |groups| && forall i :: 0 <= i < |groups| ==> operations[i] == BuildGroup(groups[i])
  }

  /** The `foreach` that appends one build operation per group. */
  method BuildOperations(groups: seq<seq<Node>>) returns (operations: seq<Operation>)
    ensures OnePerGroup(operations, groups)
  {
    operations := [];
    for i := 0 to |groups|
      invariant OnePerGroup(operations, groups[..i])
    {
      operations := operations + [BuildGroup(groups[i])];
    }
    assert groups[..|groups|] == groups;
  }

  // ----------------------------------------------------------------------
  // The form
  // ----------------------------------------------------------------------

  class VideoContentQueueForm {
    const videoContentManager: ContentManager
    /** The batch queue (`VideoContentManager::BATCH_QUEUE_NAME`). */
    const batchQueue: Queue
    /** Messages handed to the messenger, oldest first. */
    var messages: seq<Message>
    /** Batch definitions handed to `batch_set`, oldest first. */
    var batches: seq<Batch>

    constructor (videoContentManager: ContentManager, batchQueue: Queue)
      ensures this.videoContentManager == videoContentManager && this.batchQueue == batchQueue
      ensures messages == [] && batches == []
    {
      this.videoContentManager := videoContentManager;
      this.batchQueue := batchQueue;
      messages, batches := [], [];
    }

    /**
     * submitForm(): dispatches on the name of the button pressed. `raised`
     * is true when the handler does not run to its end: an exception leaves it
     * (a storage fault in the batch build, an Error from a queue worker) or the
     * time limit ends the request during the drain loop.
     */
    method SubmitForm(trigger: string, env: Environment) returns (raised: bool)
      requires videoContentManager.queue != batchQueue
      modifies this, videoContentManager, videoContentManager.queue, batchQueue
      // update_queue: the count is the queue size after updateQueue minus the size before;
      // an error is shown exactly when updateQueue reports it did not complete.
      ensures trigger == UpdateQueueTrigger ==>
                videoContentManager.queue.items == old(videoContentManager.queue.items) + env.found
                && videoContentManager.queue.leased == old(videoContentManager.queue.leased)
      ensures trigger == UpdateQueueTrigger ==>
                var added := videoContentManager.queue.NumberOfItems() - old(videoContentManager.queue.NumberOfItems());
                added == |env.found|
                && messages == old(messages) + [if env.updateCompletes then QueueUpdated(added) else QueueUpdateIncomplete(added)]
      ensures trigger == UpdateQueueTrigger ==>
                (IsError(messages[|messages| - 1]) <==> !env.updateCompletes)
                && videoContentManager.lastUpdateTime == env.updatedTime
      ensures trigger == UpdateQueueTrigger ==>
                !raised && batches == old(batches) && unchanged(batchQueue)
      // run_queue: the drain loop; the reported count is the number of items processed,
      // and no report is made when an Error escapes or the time limit ends the request.
      ensures trigger == RunQueueTrigger ==>
                var d := Drain(old(videoContentManager.queue.items), env.outcomes);
                videoContentManager.queue.items == d.remaining && raised == (d.crashed || d.timedOut)
      ensures trigger == RunQueueTrigger && !raised ==>
                var d := Drain(old(videoContentManager.queue.items), env.outcomes);
                messages == old(messages) + [QueueRunComplete(Successes(d.attempts))]
                && videoContentManager.queue.leased == old(videoContentManager.queue.leased)
      ensures trigger == RunQueueTrigger && raised ==> messages == old(messages)
      ensures trigger == RunQueueTrigger ==>
                var d := Drain(old(videoContentManager.queue.items), env.outcomes);
                d.crashed ==>
                  d.attempts != []
                  && videoContentManager.queue.leased
                     == old(videoContentManager.queue.leased) + multiset{d.attempts[|d.attempts| - 1].item}
      ensures trigger == RunQueueTrigger ==>
                var d := Drain(old(videoContentManager.queue.items), env.outcomes);
                d.timedOut ==> videoContentManager.queue.leased == old(videoContentManager.queue.leased)
      ensures trigger == RunQueueTrigger ==>
                batches == old(batches) && unchanged(batchQueue, videoContentManager)
      // reset_queue: the queue is emptied and the last-update time forgotten.
      ensures trigger == ResetQueueTrigger ==>
                videoContentManager.queue.items == [] && videoContentManager.queue.leased == multiset{}
                && videoContentManager.lastUpdateTime.None?
                && messages == old(messages) + [QueueWasReset]
                && !raised && batches == old(batches) && unchanged(batchQueue)
      // build_batch_queue: one build operation per group of at most ten Shows.
      ensures trigger == BuildBatchQueueTrigger ==>
                raised == (env.storage.fault != NoFault) && messages == old(messages)
                && unchanged(batchQueue, videoContentManager, videoContentManager.queue)
      ensures trigger == BuildBatchQueueTrigger && env.storage.fault == NoFault ==>
                |batches| == |old(batches)| + 1 && batches[..|old(batches)|] == old(batches)
                && batches[|old(batches)|].kind == BuildBatch
                && OnePerGroup(batches[|old(batches)|].operations,
                               Chunk(LoadByBundle(env.storage.nodes, ShowBundle), BatchGroupSize))
      ensures trigger == BuildBatchQueueTrigger && env.storage.fault != NoFault ==>
                batches == old(batches)
      // execute_batch_queue: a single run operation without arguments.
      ensures trigger == ExecuteBatchQueueTrigger ==>
                batches == old(batches) + [Batch(ExecuteBatch, [RunBatchQueue])]
                && !raised && messages == old(messages)
                && unchanged(batchQueue, videoContentManager, videoContentManager.queue)
      // delete_batch_queue: the batch queue is emptied.
      ensures trigger == DeleteBatchQueueTrigger ==>
                batchQueue.items == [] && batchQueue.leased == multiset{}
                && messages == old(messages) + [BatchQueueDeleted]
                && !raised && batches == old(batches)
                && unchanged(videoContentManager, videoContentManager.queue)
      // Any other button changes nothing.
      ensures trigger !in {UpdateQueueTrigger, RunQueueTrigger, ResetQueueTrigger,
                           BuildBatchQueueTrigger, ExecuteBatchQueueTrigger, DeleteBatchQueueTrigger} ==>
                !raised && unchanged(this, batchQueue, videoContentManager, videoContentManager.queue)
    {
      raised := false;
      var queue := videoContentManager.queue;
      if trigger == UpdateQueueTrigger {
        var countBefore := queue.NumberOfItems();
        var complete := videoContentManager.UpdateQueue(env.found, env.updateCompletes, env.updatedTime);
        var count := queue.NumberOfItems() - countBefore;
        if complete {
          messages := messages + [QueueUpdated(count)];
        } else {
          messages := messages + [QueueUpdateIncomplete(count)];
        }
      } else if trigger == RunQueueTrigger {
        var count, attempts, crashed, timedOut := RunQueue(queue, env.outcomes);
        if crashed || timedOut {
          raised := true;
        } else {
          messages := messages + [QueueRunComplete(count)];
        }
      } else if trigger == ResetQueueTrigger {
        queue.DeleteQueue();
        videoContentManager.ResetLastUpdateTime();
        messages := messages + [QueueWasReset];
      } else if trigger == BuildBatchQueueTrigger {
        if env.storage.fault != NoFault {
          raised := true;
        } else {
          var nodes := LoadByBundle(env.storage.nodes, ShowBundle);
          var groups := Chunk(nodes, BatchGroupSize);
          var operations := BuildOperations(groups);
          batches := batches + [Batch(BuildBatch, operations)];
        }
      } else if trigger == ExecuteBatchQueueTrigger {
        batches := batches + [Batch(ExecuteBatch, [RunBatchQueue])];
      } else if trigger == DeleteBatchQueueTrigger {
        batchQueue.DeleteQueue();
        messages := messages + [BatchQueueDeleted];
      }
    }
  }
}
