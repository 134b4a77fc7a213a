# KCTS 9 Media Manager core, modelled in Dafny

This project models the core of a Drupal module that mirrors PBS Media Manager
content (Shows and their Video Content) into local nodes:

- The shared upsert helpers of the content managers:
  - timestamp normalisation (`dateTimeNoMicroseconds`);
  - the "latest update" fold over an item and its images (`getLatestUpdatedAt`);
  - image URL canonicalisation (`parseImages`, with PHP's `array_column`);
  - lookup of local nodes by Media Manager GUID (`getNodeByGuid`, `getOrCreateNode`, `nodeHasGuid`).
- The Scheduler cascade:
  - publishing a Video Content node publishes its Show when the Show is publishable;
  - unpublishing the last published Video Content of a Show unpublishes the Show.
- The two queue admin forms: update, run and reset the Show and Video Content
  queues, plus the Video Content form's batch build, execute and delete actions.

Modules:

- `Wrappers`: `Option` and `Result`.
- `Sequences`: the order-keeping filter behind the two entity queries.
- `ApiContentManagerBase`: the upsert helpers. These are pure functions. Two of them, which loop in the source, are methods.
- `WorkQueue`: the Drupal queue the forms drain, modelled as a class. It also holds the drain loop both forms share (`RunQueue`) and its specification (`Drain`).
- `ContentManagers`: a content manager as the forms see it: its queue and its stored last-update time.
- `QueueFormBase`: button names, messages, and the behaviour of collaborators during one submission.
- `VideoContentQueueForm`, `ShowsQueueForm`: the two forms' `submitForm`.
- `SchedulerEventSubscriber`: the publish/unpublish cascade on a `Show` object.

Collaborators the code calls but does not define are passed in; none is modelled beyond this interface:

- PHP's `DateTime` constructor is a function `parse: string -> Option<Time>`.
- `parse_url` is a function `parseUrl: string -> Option<UrlParts>`.
- The queue workers' `processItem` is a sequence of outcomes, one per call:
  - `Processed`: it returns normally;
  - `Failed`: it throws an `Exception`, which the loop catches;
  - `Crashed`: it throws an `Error`, which escapes the loop.
- The entity storage is a list of nodes in id order, plus a fault the storage may raise.
- The Show's computed `publishable` field and getVideoContent's answer are inputs of the cascade. The field is read afresh at every event, so each event of a sequence carries the value it finds, and that value may change from one event to the next.
- Scheduler is taken to save the Video Content with its new status before the publish or unpublish event fires, so getVideoContent sees the saved status; the event-sequence lemmas rely on this.
- What `updateQueue` enqueues, the last-update time it stores, and whether it completes are given by the caller.

Every property below holds for every choice of these collaborators. Where a property needs a collaborator to behave in a particular way, its `requires` says so. For example, the `Synced` lemmas require that the `publishable` field never turns from false to true at an unpublish event.

Observations that come out of the proofs:

- `DrainBlockedByFailingHead`: an item whose worker always throws an `Exception` is released to the front of the queue and claimed again at once, with Drupal's database queue. That backend claims items in order of creation time, and releasing an item resets only its expiry. One failing item keeps `run_queue` from reaching any later item until the execution time limit ends the request, so the form never reports its count.
- `RiseAtUnpublishLeavesUnsynced`: suppose a Show becomes publishable between events, and the next event unpublishes one of its Video Content. The Show then stays unpublished while another of its Video Content is still published. Only a later publish event catches up with it, because the unpublish rule never publishes.
- `GetOrCreateNode`: because `getNodeByGuid` swallows storage faults, a failing query makes `getOrCreateNode` return a new, unsaved node even when a matching node exists.

## Model

| member | source | states |
|---|---|---|
| ApiContentManagerBase.StripMicroseconds | src/ApiContentManagerBase.php:222-227 | a 27-character stamp keeps its first 19 characters followed by `Z`; any other string is unchanged |
| ApiContentManagerBase.StripMicrosecondsIdempotent | src/ApiContentManagerBase.php:222-227 | stripping an already stripped string changes nothing |
| ApiContentManagerBase.DateTimeNoMicroseconds | src/ApiContentManagerBase.php:222-235 | the result is the parse of the string itself, or of its first 19 characters plus `Z` for a 27-character stamp; a rejected string gives NULL |
| ApiContentManagerBase.MicrosecondsIgnored | src/ApiContentManagerBase.php:222-235 | two microsecond stamps that agree to the second give the same DateTime |
| ApiContentManagerBase.DateTimeNoMicrosecondsIdempotent | src/ApiContentManagerBase.php:222-235 | normalising is idempotent |
| ApiContentManagerBase.UnparsableYieldsNull | src/ApiContentManagerBase.php:228-234 | a constructor exception becomes NULL and does not propagate |
| ApiContentManagerBase.ImageTimes | src/ApiContentManagerBase.php:289-297 | one parsed time per image, in order; none without an `images` attribute |
| ApiContentManagerBase.GetLatestUpdatedAt | src/ApiContentManagerBase.php:286-299 | the result is no earlier than the item's own time or any image time, under PHP's ordering of `DateTime\|null`; it is one of those times; without images it is the item's own time |
| ApiContentManagerBase.ArrayColumn | src/ApiContentManagerBase.php:260 | every profile key comes from a row that has both the image and the profile column; positional keys stay below the next free integer key |
| ApiContentManagerBase.ArrayColumnHasProfile | src/ApiContentManagerBase.php:260 | every profile some row provides becomes a key |
| ApiContentManagerBase.ArrayColumnLastWins | src/ApiContentManagerBase.php:260 | when rows share a profile, the key holds the last such row's image |
| ApiContentManagerBase.ParseImages | src/ApiContentManagerBase.php:255-271 | a key survives iff its URL parses with both a host and a path; its value is then `//` + host + path; every profile key comes from an input row |
| Sequences.FilterContents | src/ApiContentManagerBase.php:150-153 | a query by property keeps every stored entity that matches and nothing else, and never returns more than is stored |
| Sequences.FilterFirst | src/ApiContentManagerBase.php:150-153 | the first entity a query returns is the first stored one that matches |
| Sequences.FilterAppend | src/ApiContentManagerBase.php:150-153 | a query keeps storage order: consecutive stretches of storage give consecutive answers |
| Sequences.FilterSingle | src/ApiContentManagerBase.php:150-153 | one stored entity is returned iff it matches |
| ApiContentManagerBase.LoadByProperties | src/ApiContentManagerBase.php:148-153 | exactly the nodes with the bundle and GUID; the first is the first match |
| ApiContentManagerBase.LoadByPropertiesAppend | src/ApiContentManagerBase.php:148-153 | the answers for consecutive stretches of storage concatenate, so the answer is in storage order |
| ApiContentManagerBase.LoadByPropertiesSingle | src/ApiContentManagerBase.php:148-153 | one stored node is in the answer iff it has the bundle and the GUID |
| ApiContentManagerBase.LoadByPropertiesSeveral | src/ApiContentManagerBase.php:161-170 | more than one node is loaded iff two distinct stored nodes match |
| ApiContentManagerBase.GetNodeByGuid | src/ApiContentManagerBase.php:146-174 | NULL iff the storage faults or nothing matches; otherwise the first match; duplicates are logged iff the query succeeds with two or more matches |
| ApiContentManagerBase.NewNode | src/ApiContentManagerBase.php:126-130 | a new node of the bundle, with no id and no GUID |
| ApiContentManagerBase.GetOrCreateNode | src/ApiContentManagerBase.php:121-133 | fails iff the entity definition cannot be loaded; otherwise a node of the requested bundle: the first match when the query succeeds, a new node when it faults or finds nothing |
| ApiContentManagerBase.GetNodeGuid | src/ApiContentManagerBase.php:185-192 | the GUID field's value, or NULL when the node has none |
| ApiContentManagerBase.NodeHasGuid | src/ApiContentManagerBase.php:185-205 | true iff the GUID field is set and not "" or "0" (PHP `empty`) |
| ApiContentManagerBase.FoundNodeHasGuid | src/ApiContentManagerBase.php:146-205 | a node found by a GUID that is not empty has a GUID |
| WorkQueue.Queue.NumberOfItems | src/Form/VideoContentQueueForm.php:107-109 | counts claimed items as well as unclaimed ones |
| WorkQueue.Queue.CreateItems | src/Form/VideoContentQueueForm.php:106-109 | found items join the end of the queue; the count grows by their number |
| WorkQueue.Queue.ClaimItem | src/Form/VideoContentQueueForm.php:133 | the oldest unclaimed item becomes leased; nothing is returned when none is left |
| WorkQueue.Queue.DeleteItem | src/Form/VideoContentQueueForm.php:136 | a leased item leaves the queue |
| WorkQueue.Queue.ReleaseItem | src/Form/VideoContentQueueForm.php:140 | a leased item becomes claimable again, first |
| WorkQueue.Queue.DeleteQueue | src/Form/VideoContentQueueForm.php:151-155 | every item, claimed or not, is removed |
| WorkQueue.Drain | src/Form/VideoContentQueueForm.php:133-142 | the reference for the loop: a processed item leaves, a failed one goes back to the front and is claimed next; never more turns than outcomes; the loop ends by an Error or by the time limit, never both; the time limit strikes only with items left and all outcomes used; otherwise nothing is left to claim |
| WorkQueue.Turn | src/Form/VideoContentQueueForm.php:133-141 | one turn: the oldest unclaimed item is claimed; it is deleted on success, put back at the front on an Exception, left claimed on an Error; nothing happens when none is left |
| WorkQueue.RunQueue | src/Form/VideoContentQueueForm.php:128-145 | the drain loop: the queue, turns, Error flag and time-limit flag are as `Drain` says; the count is the number of items processed; an Error adds exactly the last claimed item to the leases, otherwise the leases are as before |
| WorkQueue.DrainFollowsOutcomes | src/Form/VideoContentQueueForm.php:133-142 | the k-th turn gets the k-th outcome; a crash can only be the last turn; the loop crashed iff its last turn did |
| WorkQueue.DrainStops | src/Form/VideoContentQueueForm.php:133 | the loop ends when nothing is left to claim, on an Error, or at the time limit; it times out iff no Error escaped and items are still claimable |
| WorkQueue.DrainFifo | src/Form/VideoContentQueueForm.php:133-142 | the items taken by processing or crash, followed by those left, are the original queue |
| WorkQueue.DrainCount | src/Form/VideoContentQueueForm.php:137 | the count is the number of items that left the queue minus at most the one that crashed |
| WorkQueue.DeletedCount | src/Form/VideoContentQueueForm.php:136-137 | the count equals the number of deleted items |
| WorkQueue.DrainAllProcessed | src/Form/ShowsQueueForm.php:63-72 | when every call succeeds and time suffices, every item is processed and deleted in order, and the loop ends normally |
| WorkQueue.DrainBlockedByFailingHead | src/Form/ShowsQueueForm.php:63-72 | when every call throws an Exception, the first item is retried on every turn, nothing is processed and the time limit ends the request |
| ContentManagers.ContentManager.UpdateQueue | src/Form/VideoContentQueueForm.php:108 | enqueues what it finds, stores the last-update time it arrives at, and reports whether it completed |
| ContentManagers.ContentManager.ResetLastUpdateTime | src/Form/VideoContentQueueForm.php:153 | the stored last-update time is cleared |
| VideoContentQueueForm.LoadByBundle | src/Form/VideoContentQueueForm.php:162-166 | exactly the stored nodes of the bundle |
| VideoContentQueueForm.LoadByBundleAppend | src/Form/VideoContentQueueForm.php:162-166 | the answers for consecutive stretches of storage concatenate, so the Shows reach the groups in storage order |
| VideoContentQueueForm.LoadByBundleSingle | src/Form/VideoContentQueueForm.php:162-166 | one stored node is in the answer iff it is of the bundle |
| VideoContentQueueForm.Chunk | src/Form/VideoContentQueueForm.php:170 | every group is non-empty with at most `size` members; every group but the last has exactly `size` |
| VideoContentQueueForm.ChunkFlatten | src/Form/VideoContentQueueForm.php:170 | the groups, concatenated, are the original list |
| VideoContentQueueForm.ChunkTwentyFive | src/Form/VideoContentQueueForm.php:168-170 | 25 Shows give groups of 10, 10 and 5, in order |
| VideoContentQueueForm.BuildOperations | src/Form/VideoContentQueueForm.php:171-177 | one build operation per group, in group order |
| VideoContentQueueForm.VideoContentQueueForm.SubmitForm | src/Form/VideoContentQueueForm.php:98-217 | per button: update appends the found items, stores updateQueue's time and reports their number, with an error message iff the update was incomplete; run drains as `Drain` says and reports the processed count unless an Error escapes or the time limit ends the request (then no message); reset empties the queue and clears the time; build sets one build batch with one operation per group of ten Shows, or raises on a storage fault; execute sets a single run operation; delete empties the batch queue; any other button changes nothing |
| ShowsQueueForm.ShowsQueueForm.SubmitForm | src/Form/ShowsQueueForm.php:39-88 | update appends the found items, stores updateQueue's time and always reports their number as a status; run (including no message after an Error or at the time limit) and reset behave as in the Video Content form; any other button changes nothing |
| SchedulerEventSubscriber.PublishRule | src/EventSubscriber/SchedulerEventSubscriber.php:59-69 | never unpublishes; the Show becomes published iff it was published, or the node is Video Content and the Show is publishable; any change is a publish plus one save |
| SchedulerEventSubscriber.UnpublishRule | src/EventSubscriber/SchedulerEventSubscriber.php:81-94 | never publishes; an unpublished Show is untouched; a published Show stays published iff the node is not Video Content or the Show still has published Video Content; any change is an unpublish plus one save |
| SchedulerEventSubscriber.PublishIdempotent | src/EventSubscriber/SchedulerEventSubscriber.php:64 | a repeated publish event does nothing more |
| SchedulerEventSubscriber.UnpublishIdempotent | src/EventSubscriber/SchedulerEventSubscriber.php:86-88 | a repeated unpublish event does nothing more |
| SchedulerEventSubscriber.PublishedIds | src/EventSubscriber/SchedulerEventSubscriber.php:87-88 | empty iff none of the Show's Video Content is published |
| SchedulerEventSubscriber.PublishStepKeepsConsistent | src/EventSubscriber/SchedulerEventSubscriber.php:59-69 | publishing a Video Content makes any Show state consistent, whatever the publish rule does |
| SchedulerEventSubscriber.UnpublishKeepsConsistent | src/EventSubscriber/SchedulerEventSubscriber.php:81-94 | whatever the state before, after the unpublish rule answered by getVideoContent a published Show has a published Video Content |
| SchedulerEventSubscriber.RunKeepsConsistent | src/EventSubscriber/SchedulerEventSubscriber.php:59-94 | along any sequence of publish and unpublish events, a Show that starts consistent stays so: whenever it is published, one of its Video Content is |
| SchedulerEventSubscriber.PublishSyncs | src/EventSubscriber/SchedulerEventSubscriber.php:59-69 | after any publish event, whatever the state before and whatever the `publishable` field reads, a publishable Show with a published Video Content is published |
| SchedulerEventSubscriber.StepKeepsSynced | src/EventSubscriber/SchedulerEventSubscriber.php:59-94 | after any one event at which the field does not turn from false to true on an unpublish, a publishable Show with a published Video Content is published: the publish rule publishes it, and the unpublish rule keeps it while getVideoContent finds another |
| SchedulerEventSubscriber.RiseAtUnpublishLeavesUnsynced | src/EventSubscriber/SchedulerEventSubscriber.php:81-94 | if the field turns true at an unpublish event, a publishable Show can be left unpublished beside a published Video Content |
| SchedulerEventSubscriber.FieldFixedNoRise | src/EventSubscriber/SchedulerEventSubscriber.php:64 | a field that keeps its value along the events never turns true at an unpublish |
| SchedulerEventSubscriber.RunKeepsSynced | src/EventSubscriber/SchedulerEventSubscriber.php:59-94 | along any sequence of events at which the field never turns true on an unpublish, a publishable Show with a published Video Content stays published |
| SchedulerEventSubscriber.PublishedIffVideoPublished | src/EventSubscriber/SchedulerEventSubscriber.php:59-94 | along any such sequence from a state in step, a publishable Show is published exactly when one of its Video Content is |
| SchedulerEventSubscriber.CascadeScenario | src/EventSubscriber/SchedulerEventSubscriber.php:59-94 | publishing one Video Content publishes the Show; of two published, unpublishing one keeps it published and unpublishing the other unpublishes it |
| SchedulerEventSubscriber.OnPublish | src/EventSubscriber/SchedulerEventSubscriber.php:59-69 | the referenced Show, if any, ends in the state the publish rule gives |
| SchedulerEventSubscriber.OnUnpublish | src/EventSubscriber/SchedulerEventSubscriber.php:81-94 | the referenced Show, if any, ends in the state the unpublish rule gives |

## Left out

- The `DateTime` constructor and `parse_url` are abstract functions. Date formats, time zones and URL syntax are not modelled.
- ApiContentManagerBase.ArrayColumn: PHP coerces a numeric-string profile such as "5" to an integer key. That coercion is not modelled: every profile stays a string key.
- ApiContentManagerBase.ParseImages: the result is a map, so the insertion order of PHP's array is not kept. Rows whose image column is missing are dropped, as `array_column` drops them.
- ApiContentManagerBase.StripMicroseconds: PHP's `strlen` and `substr` count bytes, the model counts characters. The two agree on ASCII stamps, which the model assumes; a 26-character stamp holding one two-byte character is cut by PHP and passed whole by the model.
- ApiContentManagerBase.DateTimeNoMicroseconds: `parse` is a fixed function of the string. `new DateTime` reads the clock for relative strings such as "" or "now"; `MicrosecondsIgnored` and the idempotence lemmas rely on that determinism.
- ApiContentManagerBase.GetNodeGuid: a node without the GUID field, where `get()` throws and the helper returns NULL, is represented as a node with no GUID value.
- ApiContentManagerBase.GetLatestUpdatedAt: an item or image without `updated_at` makes PHP raise a TypeError. That case is not modelled: every `updated_at` is a string.
- ApiContentManagerBase.LoadByProperties: the storage's result order is taken as the order of the node list (node id order). `reset()` then takes the first.
- The watchdog log message for duplicate GUIDs is modelled only as a flag (`Lookup.loggedDuplicates`).
- `updateQueue` of the Show and Video Content managers talks to the Media Manager API. Its change detection is outside this model: it is reduced to the items it enqueues, the last-update time it stores (any value) and its completion flag.
- `createInstance` of the queue worker manager is assumed to succeed. The workers' `processItem` is abstract (see above).
- WorkQueue.RunQueue: PHP's execution time limit is modelled as running out of outcomes while items are still claimable; the request then ends with no message (`timedOut`). The limit is taken to strike between turns, so no item is left leased by it. Lease expiry and concurrent queue users are not modelled.
- The batch callbacks in the `includes/` files, Drupal's batch runner and the batch queue they fill are not part of this model. A batch is the definition handed to `batch_set`, reduced to its kind and operations; titles, file paths and error messages are left out.
- Messenger texts and their translation are reduced to the `Message` datatype.
- The computed `publishable` field and `getVideoContent` of the Show manager are inputs of the cascade: they are a field value and a list of ids.
- SchedulerEventSubscriber.RunKeepsSynced, PublishedIffVideoPublished: they promise `Synced` only along events where the `publishable` field never turns from false to true at an unpublish. For other event sequences the model promises only `RunKeepsConsistent`. `RiseAtUnpublishLeavesUnsynced` shows that the stronger promise fails there in the program too.
- `save()` is counted, not performed. Storage exceptions raised by `save()` are not modelled.
- The settings form, the node update form, the shared form base's UI building, the field plugins, the queue worker plugins and the JavaScript are outside the modelled core.
- VideoContentQueueForm.Chunk: the number of groups (the size divided by 10, rounded up) is not stated. Its contract gives the group sizes and `ChunkFlatten` gives the contents, which pin the groups down.
- `resetLastUpdateTime` is a manager method outside the model, taken to clear only the stored time.
- The comment over `reset_queue` (src/Form/VideoContentQueueForm.php:148-149, src/Form/ShowsQueueForm.php:78-79) promises that the queue is refilled, but the code only calls `deleteQueue` and `resetLastUpdateTime`; the model follows the code.
- The Shows form reports its update count as a status without checking whether the update completed; the model follows the code.
