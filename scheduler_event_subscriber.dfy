/**
 * The cascade from Video Content to its Show on Scheduler events: publishing
 * a Video Content node may publish its Show, unpublishing one may unpublish
 * it.
 *
 * The Show's computed `publishable` field (ShowManager::showIsPublishable) and
 * ShowManager::getVideoContent are not part of this model: the first is a
 * field value of the Show, the second's result is given by the caller.
 */
module SchedulerEventSubscriber {

  /** Bundle id of Video Content nodes. */
  const VideoContentBundle := "video_content"

  /** A Show node as the cascade sees it. */
  class Show {
    var published: bool
    /** Value of the computed `publishable` field. */
    var publishable: bool
    /** Number of save() calls so far. */
    var saves: nat

    constructor (published: bool, publishable: bool)
      ensures State() == ShowState(published, publishable, 0)
    {
      this.published := published;
      this.publishable := publishable;
      saves := 0;
    }

    function State(): (s: ShowState)
      reads this
      ensures s.published == published && s.publishable == publishable && s.saves == saves
    {
      ShowState(published, publishable, saves)
    }
  }

  /** The fields of a Show the cascade reads or writes. */
  datatype ShowState = ShowState(published: bool, publishable: bool, saves: nat)

  /** The node of a Scheduler event: its bundle and the Show its `field_show_ref` references, if any. */
  datatype EventNode = EventNode(bundle: string, show: Show?)

  /**
   * The publish rule: a Video Content node being published publishes its
   * Show, and saves it, when the Show is unpublished and publishable.
   */
  function PublishRule(isVideoContent: bool, show: ShowState): (r: ShowState)
    ensures r.publishable == show.publishable
    ensures show.published ==> r == show
    ensures !isVideoContent ==> r == show
    ensures r.published <==> show.published || (isVideoContent && show.publishable)
    ensures r != show <==> r == ShowState(true, show.publishable, show.saves + 1)
  {
    if isVideoContent && !show.published && show.publishable
    then ShowState(true, show.publishable, show.saves + 1)
    else show
  }

  /**
   * The unpublish rule: a Video Content node being unpublished unpublishes
   * its Show, and saves it, when the Show is published and no published Video
   * Content of it remains (`publishedVideoContent` is what getVideoContent
   * returns for the Show).
   */
  function UnpublishRule(isVideoContent: bool, show: ShowState, publishedVideoContent: seq<nat>): (r: ShowState)
    ensures r.publishable == show.publishable
    ensures r.published ==> show.published
    ensures !show.published ==> r == show
    ensures !isVideoContent ==> r == show
    ensures show.published ==> (r.published <==> !isVideoContent || publishedVideoContent != [])
    ensures r != show <==> r == ShowState(false, show.publishable, show.saves + 1)
  {
    if isVideoContent && show.published && publishedVideoContent == []
    then ShowState(false, show.publishable, show.saves + 1)
    else show
  }

  /** A second publish event finds the Show published and does nothing. */
  lemma PublishIdempotent(isVideoContent: bool, show: ShowState)
    ensures PublishRule(isVideoContent, PublishRule(isVideoContent, show)) == PublishRule(isVideoContent, show)
  {
  }

  /** A second unpublish event finds the Show unpublished, or still with published Video Content, and does nothing. */
  lemma UnpublishIdempotent(isVideoContent: bool, show: ShowState, publishedVideoContent: seq<nat>)
    ensures UnpublishRule(isVideoContent, UnpublishRule(isVideoContent, show, publishedVideoContent), publishedVideoContent)
         == UnpublishRule(isVideoContent, show, publishedVideoContent)
  {
  }

  /** A Video Content node of a Show: its node id and whether it is published. */
  datatype VideoContent = VideoContent(nid: nat, published: bool)

  /** Ids of the published Video Content, in order (what getVideoContent($show, TRUE) returns). */
  function PublishedIds(videos: seq<VideoContent>): (ids: seq<nat>)
    ensures ids == [] <==> forall i :: 0 <= i < |videos| ==> !videos[i].published
  {
    if videos == [] then []
    else (if videos[0].published then [videos[0].nid] else []) + PublishedIds(videos[1..])
  }

  /** A published Show has at least one published Video Content. */
  predicate Consistent(show: ShowState, videos: seq<VideoContent>)
  {
    show.published ==> exists i :: 0 <= i < |videos| && videos[i].published
  }

  /**
   * Scheduler publishing Video Content `k` of the Show: once the node is saved
   * published, any Show state is consistent, whatever the publish rule makes
   * of it.
   */
  lemma PublishStepKeepsConsistent(show: ShowState, videos: seq<VideoContent>, k: nat)
    requires k < |videos|
    ensures Consistent(PublishRule(true, show), videos[k := VideoContent(videos[k].nid, true)])
  {
    assert videos[k := VideoContent(videos[k].nid, true)][k].published;
  }

  /**
   * The unpublish rule restores consistency, whatever the state before: once a
   * Video Content has been unpublished, the Show stays published only while
   * another published one remains.
   */
  lemma UnpublishKeepsConsistent(show: ShowState, videos: seq<VideoContent>)
    ensures Consistent(UnpublishRule(true, show, PublishedIds(videos)), videos)
  {
  }

  /**
   * A Scheduler event on one Video Content of the Show: publishing or
   * unpublishing it. `publishable` is the value the Show's computed field has
   * when the event fires; it is read afresh at every event and may differ from
   * one event to the next.
   */
  datatype Event = Publish(index: nat, publishable: bool) | Unpublish(index: nat, publishable: bool)

  /** A Show together with its Video Content. */
  datatype Cascade = Cascade(show: ShowState, videos: seq<VideoContent>)

  /**
   * One Scheduler event: the Video Content is saved with its new status, then
   * the event fires, the Show's `publishable` field is read as the event
   * carries it, and the Show follows its rule; the unpublish rule gets
   * getVideoContent's answer on the saved Video Content. An event for an index
   * outside the list changes nothing.
   */
  function Step(c: Cascade, e: Event): (r: Cascade)
    ensures |r.videos| == |c.videos|
    ensures r.show.publishable == if e.index < |c.videos| then e.publishable else c.show.publishable
  {
    if e.index >= |c.videos| then c
    else
      var video := c.videos[e.index];
      var show := c.show.(publishable := e.publishable);
      match e
      case Publish(k, _) =>
        Cascade(PublishRule(true, show), c.videos[k := VideoContent(video.nid, true)])
      case Unpublish(k, _) =>
        var videos := c.videos[k := VideoContent(video.nid, false)];
        Cascade(UnpublishRule(true, show, PublishedIds(videos)), videos)
  }

  /** Every event finds the `publishable` field at the value `p`. */
  predicate FieldFixed(p: bool, events: seq<Event>)
  {
    forall i :: 0 <= i < |events| ==> events[i].publishable == p
  }

  /** The events applied in order. */
  function Run(c: Cascade, events: seq<Event>): (r: Cascade)
    ensures |r.videos| == |c.videos|
    ensures FieldFixed(c.show.publishable, events) ==> r.show.publishable == c.show.publishable
    decreases |events|
  {
    if events == [] then c
    else
      assert FieldFixed(c.show.publishable, events) ==> FieldFixed(c.show.publishable, events[1..]) by {
        forall i | 0 <= i < |events[1..]| ensures events[1..][i] == events[i + 1] { }
      }
      Run(Step(c, events[0]), events[1..])
  }

  /**
   * Along any sequence of Scheduler events, a Show that starts consistent with
   * its Video Content stays so: whenever it is published, one of its Video
   * Content is, whatever values the `publishable` field takes.
   */
  lemma {:induction false} RunKeepsConsistent(c: Cascade, events: seq<Event>)
    requires Consistent(c.show, c.videos)
    ensures Consistent(Run(c, events).show, Run(c, events).videos)
    decreases |events|
  {
    if events != [] {
      var e := events[0];
      if e.index < |c.videos| {
        var show := c.show.(publishable := e.publishable);
        match e
        case Publish(k, _) =>
          PublishStepKeepsConsistent(show, c.videos, k);
        case Unpublish(k, _) =>
          var videos := c.videos[k := VideoContent(c.videos[k].nid, false)];
          UnpublishKeepsConsistent(show, videos);
      }
      RunKeepsConsistent(Step(c, e), events[1..]);
    }
  }

  /** A publishable Show with a published Video Content is published. */
  predicate Synced(c: Cascade)
  {
    c.show.publishable && (exists i :: 0 <= i < |c.videos| && c.videos[i].published) ==> c.show.published
  }

  /**
   * The event does not find the `publishable` field turned from false to true
   * at an unpublish event, the one case no rule catches up with.
   */
  predicate NoRiseAtUnpublish(c: Cascade, e: Event)
  {
    e.index < |c.videos| && e.Unpublish? && e.publishable ==> c.show.publishable
  }

  /**
   * A publish event leaves the Show in step with its Video Content, whatever
   * the state before and whatever the `publishable` field reads: a publishable
   * Show is published by the rule.
   */
  lemma PublishSyncs(c: Cascade, k: nat, p: bool)
    requires k < |c.videos|
    ensures Synced(Step(c, Publish(k, p)))
  {
  }

  /**
   * One Scheduler event keeps a publishable Show published while it has a
   * published Video Content, unless the field rises at an unpublish event: the
   * publish rule publishes it, a Show that is not publishable is in step
   * trivially, and the unpublish rule leaves a published Show published while
   * getVideoContent still finds one.
   */
  lemma StepKeepsSynced(c: Cascade, e: Event)
    requires Synced(c) && NoRiseAtUnpublish(c, e)
    ensures Synced(Step(c, e))
  {
    var r := Step(c, e);
    if e.index < |c.videos| && e.Unpublish? && r.show.publishable
       && exists i :: 0 <= i < |r.videos| && r.videos[i].published {
      var i :| 0 <= i < |r.videos| && r.videos[i].published;
      assert i != e.index && c.videos[i] == r.videos[i];
      assert PublishedIds(r.videos) != [];
    }
  }

  /**
   * The field rising at an unpublish event breaks the step: an unpublished
   * Show that is not publishable, with two published Video Content, becomes
   * publishable while one of them is unpublished, and stays unpublished
   * beside the other, since the unpublish rule never publishes.
   */
  lemma RiseAtUnpublishLeavesUnsynced()
    ensures var c := Cascade(ShowState(false, false, 0), [VideoContent(1, true), VideoContent(2, true)]);
            var r := Step(c, Unpublish(1, true));
            && Synced(c)
            && r.show.publishable && !r.show.published && r.videos[0].published
            && !Synced(r)
  {
  }

  /** Along a sequence of events, the field never rises at an unpublish event. */
  predicate NoRiseAlong(c: Cascade, events: seq<Event>)
    decreases |events|
  {
    events == [] || (NoRiseAtUnpublish(c, events[0]) && NoRiseAlong(Step(c, events[0]), events[1..]))
  }

  /** A field that keeps its value along the events never rises. */
  lemma {:induction false} FieldFixedNoRise(c: Cascade, events: seq<Event>)
    requires FieldFixed(c.show.publishable, events)
    ensures NoRiseAlong(c, events)
    decreases |events|
  {
    if events != [] {
      assert events[0].publishable == c.show.publishable;
      assert FieldFixed(c.show.publishable, events[1..]) by {
        forall i | 0 <= i < |events[1..]| ensures events[1..][i] == events[i + 1] { }
      }
      FieldFixedNoRise(Step(c, events[0]), events[1..]);
    }
  }

  /**
   * Along a sequence of Scheduler events at which the field never rises on an
   * unpublish, a Synced Show stays Synced.
   */
  lemma {:induction false} RunKeepsSynced(c: Cascade, events: seq<Event>)
    requires Synced(c) && NoRiseAlong(c, events)
    ensures Synced(Run(c, events))
    decreases |events|
  {
    if events != [] {
      StepKeepsSynced(c, events[0]);
      RunKeepsSynced(Step(c, events[0]), events[1..]);
    }
  }

  /**
   * The cascade's promise: starting from a Show in step with its Video
   * Content, along any sequence of Scheduler events at which the field never
   * rises on an unpublish (in particular, one along which it keeps its
   * value), a publishable Show is published exactly when one of its Video
   * Content is.
   */
  lemma PublishedIffVideoPublished(c: Cascade, events: seq<Event>)
    requires Consistent(c.show, c.videos) && Synced(c) && NoRiseAlong(c, events)
    ensures var r := Run(c, events);
            r.show.publishable ==> (r.show.published <==> exists i :: 0 <= i < |r.videos| && r.videos[i].published)
  {
    RunKeepsConsistent(c, events);
    RunKeepsSynced(c, events);
  }

  /**
   * A publishable Show with no published Video Content is published when one
   * is; with two published, unpublishing one keeps it published and
   * unpublishing the other then unpublishes it.
   */
  lemma CascadeScenario(show: ShowState)
    requires !show.published && show.publishable
    ensures var published := PublishRule(true, show);
            && published.published
            && var afterFirst := UnpublishRule(true, published, PublishedIds([VideoContent(1, false), VideoContent(2, true)]));
               && afterFirst.published
               && !UnpublishRule(true, afterFirst, PublishedIds([VideoContent(1, false), VideoContent(2, false)])).published
  {
  }

  /** onPublish(): applies the publish rule to the referenced Show, if there is one. */
  method OnPublish(node: EventNode)
    modifies node.show
    ensures node.show != null ==>
              node.show.State() == PublishRule(node.bundle == VideoContentBundle, old(node.show.State()))
    ensures node.show != null ==> old(node.show.published) ==> node.show.published
  {
    if node.bundle == VideoContentBundle {
      var show := node.show;
      if show != null && !show.published && show.publishable {
        show.published := true;
        show.saves := show.saves + 1;
      }
    }
  }

  /**
   * onUnpublish(): applies the unpublish rule to the referenced Show, if there
   * is one; `publishedVideoContent` is getVideoContent's answer, asked for only
   * when the Show is published.
   */
  method OnUnpublish(node: EventNode, publishedVideoContent: seq<nat>)
    modifies node.show
    ensures node.show != null ==>
              node.show.State()
              == UnpublishRule(node.bundle == VideoContentBundle, old(node.show.State()), publishedVideoContent)
    ensures node.show != null ==> node.show.published ==> old(node.show.published)
  {
    if node.bundle == VideoContentBundle {
      var show := node.show;
      if show != null && show.published {
        var videoNids := publishedVideoContent;
        if videoNids == [] {
          show.published := false;
          show.saves := show.saves + 1;
        }
      }
    }
  }
}
