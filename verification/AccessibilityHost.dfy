/**
 The host window state behind AccessibilityProtocol, with its fields updated in place
 (src/host.cpp).  Every method is proved to take exactly the protocol step it implements.
 */
module AccessibilityHost {
  import opened Common
  import opened Semantics
  import opened SemanticsDiff
  import opened SemanticsOrder
  import opened SemanticsDiffer
  import P = AccessibilityProtocol

  /** A native adapter: all-or-nothing, strict about adding present and touching missing nodes. */
  class Adapter {
    var nodes: Model

    constructor ()
      ensures nodes == map[]
    {
      nodes := map[];
    }

    /**
     Edit a copy change by change, check the whole of it and swap it in at the end; `healthy` is
     false for a failure of its own, which includes bounds that overflow at the pixel ratio.
     */
    method Apply(changes: seq<Change>, healthy: bool) returns (ok: bool)
      modifies this
      ensures ok == (healthy && Accepts(old(nodes), changes))
      ensures nodes == if ok then ApplyAll(old(nodes), changes).value else old(nodes)
    {
      var next := nodes;
      for i := 0 to |changes|
        invariant nodes == old(nodes) && ApplyAll(nodes, changes[..i]) == Some(next)
        invariant forall k | 0 <= k < i :: changes[k].entry.id != 0
      {
        assert changes[..i + 1] == changes[..i] + [changes[i]];
        ApplySnoc(nodes, changes[..i], changes[i]);
        if changes[i].entry.id == 0 { return false; }
        match changes[i] {
          case Added(entry) =>
            if entry.id in next { ApplyFails(nodes, changes, i); return false; }
            next := next[entry.id := entry];
          case Updated(entry) =>
            if entry.id !in next { ApplyFails(nodes, changes, i); return false; }
            next := next[entry.id := entry];
          case Removed(entry) =>
            if entry.id !in next { ApplyFails(nodes, changes, i); return false; }
            next := next - {entry.id};
        }
      }
      assert changes[..|changes|] == changes;
      if !healthy || !HierarchyOk(next) { return false; }
      nodes := next;
      return true;
    }
  }

  lemma ApplyFails(m: Model, changes: seq<Change>, i: nat)
    requires i < |changes| && ApplyAll(m, changes[..i + 1]).None?
    ensures ApplyAll(m, changes).None?
  {
    assert changes == changes[..i + 1] + changes[i + 1..];
    ApplyConcat(m, changes[..i + 1], changes[i + 1..]);
  }

  class Window {
    var running: bool
    var adapter: Adapter?
    const bridge: AccessibilityBridge
    var desired: Option<seq<SemanticsNode>>
    var service: nat
    var publication: nat
    var publicationService: nat
    var inFlight: bool
    var retryPending: bool
    var retryRequested: bool
    var ui: seq<P.UiTask>
    var platform: seq<P.ApplyTask>
    ghost var published: Option<seq<SemanticsNode>>

    ghost predicate Valid()
      reads this, bridge, bridge.differ
    {
      && bridge.Valid()
      && (desired.Some? ==> Acceptable(Flattened(desired.value)))
      && forall i | 0 <= i < |ui| && ui[i].PublishTask? :: Acceptable(Flattened(ui[i].tree))
    }

    ghost function View(): P.Host
      reads this, bridge, bridge.differ, adapter
    {
      P.Host(running, adapter != null, if adapter == null then map[] else adapter.nodes,
             bridge.View(), desired, service, publication, publicationService, inFlight, retryPending, retryRequested,
             ui, platform, published)
    }

    constructor ()
      ensures Valid() && View() == P.INITIAL && fresh(bridge) && fresh(bridge.differ) && adapter == null
    {
      running, adapter, desired := true, null, None;
      bridge := new AccessibilityBridge();
      service, publication, publicationService := 0, 0, 0;
      inFlight, retryPending, retryRequested := false, false, false;
      ui, platform, published := [], [], None;
    }

    method Shutdown()
      requires Valid()
      modifies this`running
      ensures Valid() && View() == P.Stop(old(View())) && adapter == old(adapter)
    {
      running := false;
    }

    /** post_accessibility_publication together with its caller's shutdown on failure. */
    method PostPublication(p: Publication, postService: nat, post: Post)
      requires Valid()
      modifies this`running, this`publication, this`publicationService, this`inFlight, this`platform, bridge
      ensures Valid() && adapter == old(adapter) && bridge.differ == old(bridge.differ)
      ensures View() == P.Post(old(View()), p, postService, post)
    {
      if !running || adapter == null || service != postService || inFlight {
        var current := bridge.Reject(p.generation);
        return;
      }
      publication, publicationService := p.generation, postService;
      match post
      case Accepted =>
        inFlight := true;
        platform := platform + [P.ApplyTask(p, postService)];
      case Refused =>
        var current := bridge.Reject(p.generation);
        running := false;
    }

    /** dispatch_desired_semantics. */
    method Dispatch(post: Post)
      requires Valid()
      modifies this`running, this`publication, this`publicationService, this`inFlight, this`platform, bridge
      ensures Valid() && adapter == old(adapter) && bridge.differ == old(bridge.differ)
      ensures View() == P.Dispatch(old(View()), post)
    {
      if !running || inFlight || retryPending || adapter == null || desired.None? { return; }
      var prepared := bridge.Prepare(desired.value);
      match prepared
      case Unchanged =>
      case Ready(p) => PostPublication(p, service, post);
      case _ => running := false;
    }

    /** retry_semantics_on_ui. */
    method RetryOnUi(retryService: nat, post: Post)
      requires Valid()
      modifies this`running, this`publication, this`publicationService, this`inFlight, this`platform, this`retryPending,
               this`retryRequested, bridge
      ensures Valid() && adapter == old(adapter) && bridge.differ == old(bridge.differ)
      ensures View() == P.RetryOnUi(old(View()), retryService, post)
    {
      if !running || adapter == null || service != retryService || publicationService != retryService { return; }
      if inFlight {
        retryRequested := true;
        return;
      }
      if retryPending { Redeliver(post); }
    }

    method Redeliver(post: Post)
      requires Valid() && running && adapter != null && publicationService == service && !inFlight && retryPending
      modifies this`running, this`publication, this`publicationService, this`inFlight, this`platform, this`retryPending,
               bridge
      ensures Valid() && adapter == old(adapter) && bridge.differ == old(bridge.differ)
      ensures View() == P.RetryOnUi(old(View()), old(service), post)
    {
      var retried := bridge.Retry();
      if retried.Exhausted? {
        running := false;
      } else if retried.Ready? {
        retryPending := false;
        PostPublication(retried.publication, service, post);
      }
    }

    method PublishSemantics(tree: seq<SemanticsNode>, post: Post)
      requires Valid()
      modifies this`ui, this`running, this`published
      ensures Valid() && adapter == old(adapter) && View() == P.PublishSemantics(old(View()), tree, post)
    {
      var validated := FlattenTree(tree);
      if validated.None? || !running { return; }
      match post
      case Accepted =>
        ui := ui + [P.PublishTask(service, tree)];
        published := Some(tree);
      case Refused => running := false;
    }

    method RetrySemantics(post: Post)
      requires Valid()
      modifies this`ui, this`running
      ensures Valid() && adapter == old(adapter) && View() == P.RetrySemantics(old(View()), post)
    {
      if !running || adapter == null || (!inFlight && !retryPending) || publicationService != service { return; }
      match post
      case Accepted => ui := ui + [P.RetryTask(service)];
      case Refused => running := false;
    }

    /** set_accessibility_adapter; an installed adapter starts with an empty model. */
    method SetAdapter(next: Adapter?, post: Post)
      requires Valid() && (next != null ==> next.nodes == map[])
      modifies this
      ensures Valid() && adapter == (if old(running) && old(service) != MAX_U64 then next else old(adapter))
      ensures View() == P.SetAdapter(old(View()), next != null, post)
    {
      if !running { return; }
      if service == MAX_U64 {
        running := false;
        return;
      }
      service := service + 1;
      adapter := next;
      ClearDelivery();
      PostReset(post);
    }

    method PostReset(post: Post)
      modifies this`ui, this`running
      ensures running == (old(running) && post.Accepted?)
      ensures ui == if post.Accepted? then old(ui) + [P.ResetTask(service)] else old(ui)
    {
      if post.Refused? {
        running := false;
      } else {
        ui := ui + [P.ResetTask(service)];
      }
    }

    method ClearDelivery()
      modifies this`inFlight, this`retryPending, this`retryRequested, this`publication, this`publicationService
      ensures !inFlight && !retryPending && !retryRequested && publication == 0 && publicationService == 0
    {
      inFlight, retryPending, retryRequested := false, false, false;
      publication, publicationService := 0, 0;
    }

    method Record(generation: nat, success: bool)
      requires Valid()
      modifies this`inFlight, this`retryPending, this`retryRequested, bridge, bridge.differ
      ensures Valid() && adapter == old(adapter) && bridge.differ == old(bridge.differ)
      ensures View() == P.Record(old(View()), generation, success)
    {
      if success {
        var current := bridge.Acknowledge(generation);
      } else {
        var current := bridge.Reject(generation);
      }
      inFlight, retryPending, retryRequested := false, !success, false;
    }

    method Answer(taskService: nat, generation: nat, success: bool, post: Post)
      requires Valid()
      modifies this, bridge, bridge.differ
      ensures Valid() && adapter == old(adapter) && bridge.differ == old(bridge.differ)
      ensures View() == P.Answer(old(View()), taskService, generation, success, post)
    {
      if !running || !inFlight || service != taskService || publication != generation
         || publicationService != taskService {
        return;
      }
      var requested := retryRequested;
      Record(generation, success);
      if success {
        Dispatch(post);
      } else if requested {
        RetryOnUi(taskService, post);
      }
    }

    method Reset(taskService: nat, post: Post)
      requires Valid()
      modifies this, bridge, bridge.differ
      ensures Valid() && adapter == old(adapter) && bridge.differ == old(bridge.differ)
      ensures View() == P.Reset(old(View()), taskService, post)
    {
      if !running || service != taskService { return; }
      ClearDelivery();
      bridge.ResetAcknowledged();
      Dispatch(post);
    }

    /** The UI executor runs what stands at the front of its queue. */
    method RunUi(post: Post)
      requires Valid()
      modifies this, bridge, bridge.differ
      ensures Valid() && adapter == old(adapter) && bridge.differ == old(bridge.differ)
      ensures View() == P.RunUi(old(View()), post)
    {
      if ui == [] { return; }
      var task := ui[0];
      ui := ui[1..];
      match task
      case PublishTask(taskService, tree) =>
        if running {
          desired := Some(tree);
          if service == taskService { Dispatch(post); }
        }
      case AnswerTask(taskService, generation, success) => Answer(taskService, generation, success, post);
      case RetryTask(taskService) => RetryOnUi(taskService, post);
      case ResetTask(taskService) => Reset(taskService, post);
    }

    /** The platform executor runs the delivery at the front of its queue. */
    method RunPlatform(healthy: bool, post: Post)
      requires Valid()
      modifies this, adapter
      ensures Valid() && adapter == old(adapter) && View() == P.RunPlatform(old(View()), healthy, post)
    {
      if platform == [] { return; }
      var task := platform[0];
      platform := platform[1..];
      if !running || adapter == null || service != task.service || !inFlight ||
         publication != task.publication.generation {
        return;
      }
      var success := adapter.Apply(task.publication.changes, healthy);
      match post
      case Accepted => ui := ui + [P.AnswerTask(task.service, task.publication.generation, success)];
      case Refused => running := false;
    }

    /** One event; an adapter that is installed is a new one. */
    method Handle(e: P.Event)
      requires Valid()
      modifies this, bridge, bridge.differ, adapter
      ensures Valid() && bridge.differ == old(bridge.differ)
      ensures adapter == null || adapter == old(adapter) || fresh(adapter)
      ensures View() == P.Step(old(View()), e)
    {
      match e {
        case Publish(tree, post) => PublishSemantics(tree, post);
        case Retry(post) => RetrySemantics(post);
        case Install(present, post) =>
          var next: Adapter? := null;
          if present { next := new Adapter(); }
          SetAdapter(next, post);
        case UiStep(post) => RunUi(post);
        case PlatformStep(healthy, post) => RunPlatform(healthy, post);
        case Shutdown => Shutdown();
      }
    }
  }

  /** Drive a fresh window through any script; what it reports is what the protocol run predicts. */
  method Drive(events: seq<P.Event>) returns (running: bool, model: Model, desired: Option<seq<SemanticsNode>>)
    ensures running == P.Run(events).running && model == P.Run(events).model && desired == P.Run(events).desired
  {
    var window := new Window();
    for n := 0 to |events|
      invariant fresh(window) && fresh(window.bridge) && fresh(window.bridge.differ)
      invariant window.adapter != null ==> fresh(window.adapter)
      invariant window.Valid() && window.View() == P.Run(events[..n])
    {
      assert events[..n + 1][..n] == events[..n];
      window.Handle(events[n]);
    }
    assert events[..|events|] == events;
    running, desired := window.running, window.desired;
    model := if window.adapter == null then map[] else window.adapter.nodes;
  }
}
