/**
 Publication of semantics across the UI and platform executors (src/host.cpp): desired tree,
 bridge transaction, delivery and retry flags, adapter replacement, and two FIFO queues.
 Every entry point and every queued task is one step; the environment decides which posts are
 refused and which deliveries the adapter fails.
 */
module AccessibilityProtocol {
  import opened Common
  import opened Semantics
  import opened SemanticsDiff
  import opened SemanticsOrder
  import opened SemanticsDiffer

  datatype UiTask =
    | PublishTask(service: nat, tree: seq<SemanticsNode>)
    | AnswerTask(service: nat, generation: nat, success: bool)
    | RetryTask(service: nat)
    | ResetTask(service: nat)

  datatype ApplyTask = ApplyTask(publication: Publication, service: nat)

  /**
   HostWindowState as far as accessibility goes.  `model` is the retained native model of the
   installed adapter, which starts empty; `published` remembers the last accepted publish.
   */
  datatype Host = Host(
    running: bool,
    installed: bool,
    model: Model,
    bridge: Bridge,
    desired: Option<seq<SemanticsNode>>,
    service: nat,
    publication: nat,
    publicationService: nat,
    inFlight: bool,
    retryPending: bool,
    retryRequested: bool,
    ui: seq<UiTask>,
    platform: seq<ApplyTask>,
    published: Option<seq<SemanticsNode>>)

  const INITIAL := Host(true, false, map[], Bridge([], None, 1), None, 0, 0, 0, false, false, false, [], [], None)

  // ---------------------------------------------------------------- the steps

  function Stop(h: Host): Host {
    h.(running := false)
  }

  /** post_accessibility_publication; a refused post rejects the batch and shuts the window down. */
  function Post(h: Host, p: Publication, service: nat, post: Common.Post): Host {
    if !h.running || !h.installed || h.service != service || h.inFlight then
      h.(bridge := RejectedState(h.bridge, p.generation))
    else
      var sent := h.(publication := p.generation, publicationService := service);
      match post
      case Refused => Stop(sent.(bridge := RejectedState(h.bridge, p.generation)))
      case Accepted => sent.(inFlight := true, platform := h.platform + [ApplyTask(p, service)])
  }

  /** dispatch_desired_semantics. */
  function Dispatch(h: Host, post: Common.Post): Host {
    if !h.running || h.inFlight || h.retryPending || !h.installed || h.desired.None? then h
    else
      var next := Flattened(h.desired.value);
      match PrepareResult(h.bridge, next)
      case Unchanged => h
      case Ready(p) => Post(h.(bridge := PrepareState(h.bridge, next)), p, h.service, post)
      case _ => Stop(h)
  }

  /** retry_semantics_on_ui. */
  function RetryOnUi(h: Host, service: nat, post: Common.Post): Host {
    if !h.running || !h.installed || h.service != service || h.publicationService != service then h
    else if h.inFlight then h.(retryRequested := true)
    else if !h.retryPending then h
    else
      match RetryResult(h.bridge)
      case Ready(p) => Post(h.(bridge := RetryState(h.bridge), retryPending := false), p, h.service, post)
      case Exhausted => Stop(h)
      case _ => h
  }

  ghost function PublishSemantics(h: Host, tree: seq<SemanticsNode>, post: Common.Post): Host {
    if !Acceptable(Flattened(tree)) || !h.running then h
    else match post
      case Refused => Stop(h)
      case Accepted => h.(ui := h.ui + [PublishTask(h.service, tree)], published := Some(tree))
  }

  function RetrySemantics(h: Host, post: Common.Post): Host {
    if !h.running || !h.installed || !(h.inFlight || h.retryPending) || h.publicationService != h.service then h
    else match post
      case Refused => Stop(h)
      case Accepted => h.(ui := h.ui + [RetryTask(h.service)])
  }

  function SetAdapter(h: Host, present: bool, post: Common.Post): Host {
    if !h.running then h
    else if h.service == MAX_U64 then Stop(h)
    else
      var s := h.service + 1;
      var replaced := h.(service := s, installed := present, model := map[], inFlight := false, retryPending := false,
                         retryRequested := false, publication := 0, publicationService := 0);
      match post
      case Refused => Stop(replaced)
      case Accepted => replaced.(ui := h.ui + [ResetTask(s)])
  }

  function Record(h: Host, generation: nat, success: bool): Host {
    h.(bridge := if success then Acknowledged(h.bridge, generation) else RejectedState(h.bridge, generation),
       inFlight := false, retryPending := !success, retryRequested := false)
  }

  /** The UI task that carries the adapter's answer back. */
  function Answer(h: Host, service: nat, generation: nat, success: bool, post: Common.Post): Host {
    if !h.running || !h.inFlight || h.service != service || h.publication != generation
       || h.publicationService != service then h
    else
      var answered := Record(h, generation, success);
      if success then Dispatch(answered, post)
      else if h.retryRequested then RetryOnUi(answered, service, post)
      else answered
  }

  function Reset(h: Host, service: nat, post: Common.Post): Host {
    if !h.running || h.service != service then h
    else
      Dispatch(h.(bridge := ResetState(h.bridge), inFlight := false, retryPending := false, retryRequested := false,
                  publication := 0, publicationService := 0), post)
  }

  function RunUi(h: Host, post: Common.Post): Host {
    if h.ui == [] then h
    else
      var h1 := h.(ui := h.ui[1..]);
      match h.ui[0]
      case PublishTask(service, tree) =>
        if !h.running then h1
        else if h.service == service then Dispatch(h1.(desired := Some(tree)), post)
        else h1.(desired := Some(tree))
      case AnswerTask(service, generation, success) => Answer(h1, service, generation, success, post)
      case RetryTask(service) => RetryOnUi(h1, service, post)
      case ResetTask(service) => Reset(h1, service, post)
  }

  predicate Delivers(h: Host, t: ApplyTask) {
    h.running && h.installed && h.service == t.service && h.inFlight && h.publication == t.publication.generation
  }

  /** The platform task: `healthy` is false when the adapter fails for a reason of its own. */
  function RunPlatform(h: Host, healthy: bool, post: Common.Post): Host {
    if h.platform == [] then h
    else
      var t, h1 := h.platform[0], h.(platform := h.platform[1..]);
      if !Delivers(h, t) then h1
      else
        var success := healthy && Accepts(h.model, t.publication.changes);
        var h2 := if success then h1.(model := ApplyAll(h.model, t.publication.changes).value) else h1;
        match post
        case Refused => Stop(h2)
        case Accepted => h2.(ui := h2.ui + [AnswerTask(t.service, t.publication.generation, success)])
  }

  datatype Event =
    | Publish(tree: seq<SemanticsNode>, post: Common.Post)
    | Retry(post: Common.Post)
    | Install(present: bool, post: Common.Post)
    | UiStep(post: Common.Post)
    | PlatformStep(healthy: bool, post: Common.Post)
    | Shutdown

  ghost function Step(h: Host, e: Event): Host {
    match e
    case Publish(tree, post) => PublishSemantics(h, tree, post)
    case Retry(post) => RetrySemantics(h, post)
    case Install(present, post) => SetAdapter(h, present, post)
    case UiStep(post) => RunUi(h, post)
    case PlatformStep(healthy, post) => RunPlatform(h, healthy, post)
    case Shutdown => Stop(h)
  }

  ghost function Run(events: seq<Event>): Host {
    if events == [] then INITIAL else Step(Run(events[..|events| - 1]), events[|events| - 1])
  }

  // ---------------------------------------------------------------- the invariant

  /** The queued answers and resets that belong to the current service. */
  function LiveUi(ui: seq<UiTask>, s: nat): seq<UiTask> {
    if ui == [] then []
    else (if IsLive(ui[0], s) then [ui[0]] else []) + LiveUi(ui[1..], s)
  }

  predicate IsLive(t: UiTask, s: nat) {
    (t.AnswerTask? || t.ResetTask?) && t.service == s
  }

  function LivePlatform(platform: seq<ApplyTask>, s: nat): seq<ApplyTask> {
    if platform == [] then []
    else (if platform[0].service == s then [platform[0]] else []) + LivePlatform(platform[1..], s)
  }

  /** A queued publish names an older service exactly when the current reset is behind it. */
  predicate Covered(ui: seq<UiTask>, s: nat) {
    ui == [] ||
    ((ui[0].PublishTask? ==> (ui[0].service != s <==> ResetTask(s) in ui[1..])) && Covered(ui[1..], s))
  }

  /** What the desired tree will be once the queue has drained. */
  function Eventually(ui: seq<UiTask>, desired: Option<seq<SemanticsNode>>): Option<seq<SemanticsNode>> {
    if ui == [] then desired
    else Eventually(ui[1..], if ui[0].PublishTask? then Some(ui[0].tree) else desired)
  }

  function Target(desired: Option<seq<SemanticsNode>>): seq<Entry> {
    if desired.None? then [] else Flattened(desired.value)
  }

  ghost predicate Basics(h: Host) {
    && BridgeOk(h.bridge)
    && (h.desired.Some? ==> Acceptable(Flattened(h.desired.value)))
    && (forall t | t in h.ui :: t.service <= h.service && (t.PublishTask? ==> Acceptable(Flattened(t.tree))))
    && (forall t | t in h.platform :: t.service <= h.service)
    && Covered(h.ui, h.service)
    && Eventually(h.ui, h.desired) == h.published
    && (h.desired.None? ==> h.bridge.acked == [] && h.bridge.transaction.None?)
  }

  predicate Synced(h: Host) {
    ResetTask(h.service) !in h.ui
  }

  /** Replaced, and the reset has not run yet: nothing of the old service is listened to. */
  ghost predicate Unsynced(h: Host) {
    && LiveUi(h.ui, h.service) == [ResetTask(h.service)] && LivePlatform(h.platform, h.service) == []
    && !h.inFlight && !h.retryPending && h.publicationService != h.service && h.model == map[]
  }

  ghost predicate Idle(h: Host) {
    && LiveUi(h.ui, h.service) == [] && LivePlatform(h.platform, h.service) == []
    && !h.inFlight && !h.retryPending && h.bridge.transaction.None? && h.model == MapOf(h.bridge.acked)
  }

  ghost predicate InTransaction(h: Host, inFlight: bool) {
    && h.installed && h.bridge.transaction.Some? && h.bridge.transaction.value.inFlight == inFlight
    && h.publicationService == h.service && h.inFlight == inFlight
    && (inFlight ==> h.publication == h.bridge.transaction.value.generation && !h.retryPending)
  }

  ghost predicate Delivering(h: Host) {
    && InTransaction(h, true) && LiveUi(h.ui, h.service) == []
    && var t := h.bridge.transaction.value;
       LivePlatform(h.platform, h.service) == [ApplyTask(Publication(t.generation, t.changes), h.service)]
       && h.model == MapOf(h.bridge.acked)
  }

  ghost predicate Answered(h: Host, success: bool) {
    && InTransaction(h, true) && LivePlatform(h.platform, h.service) == []
    && LiveUi(h.ui, h.service) == [AnswerTask(h.service, h.publication, success)]
    && h.model == MapOf(if success then h.bridge.transaction.value.candidate else h.bridge.acked)
  }

  ghost predicate Rejected(h: Host) {
    && InTransaction(h, false) && h.retryPending
    && LiveUi(h.ui, h.service) == [] && LivePlatform(h.platform, h.service) == []
    && h.model == MapOf(h.bridge.acked)
  }

  ghost predicate Settled(h: Host) {
    h.installed ==> h.bridge.acked == Target(h.desired)
  }

  ghost predicate Phase(h: Host) {
    || Unsynced(h)
    || (Idle(h) && Settled(h))
    || Delivering(h)
    || Answered(h, true)
    || Answered(h, false)
    || Rejected(h)
  }

  ghost predicate HostOk(h: Host) {
    BridgeOk(h.bridge) && (h.running ==> Basics(h) && Phase(h))
  }

  // ---------------------------------------------------------------- queue lemmas

  lemma {:induction false} LiveUiSnoc(ui: seq<UiTask>, t: UiTask, s: nat)
    ensures LiveUi(ui + [t], s) == LiveUi(ui, s) + if IsLive(t, s) then [t] else []
  {
    if ui == [] {
      assert ui + [t] == [t];
    } else {
      assert (ui + [t])[1..] == ui[1..] + [t];
      LiveUiSnoc(ui[1..], t, s);
      Associate(if IsLive(ui[0], s) then [ui[0]] else [], LiveUi(ui[1..], s), if IsLive(t, s) then [t] else []);
    }
  }

  lemma {:induction false} LivePlatformSnoc(q: seq<ApplyTask>, t: ApplyTask, s: nat)
    ensures LivePlatform(q + [t], s) == LivePlatform(q, s) + if t.service == s then [t] else []
  {
    if q == [] {
      assert q + [t] == [t];
    } else {
      assert (q + [t])[1..] == q[1..] + [t];
      LivePlatformSnoc(q[1..], t, s);
      Associate(if q[0].service == s then [q[0]] else [], LivePlatform(q[1..], s), if t.service == s then [t] else []);
    }
  }

  lemma {:induction false} NothingLive(ui: seq<UiTask>, q: seq<ApplyTask>, s: nat)
    requires (forall t | t in ui :: t.service < s) && (forall t | t in q :: t.service < s)
    ensures LiveUi(ui, s) == [] && LivePlatform(q, s) == []
    decreases |ui| + |q|
  {
    if ui != [] {
      assert ui[0] in ui;
      NothingLive(ui[1..], q, s);
    } else if q != [] {
      assert q[0] in q;
      NothingLive(ui, q[1..], s);
    }
  }

  lemma {:induction false} CoveredSnoc(ui: seq<UiTask>, t: UiTask, s: nat)
    requires Covered(ui, s) && !t.ResetTask? && (t.PublishTask? ==> t.service == s)
    ensures Covered(ui + [t], s)
  {
    if ui == [] {
      assert ui + [t] == [t];
    } else {
      assert (ui + [t])[1..] == ui[1..] + [t];
      CoveredSnoc(ui[1..], t, s);
    }
  }

  lemma {:induction false} CoveredByReset(ui: seq<UiTask>, s: nat)
    requires forall t | t in ui :: t.service < s
    ensures Covered(ui + [ResetTask(s)], s)
  {
    if ui == [] {
      assert ui + [ResetTask(s)] == [ResetTask(s)];
    } else {
      assert (ui + [ResetTask(s)])[1..] == ui[1..] + [ResetTask(s)];
      CoveredByReset(ui[1..], s);
    }
  }

  lemma {:induction false} EventuallySnoc(ui: seq<UiTask>, t: UiTask, d: Option<seq<SemanticsNode>>)
    ensures Eventually(ui + [t], d) == if t.PublishTask? then Some(t.tree) else Eventually(ui, d)
  {
    if ui == [] {
      assert ui + [t] == [t];
    } else {
      assert (ui + [t])[1..] == ui[1..] + [t];
      EventuallySnoc(ui[1..], t, if ui[0].PublishTask? then Some(ui[0].tree) else d);
    }
  }

  lemma {:induction false} LiveIsQueued(ui: seq<UiTask>, s: nat, t: UiTask)
    ensures t in LiveUi(ui, s) <==> t in ui && IsLive(t, s)
  {
    if ui != [] {
      LiveIsQueued(ui[1..], s, t);
      assert t in ui <==> t == ui[0] || t in ui[1..];
    }
  }

  // ---------------------------------------------------------------- the invariant holds in every run

  /** Dispatch is only reached after the reset of the current service; it establishes Settled. */
  ghost predicate Dispatchable(h: Host) {
    Basics(h) && (Idle(h) || Delivering(h) || Answered(h, true) || Answered(h, false) || Rejected(h))
  }

  lemma PostOk(h: Host, p: Publication, post: Common.Post)
    requires Basics(h) && h.running && h.installed && !h.inFlight && !h.retryPending && h.bridge.transaction.Some?
    requires var t := h.bridge.transaction.value; t.inFlight && p == Publication(t.generation, t.changes)
    requires LiveUi(h.ui, h.service) == [] && LivePlatform(h.platform, h.service) == []
    requires h.model == MapOf(h.bridge.acked)
    ensures HostOk(Post(h, p, h.service, post))
  {
    if post.Accepted? {
      LivePlatformSnoc(h.platform, ApplyTask(p, h.service), h.service);
      var h' := Post(h, p, h.service, post);
      assert Delivering(h');
    }
  }

  lemma NothingToDeliver(acked: seq<Entry>, next: seq<Entry>)
    requires IsFlattening(acked) && IsFlattening(next)
    ensures Diff(acked, next) == [] <==> acked == next
  {
    var f :| Flattened(f) == acked && Acceptable(acked);
    var g :| Flattened(g) == next && Acceptable(next);
    EmptyIffSame(f, g);
  }

  lemma DispatchOk(h: Host, post: Common.Post)
    requires h.running && Dispatchable(h)
    ensures HostOk(Dispatch(h, post))
  {
    if Idle(h) && h.installed && h.desired.Some? {
      var next := Flattened(h.desired.value);
      assert IsFlattening(next);
      NothingToDeliver(h.bridge.acked, next);
      var r := PrepareResult(h.bridge, next);
      if r.Ready? {
        PostOk(h.(bridge := PrepareState(h.bridge, next)), r.publication, post);
      }
    }
  }

  lemma RetryOk(h: Host, service: nat, post: Common.Post)
    requires HostOk(h)
    ensures HostOk(RetryOnUi(h, service, post))
  {
    if h.running && Rejected(h) && h.service == service {
      var r := RetryResult(h.bridge);
      if r.Ready? {
        PostOk(h.(bridge := RetryState(h.bridge), retryPending := false), r.publication, post);
      }
    } else if h.running && h.inFlight && h.installed && h.service == service && h.publicationService == service {
      var h' := RetryOnUi(h, service, post);
      assert Delivering(h) ==> Delivering(h');
      assert Answered(h, true) ==> Answered(h', true);
      assert Answered(h, false) ==> Answered(h', false);
    }
  }

  lemma PublishOk(h: Host, tree: seq<SemanticsNode>, post: Common.Post)
    requires HostOk(h)
    ensures HostOk(PublishSemantics(h, tree, post))
  {
    if h.running && Acceptable(Flattened(tree)) && post.Accepted? {
      var t := PublishTask(h.service, tree);
      var h' := PublishSemantics(h, tree, post);
      LiveUiSnoc(h.ui, t, h.service);
      CoveredSnoc(h.ui, t, h.service);
      EventuallySnoc(h.ui, t, h.desired);
      forall x | x in h'.ui ensures x in h.ui || x == t {}
      assert Basics(h');
    }
  }

  lemma RetryRequestOk(h: Host, post: Common.Post)
    requires HostOk(h)
    ensures HostOk(RetrySemantics(h, post))
  {
    if h.running {
      var t := RetryTask(h.service);
      LiveUiSnoc(h.ui, t, h.service);
      CoveredSnoc(h.ui, t, h.service);
      EventuallySnoc(h.ui, t, h.desired);
    }
  }

  lemma InstallOk(h: Host, present: bool, post: Common.Post)
    requires HostOk(h)
    ensures HostOk(SetAdapter(h, present, post))
  {
    if h.running && h.service != MAX_U64 && post.Accepted? { InstallAccepted(h, present); }
  }

  lemma InstallAccepted(h: Host, present: bool)
    requires Basics(h) && h.running && h.service != MAX_U64
    ensures var v := SetAdapter(h, present, Common.Post.Accepted); Basics(v) && Unsynced(v)
  {
    var s := h.service + 1;
    NothingLive(h.ui, h.platform, s);
    LiveUiSnoc(h.ui, ResetTask(s), s);
    CoveredByReset(h.ui, s);
    EventuallySnoc(h.ui, ResetTask(s), h.desired);
  }

  lemma BasicsDropped(h: Host)
    requires Basics(h) && h.ui != [] && !h.ui[0].PublishTask?
    ensures Basics(h.(ui := h.ui[1..]))
  {
    forall t | t in h.ui[1..] ensures t in h.ui {}
  }

  lemma SameAnswers(h: Host, h1: Host)
    requires Phase(h) && h1 == h.(ui := h1.ui) && LiveUi(h1.ui, h.service) == LiveUi(h.ui, h.service)
    ensures Phase(h1)
  {
  }

  /** Taking a task that is not live off the UI queue leaves the phase alone. */
  lemma DropUi(h: Host)
    requires h.running && Basics(h) && Phase(h) && h.ui != [] && !h.ui[0].PublishTask?
    ensures var h1 := h.(ui := h.ui[1..]);
            Basics(h1) && (!IsLive(h.ui[0], h.service) ==> Phase(h1))
  {
    BasicsDropped(h);
    if !IsLive(h.ui[0], h.service) { SameAnswers(h, h.(ui := h.ui[1..])); }
  }

  lemma DropPublish(h: Host)
    requires Basics(h) && h.ui != [] && h.ui[0].PublishTask?
    ensures Basics(h.(ui := h.ui[1..], desired := Some(h.ui[0].tree)))
    ensures LiveUi(h.ui[1..], h.service) == LiveUi(h.ui, h.service)
    ensures h.ui[0].service == h.service <==>
            LiveUi(h.ui, h.service) != [ResetTask(h.service)] && ResetTask(h.service) !in h.ui[1..]
  {
    assert h.ui[0] in h.ui;
    forall t | t in h.ui[1..] ensures t in h.ui {}
    LiveIsQueued(h.ui[1..], h.service, ResetTask(h.service));
    assert LiveUi(h.ui[1..], h.service) == LiveUi(h.ui, h.service);
  }

  lemma SamePhase(h: Host, h1: Host)
    requires Phase(h) && LiveUi(h1.ui, h.service) == LiveUi(h.ui, h.service)
    requires h1 == h.(ui := h1.ui, desired := h1.desired)
    ensures Unsynced(h) ==> Unsynced(h1)
    ensures !Unsynced(h) ==>
              Idle(h1) || Delivering(h1) || Answered(h1, true) || Answered(h1, false) || Rejected(h1)
  {
  }

  /** The state in which the front of the UI queue dispatches the desired tree, if it does. */
  function DispatchPoint(h: Host): Option<Host> {
    if !h.running || h.ui == [] then None
    else
      var t, h1 := h.ui[0], h.(ui := h.ui[1..]);
      if t.service != h.service then None
      else match t
        case PublishTask(_, tree) => Some(h1.(desired := Some(tree)))
        case AnswerTask(service, generation, true) =>
          if !h.inFlight || h.publication != generation || h.publicationService != service then None
          else Some(Record(h1, generation, true))
        case ResetTask(_) =>
          Some(h1.(bridge := ResetState(h.bridge), inFlight := false, retryPending := false, retryRequested := false,
                   publication := 0, publicationService := 0))
        case _ => None
  }

  lemma PublishPoint(h: Host)
    requires h.running && Basics(h) && Phase(h) && h.ui != [] && h.ui[0].PublishTask?
    ensures var h1 := h.(ui := h.ui[1..], desired := Some(h.ui[0].tree));
            if h.ui[0].service == h.service then Dispatchable(h1) else Basics(h1) && Unsynced(h1)
  {
    var h1 := h.(ui := h.ui[1..], desired := Some(h.ui[0].tree));
    DropPublish(h);
    SamePhase(h, h1);
    LiveIsQueued(h.ui[1..], h.service, ResetTask(h.service));
    if h.ui[0].service == h.service { assert !Unsynced(h); } else { assert Unsynced(h); }
  }

  /** An answer of the current service at the front is the one the publication in flight waits for. */
  lemma AnswerFront(h: Host)
    requires Phase(h) && h.ui != [] && h.ui[0].AnswerTask? && h.ui[0].service == h.service
    ensures Answered(h, h.ui[0].success) && h.ui[0].generation == h.publication && LiveUi(h.ui[1..], h.service) == []
  {
    var t := h.ui[0];
    assert LiveUi(h.ui, h.service) == [t] + LiveUi(h.ui[1..], h.service);
    assert LiveUi(h.ui, h.service)[0] == t;
  }

  lemma AnswerPoint(h: Host)
    requires h.running && Basics(h) && Phase(h) && h.ui != [] && h.ui[0].AnswerTask? && h.ui[0].service == h.service
    ensures var t := h.ui[0];
            && Answered(h, t.success) && t.generation == h.publication
            && if t.success then Dispatchable(Record(h.(ui := h.ui[1..]), t.generation, true))
               else HostOk(Record(h.(ui := h.ui[1..]), t.generation, false))
  {
    var t := h.ui[0];
    DropUi(h);
    AnswerFront(h);
    var next := Record(h.(ui := h.ui[1..]), t.generation, t.success);
    if t.success { assert Idle(next); } else { assert Rejected(next); }
  }

  /** A reset at the front is the only live task: nothing else of the new service is under way. */
  lemma ResetFront(h: Host)
    requires Phase(h) && h.ui != [] && h.ui[0] == ResetTask(h.service)
    ensures Unsynced(h) && LiveUi(h.ui[1..], h.service) == []
  {
    assert LiveUi(h.ui, h.service) == [ResetTask(h.service)] + LiveUi(h.ui[1..], h.service);
    assert LiveUi(h.ui, h.service)[0] == ResetTask(h.service);
  }

  lemma ResetPoint(h: Host)
    requires h.running && Basics(h) && Phase(h) && h.ui != [] && h.ui[0] == ResetTask(h.service)
    ensures Dispatchable(DispatchPoint(h).value)
  {
    DropUi(h);
    ResetFront(h);
    assert IsFlattening([]) by { assert Flattened([]) == []; }
    assert Idle(DispatchPoint(h).value);
  }

  /** Wherever the desired tree is dispatched the host is in one of the regular phases. */
  lemma PointOk(h: Host, post: Common.Post)
    requires HostOk(h) && DispatchPoint(h).Some?
    ensures Dispatchable(DispatchPoint(h).value) && RunUi(h, post) == Dispatch(DispatchPoint(h).value, post)
  {
    match h.ui[0]
    case PublishTask(_, _) => PublishPoint(h);
    case AnswerTask(_, _, _) => AnswerPoint(h);
    case ResetTask(_) => ResetPoint(h);
    case _ =>
  }

  lemma UiPublishOk(h: Host, post: Common.Post)
    requires h.running && Basics(h) && Phase(h) && h.ui != [] && h.ui[0].PublishTask?
    ensures HostOk(RunUi(h, post))
  {
    PublishPoint(h);
    if h.ui[0].service == h.service { DispatchOk(h.(ui := h.ui[1..], desired := Some(h.ui[0].tree)), post); }
  }

  lemma UiAnswerOk(h: Host, post: Common.Post)
    requires h.running && Basics(h) && Phase(h) && h.ui != [] && h.ui[0].AnswerTask?
    ensures HostOk(RunUi(h, post))
  {
    var t, h1 := h.ui[0], h.(ui := h.ui[1..]);
    if t.service != h.service {
      DropUi(h);
    } else {
      AnswerPoint(h);
      var next := Record(h1, t.generation, t.success);
      if t.success { DispatchOk(next, post); } else { RetryOk(next, t.service, post); }
    }
  }

  lemma UiResetOk(h: Host, post: Common.Post)
    requires h.running && Basics(h) && Phase(h) && h.ui != [] && h.ui[0].ResetTask?
    ensures HostOk(RunUi(h, post))
  {
    if h.ui[0].service == h.service {
      ResetPoint(h);
      DispatchOk(DispatchPoint(h).value, post);
    } else {
      DropUi(h);
    }
  }

  lemma RunUiOk(h: Host, post: Common.Post)
    requires HostOk(h)
    ensures HostOk(RunUi(h, post))
  {
    if h.running && h.ui != [] {
      match h.ui[0]
      case PublishTask(_, _) => UiPublishOk(h, post);
      case AnswerTask(_, _, _) => UiAnswerOk(h, post);
      case RetryTask(service) => DropUi(h); RetryOk(h.(ui := h.ui[1..]), service, post);
      case ResetTask(_) => UiResetOk(h, post);
    }
  }

  /** A delivery that reaches the adapter gives the candidate, and is refused only for invalid bounds in it. */
  lemma DeliveryAccepted(h: Host)
    requires HostOk(h) && h.platform != [] && Delivers(h, h.platform[0])
    ensures Delivering(h)
    ensures Accepts(h.model, h.platform[0].publication.changes) <==> AllBoundsOk(h.bridge.transaction.value.candidate)
    ensures ApplyAll(h.model, h.platform[0].publication.changes) == Some(MapOf(h.bridge.transaction.value.candidate))
  {
    var t := h.platform[0];
    assert t in LivePlatform(h.platform, h.service);
    assert Delivering(h);
    var f :| Flattened(f) == h.bridge.acked && Acceptable(h.bridge.acked);
    var g :| Flattened(g) == h.bridge.transaction.value.candidate && Acceptable(h.bridge.transaction.value.candidate);
    BatchAccepted(f, g);
  }

  lemma RunPlatformOk(h: Host, healthy: bool, post: Common.Post)
    requires HostOk(h)
    ensures HostOk(RunPlatform(h, healthy, post))
  {
    if h.running && h.platform != [] {
      if Delivers(h, h.platform[0]) { DeliverOk(h, healthy, post); } else { SkipOk(h, healthy, post); }
    }
  }

  /** Taking the front delivery and queueing its answer keeps what holds of every task. */
  lemma AnswerQueued(h: Host, answer: UiTask, model: Model)
    requires Basics(h) && h.platform != [] && answer.AnswerTask? && answer.service == h.service
    ensures Basics(h.(platform := h.platform[1..], ui := h.ui + [answer], model := model))
    ensures LiveUi(h.ui + [answer], h.service) == LiveUi(h.ui, h.service) + [answer]
  {
    forall x | x in h.platform[1..] ensures x in h.platform {}
    LiveUiSnoc(h.ui, answer, h.service);
    CoveredSnoc(h.ui, answer, h.service);
    EventuallySnoc(h.ui, answer, h.desired);
  }

  lemma PlatformHead(q: seq<ApplyTask>, s: nat)
    requires q != [] && q[0].service == s
    ensures LivePlatform(q[1..], s) == LivePlatform(q, s)[1..]
  {
  }

  lemma DeliverOk(h: Host, healthy: bool, post: Common.Post)
    requires HostOk(h) && h.running && h.platform != [] && Delivers(h, h.platform[0])
    ensures HostOk(RunPlatform(h, healthy, post))
  {
    var changes := h.platform[0].publication.changes;
    var success := healthy && Accepts(h.model, changes);
    DeliveryAccepted(h);
    AnswerQueued(h, AnswerTask(h.service, h.publication, success), if success then ApplyAll(h.model, changes).value
                 else h.model);
    PlatformHead(h.platform, h.service);
    if post.Accepted? { assert Answered(RunPlatform(h, healthy, post), success); }
  }

  lemma HeadLive(q: seq<ApplyTask>, s: nat)
    requires q != []
    ensures q[0].service == s ==> q[0] in LivePlatform(q, s)
  {
  }

  lemma NotDelivered(h: Host)
    requires h.running && Phase(h) && h.platform != [] && !Delivers(h, h.platform[0])
    ensures h.platform[0].service != h.service
  {
    HeadLive(h.platform, h.service);
  }

  lemma SameDeliveries(h: Host, h1: Host)
    requires Phase(h) && h1 == h.(platform := h1.platform)
    requires LivePlatform(h1.platform, h.service) == LivePlatform(h.platform, h.service)
    ensures Phase(h1)
  {
  }

  lemma SkipOk(h: Host, healthy: bool, post: Common.Post)
    requires HostOk(h) && h.running && h.platform != [] && !Delivers(h, h.platform[0])
    ensures HostOk(RunPlatform(h, healthy, post))
  {
    var h1 := h.(platform := h.platform[1..]);
    forall x | x in h1.platform ensures x in h.platform {}
    NotDelivered(h);
    assert LivePlatform(h1.platform, h.service) == LivePlatform(h.platform, h.service);
    SameDeliveries(h, h1);
  }

  lemma StepOk(h: Host, e: Event)
    requires HostOk(h)
    ensures HostOk(Step(h, e))
  {
    match e
    case Publish(tree, post) => PublishOk(h, tree, post);
    case Retry(post) => RetryRequestOk(h, post);
    case Install(present, post) => InstallOk(h, present, post);
    case UiStep(post) => RunUiOk(h, post);
    case PlatformStep(healthy, post) => RunPlatformOk(h, healthy, post);
    case Shutdown =>
  }

  lemma {:induction false} RunOk(events: seq<Event>)
    ensures HostOk(Run(events))
  {
    if events == [] {
      assert Flattened([]) == [] && IsFlattening([]);
      assert Idle(INITIAL);
    } else {
      RunOk(events[..|events| - 1]);
      StepOk(Run(events[..|events| - 1]), events[|events| - 1]);
    }
  }

  // ---------------------------------------------------------------- what every run guarantees

  /**
   Agreement: once the reset of the current adapter has run, its model is the acknowledged
   one, or the candidate of the transaction whose success is still on its way back.
   */
  lemma Agreement(events: seq<Event>)
    requires Run(events).running && Synced(Run(events))
    ensures var h := Run(events);
            || h.model == MapOf(h.bridge.acked)
            || (h.inFlight && AnswerTask(h.service, h.publication, true) in h.ui
                && Current(h.bridge, h.publication) && h.model == MapOf(h.bridge.transaction.value.candidate))
  {
    var h := Run(events);
    RunOk(events);
    LiveIsQueued(h.ui, h.service, ResetTask(h.service));
    LiveIsQueued(h.ui, h.service, AnswerTask(h.service, h.publication, true));
  }

  /** Before that reset a freshly installed adapter is empty and nothing can reach it. */
  lemma EmptyUntilReset(events: seq<Event>)
    requires Run(events).running && !Synced(Run(events))
    ensures Run(events).model == map[] && !Run(events).inFlight
    ensures forall t | t in Run(events).platform :: !Delivers(Run(events), t)
  {
    var h := Run(events);
    RunOk(events);
    LiveIsQueued(h.ui, h.service, ResetTask(h.service));
    assert Unsynced(h);
  }

  /**
   Convergence: with both queues empty, an adapter installed and no rejected batch waiting,
   the adapter holds exactly the flattening of the last published tree.
   */
  lemma Convergence(events: seq<Event>)
    requires var h := Run(events);
             h.running && h.ui == [] && h.platform == [] && h.installed && !h.retryPending
    ensures Run(events).model == MapOf(Target(Run(events).published))
    ensures Run(events).bridge.acked == Target(Run(events).published)
  {
    var h := Run(events);
    RunOk(events);
    assert Idle(h) && Settled(h);
  }

  lemma DispatchStops(h: Host, post: Common.Post)
    requires h.running && Dispatchable(h) && !Dispatch(h, post).running
    ensures post.Refused? || h.bridge.nextGeneration == MAX_U64
  {
  }

  lemma RetryStops(h: Host, service: nat, post: Common.Post)
    requires h.running && !RetryOnUi(h, service, post).running
    ensures post.Refused? || h.bridge.nextGeneration == MAX_U64
  {
  }

  lemma UiStops(h: Host, post: Common.Post)
    requires HostOk(h) && h.running && !RunUi(h, post).running
    ensures post.Refused? || h.bridge.nextGeneration == MAX_U64
  {
    if DispatchPoint(h).Some? {
      PointOk(h, post);
      DispatchStops(DispatchPoint(h).value, post);
      PointCounts(h);
    } else {
      RetryPointStops(h, post);
    }
  }

  lemma PointCounts(h: Host)
    requires DispatchPoint(h).Some?
    ensures DispatchPoint(h).value.bridge.nextGeneration == h.bridge.nextGeneration && DispatchPoint(h).value.running
  {
  }

  lemma RetryPointStops(h: Host, post: Common.Post)
    requires h.running && h.ui != [] && DispatchPoint(h).None? && !RunUi(h, post).running
    ensures post.Refused? || h.bridge.nextGeneration == MAX_U64
  {
    var t, h1 := h.ui[0], h.(ui := h.ui[1..]);
    match t
    case RetryTask(service) => RetryStops(h1, service, post);
    case AnswerTask(service, generation, success) => RetryStops(Record(h1, generation, success), service, post);
    case _ =>
  }

  predicate Asks(h: Host) {
    h.running && !h.inFlight && !h.retryPending && h.installed && h.desired.Some?
  }

  /** In no run does dispatching the desired tree find a transaction open: prepare is never refused as busy. */
  lemma PrepareNeverBusy(events: seq<Event>)
    requires DispatchPoint(Run(events)).Some? && Asks(DispatchPoint(Run(events)).value)
    ensures var p := DispatchPoint(Run(events)).value; !PrepareResult(p.bridge, Flattened(p.desired.value)).Busy?
  {
    RunOk(events);
    PointOk(Run(events), Common.Post.Accepted);
    NoTransaction(DispatchPoint(Run(events)).value);
  }

  lemma NoTransaction(h: Host)
    requires Dispatchable(h) && Asks(h)
    ensures h.bridge.transaction.None?
  {
  }

  /** Only these events stop a running host. */
  lemma OnlyStops(events: seq<Event>, e: Event)
    requires Run(events).running && !Step(Run(events), e).running
    ensures var h := Run(events);
            || e.Shutdown?
            || (!e.Shutdown? && e.post.Refused?)
            || h.bridge.nextGeneration == MAX_U64 || h.service == MAX_U64
  {
    RunOk(events);
    if e.UiStep? { UiStops(Run(events), e.post); }
  }
}
