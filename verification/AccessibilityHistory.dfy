/**
 What the state of publication says about the events before it (src/host.cpp): which tree was published last,
 and whether a retry was asked for while the delivery under way was in flight.
 */
module AccessibilityHistory {
  import opened Common
  import opened Semantics
  import opened SemanticsDiff
  import opened SemanticsOrder
  import opened SemanticsDiffer
  import opened AccessibilityProtocol
  import P = AccessibilityProtocol

  // ---------------------------------------------------------------- the last tree and the last adapter

  /** The last tree that was accepted for publication. */
  ghost function LastTree(events: seq<Event>): Option<seq<SemanticsNode>> {
    if events == [] then None
    else
      match events[|events| - 1]
      case Publish(tree, _) =>
        if Acceptable(Flattened(tree)) then Some(tree) else LastTree(events[..|events| - 1])
      case _ => LastTree(events[..|events| - 1])
  }

  function LastInstall(events: seq<Event>): bool {
    if events == [] then false
    else
      match events[|events| - 1]
      case Install(present, _) => present
      case _ => LastInstall(events[..|events| - 1])
  }

  /** Neither what was published nor which adapter is installed changes. */
  predicate SameInputs(h: Host, v: Host) {
    v.published == h.published && v.installed == h.installed && (v.running ==> h.running)
  }

  lemma PostInputs(h: Host, p: Publication, service: nat, post: Common.Post)
    ensures SameInputs(h, P.Post(h, p, service, post))
  {
  }

  lemma DispatchInputs(h: Host, post: Common.Post)
    ensures SameInputs(h, Dispatch(h, post))
  {
  }

  lemma RetryInputs(h: Host, service: nat, post: Common.Post)
    ensures SameInputs(h, RetryOnUi(h, service, post))
  {
  }

  lemma UiInputs(h: Host, post: Common.Post)
    requires h.ui != []
    ensures SameInputs(h, RunUi(h, post))
  {
    var h1 := h.(ui := h.ui[1..]);
    match h.ui[0]
    case PublishTask(_, tree) => DispatchInputs(h1.(desired := Some(tree)), post);
    case AnswerTask(service, generation, success) =>
      DispatchInputs(Record(h1, generation, success), post);
      RetryInputs(Record(h1, generation, success), service, post);
    case RetryTask(service) => RetryInputs(h1, service, post);
    case ResetTask(_) =>
      DispatchInputs(h1.(bridge := ResetState(h.bridge), inFlight := false, retryPending := false,
                         retryRequested := false, publication := 0, publicationService := 0), post);
  }

  lemma PlatformInputs(h: Host, healthy: bool, post: Common.Post)
    ensures SameInputs(h, RunPlatform(h, healthy, post))
  {
  }

  lemma StepInputs(h: Host, e: Event)
    ensures var v := Step(h, e);
            v.running ==>
              && h.running
              && v.published == (if e.Publish? && Acceptable(Flattened(e.tree)) then Some(e.tree) else h.published)
              && v.installed == (if e.Install? then e.present else h.installed)
  {
    match e
    case UiStep(post) => if h.ui != [] { UiInputs(h, post); }
    case PlatformStep(healthy, post) => PlatformInputs(h, healthy, post);
    case _ =>
  }

  /** A running host remembers the last tree and the last adapter it was given. */
  lemma {:induction false} InputsRemembered(events: seq<Event>)
    requires Run(events).running
    ensures Run(events).published == LastTree(events) && Run(events).installed == LastInstall(events)
  {
    if events != [] {
      var front, e := events[..|events| - 1], events[|events| - 1];
      StepInputs(Run(front), e);
      InputsRemembered(front);
    }
  }

  /** At rest, with no rejected batch, an adapter that was installed last holds the tree that was published last. */
  lemma HoldsLastTree(events: seq<Event>)
    requires var h := Run(events); h.running && h.ui == [] && h.platform == [] && !h.retryPending
    requires LastInstall(events)
    ensures Run(events).model == MapOf(Target(LastTree(events)))
  {
    InputsRemembered(events);
    Convergence(events);
  }

  // ---------------------------------------------------------------- asking for a retry

  /** The front of the UI queue is a retry of the current service, taken while a delivery is in flight. */
  predicate TakesRetry(h: Host, e: Event) {
    e.UiStep? && h.running && h.inFlight && h.ui != [] && h.ui[0] == RetryTask(h.service)
  }

  /** Both are in flight with the same delivery. */
  predicate SameDelivery(h: Host, v: Host) {
    h.inFlight && v.inFlight && h.publication == v.publication && h.service == v.service
  }

  /** Generations of deliveries have been handed out, and a retry is remembered only while one is in flight. */
  predicate Asking(h: Host) {
    h.publication < h.bridge.nextGeneration && (h.running && h.retryRequested ==> h.inFlight)
  }

  /** From `h` to `v` the delivery under way has not changed, or a new one has begun that nobody asked to retry. */
  predicate Follows(h: Host, v: Host, asked: bool) {
    v.running && v.inFlight ==>
      if SameDelivery(h, v) then
        h.running && v.bridge.transaction == h.bridge.transaction && (v.retryRequested <==> h.retryRequested || asked)
      else
        !v.retryRequested && (v.service == h.service ==> v.publication >= h.bridge.nextGeneration)
  }

  predicate Onward(h: Host, v: Host, asked: bool) {
    Asking(v) && Follows(h, v, asked) && v.bridge.nextGeneration >= h.bridge.nextGeneration
    && (v.running ==> h.running) && v.service >= h.service
  }

  /** From where nothing is in flight, a new delivery has a new generation. */
  lemma PostOnward(h: Host, p: Publication, post: Common.Post)
    requires Asking(h) && !h.inFlight && h.running && p.generation + 1 == h.bridge.nextGeneration
    ensures var v := P.Post(h, p, h.service, post);
            && Asking(v) && v.bridge.nextGeneration == h.bridge.nextGeneration && v.service == h.service
            && (v.running && v.inFlight ==> !v.retryRequested && v.publication == p.generation)
  {
  }

  /** Nothing is in flight in `h`; from there to `v` nothing has begun but with a fresh generation. */
  predicate Begins(h: Host, v: Host) {
    && Asking(v) && v.bridge.nextGeneration >= h.bridge.nextGeneration && (v.running ==> h.running)
    && v.service == h.service
    && (v.running && v.inFlight ==> !v.retryRequested && v.publication >= h.bridge.nextGeneration)
  }

  lemma DispatchBegins(h: Host, post: Common.Post)
    requires Asking(h) && !h.inFlight
    ensures Begins(h, Dispatch(h, post))
  {
    if h.running && !h.retryPending && h.installed && h.desired.Some? {
      var next := Flattened(h.desired.value);
      var r := PrepareResult(h.bridge, next);
      if r.Ready? { PostOnward(h.(bridge := PrepareState(h.bridge, next)), r.publication, post); }
    }
  }

  lemma RetryBegins(h: Host, service: nat, post: Common.Post)
    requires Asking(h) && !h.inFlight
    ensures Begins(h, RetryOnUi(h, service, post))
  {
    if h.running && h.installed && h.service == service && h.publicationService == service && h.retryPending {
      var r := RetryResult(h.bridge);
      if r.Ready? {
        PostOnward(h.(bridge := RetryState(h.bridge), retryPending := false), r.publication, post);
      }
    }
  }

  lemma BeginsOnward(h: Host, h1: Host, v: Host, asked: bool)
    requires Begins(h1, v) && Asking(h) && !h1.inFlight && (h1.running ==> h.running) && h1.service == h.service
    requires h1.bridge.nextGeneration == h.bridge.nextGeneration && !asked
    ensures Onward(h, v, asked)
  {
  }

  lemma UnchangedOnward(h: Host, v: Host)
    requires Asking(h) && v == h.(ui := v.ui, desired := v.desired)
    ensures Onward(h, v, false)
  {
  }

  lemma PublishOnward(h: Host, post: Common.Post)
    requires Asking(h) && h.ui != [] && h.ui[0].PublishTask?
    ensures Onward(h, RunUi(h, post), false)
  {
    var h1 := h.(ui := h.ui[1..], desired := Some(h.ui[0].tree));
    if !h.inFlight {
      DispatchBegins(h1, post);
      BeginsOnward(h, h1, Dispatch(h1, post), false);
    } else {
      UnchangedOnward(h, h1);
    }
  }

  lemma AnswerOnward(h: Host, post: Common.Post)
    requires Asking(h) && h.ui != [] && h.ui[0].AnswerTask?
    ensures Onward(h, RunUi(h, post), false)
  {
    var t, h1 := h.ui[0], h.(ui := h.ui[1..]);
    if !h.running || !h.inFlight || h.service != t.service || h.publication != t.generation
       || h.publicationService != t.service {
      UnchangedOnward(h, h1);
    } else {
      var next := Record(h1, t.generation, t.success);
      DispatchBegins(next, post);
      RetryBegins(next, t.service, post);
      BeginsOnward(h, next, Dispatch(next, post), false);
      BeginsOnward(h, next, RetryOnUi(next, t.service, post), false);
      // When nobody asked, the answer is recorded and nothing begins.
      assert Begins(next, next);
      BeginsOnward(h, next, next, false);
    }
  }

  lemma RetryOnward(h: Host, post: Common.Post)
    requires HostOk(h) && Asking(h) && h.ui != [] && h.ui[0].RetryTask?
    ensures Onward(h, RunUi(h, post), TakesRetry(h, UiStep(post)))
  {
    var service, h1 := h.ui[0].service, h.(ui := h.ui[1..]);
    if h.running && h.inFlight {
      assert h.installed && h.publicationService == h.service;
    } else if !h.running {
      UnchangedOnward(h, h1);
    } else {
      RetryBegins(h1, service, post);
      BeginsOnward(h, h1, RetryOnUi(h1, service, post), false);
    }
  }

  lemma ResetOnward(h: Host, post: Common.Post)
    requires Asking(h) && h.ui != [] && h.ui[0].ResetTask?
    ensures Onward(h, RunUi(h, post), false)
  {
    var h1 := h.(ui := h.ui[1..]);
    if !h.running || h.service != h.ui[0].service {
      UnchangedOnward(h, h1);
    } else {
      var next := h1.(bridge := ResetState(h.bridge), inFlight := false, retryPending := false,
                      retryRequested := false, publication := 0, publicationService := 0);
      DispatchBegins(next, post);
      BeginsOnward(h, next, Dispatch(next, post), false);
    }
  }

  lemma UiOnward(h: Host, post: Common.Post)
    requires HostOk(h) && Asking(h) && h.ui != []
    ensures Onward(h, RunUi(h, post), TakesRetry(h, UiStep(post)))
  {
    match h.ui[0]
    case PublishTask(_, _) => PublishOnward(h, post);
    case AnswerTask(_, _, _) => AnswerOnward(h, post);
    case RetryTask(_) => RetryOnward(h, post);
    case ResetTask(_) => ResetOnward(h, post);
  }

  lemma InstallOnward(h: Host, present: bool, post: Common.Post)
    requires Asking(h) && 0 < h.bridge.nextGeneration
    ensures Onward(h, SetAdapter(h, present, post), false)
  {
  }

  lemma PlatformOnward(h: Host, healthy: bool, post: Common.Post)
    requires Asking(h)
    ensures Onward(h, RunPlatform(h, healthy, post), false)
  {
  }

  lemma RequestOnward(h: Host, e: Event)
    requires Asking(h) && (e.Publish? || e.Retry? || e.Shutdown?)
    ensures Onward(h, Step(h, e), false)
  {
  }

  lemma StepOnward(h: Host, e: Event)
    requires HostOk(h) && Asking(h)
    ensures Onward(h, Step(h, e), TakesRetry(h, e))
  {
    match e
    case UiStep(post) => if h.ui != [] { UiOnward(h, post); }
    case Install(present, post) => InstallOnward(h, present, post);
    case PlatformStep(healthy, post) => PlatformOnward(h, healthy, post);
    case _ => RequestOnward(h, e);
  }

  // ---------------------------------------------------------------- what is remembered

  lemma {:induction false} AskingRun(events: seq<Event>)
    ensures HostOk(Run(events)) && Asking(Run(events))
  {
    RunOk(events);
    if events != [] {
      var front := events[..|events| - 1];
      AskingRun(front);
      StepOnward(Run(front), events[|events| - 1]);
    }
  }

  /** Event number `i` took a retry while the delivery that is now in flight was already in flight. */
  ghost predicate AskedAt(events: seq<Event>, i: nat) {
    && i < |events| && TakesRetry(Run(events[..i]), events[i])
    && SameDelivery(Run(events[..i]), Run(events))
  }

  ghost predicate Asked(events: seq<Event>) {
    exists i: nat :: AskedAt(events, i)
  }

  /** Earlier deliveries have smaller generations. */
  lemma {:induction false} EarlierGeneration(events: seq<Event>, i: nat)
    requires i <= |events|
    ensures Run(events[..i]).publication < Run(events).bridge.nextGeneration
    ensures Run(events[..i]).bridge.nextGeneration <= Run(events).bridge.nextGeneration
    ensures Run(events[..i]).service <= Run(events).service
  {
    AskingRun(events[..i]);
    if i == |events| {
      assert events[..i] == events;
    } else {
      var front := events[..|events| - 1];
      assert front[..i] == events[..i];
      EarlierGeneration(front, i);
      AskingRun(front);
      StepOnward(Run(front), events[|events| - 1]);
    }
  }

  lemma AskedNext(events: seq<Event>, e: Event)
    requires var h, v := Run(events), Run(events + [e]); v.running && v.inFlight
    ensures Run(events + [e]) == Step(Run(events), e)
    ensures SameDelivery(Run(events), Run(events + [e])) ==>
              (Asked(events + [e]) <==> Asked(events) || TakesRetry(Run(events), e))
    ensures !SameDelivery(Run(events), Run(events + [e])) ==> !Asked(events + [e])
  {
    var longer := events + [e];
    var h, v := Run(events), Run(longer);
    assert longer[..|events|] == events;
    AskingRun(events);
    StepOnward(h, e);
    forall i: nat | i < |events|
      ensures SameDelivery(h, v) ==> (AskedAt(longer, i) <==> AskedAt(events, i))
      ensures !SameDelivery(h, v) ==> !AskedAt(longer, i)
    {
      assert longer[..i] == events[..i] && longer[i] == events[i];
      EarlierGeneration(events, i);
    }
    assert SameDelivery(h, v) ==> (AskedAt(longer, |events|) <==> TakesRetry(h, e));
  }

  /** A retry is remembered exactly when it was taken during the delivery in flight. */
  lemma {:induction false} RememberedExactly(events: seq<Event>)
    requires Run(events).running && Run(events).inFlight
    ensures Run(events).retryRequested <==> Asked(events)
  {
    if events != [] {
      var front, e := events[..|events| - 1], events[|events| - 1];
      assert front + [e] == events;
      AskedNext(front, e);
      AskingRun(front);
      StepOnward(Run(front), e);
      if SameDelivery(Run(front), Run(events)) { RememberedExactly(front); }
    }
  }

  // ---------------------------------------------------------------- what a retry does

  /** The batch of the open transaction is on its way once more, under a fresh generation. */
  predicate Redelivers(h: Host, v: Host) {
    && h.bridge.transaction.Some?
    && v.running && v.inFlight && !v.retryPending && !v.retryRequested && v.publication == h.bridge.nextGeneration
    && v.platform
       == h.platform + [ApplyTask(Publication(h.bridge.nextGeneration, h.bridge.transaction.value.changes), h.service)]
  }

  /** The batch waits for a retry. */
  predicate Waits(h: Host, v: Host) {
    v.running && !v.inFlight && v.retryPending && v.platform == h.platform
  }

  lemma RedeliversNow(h: Host, service: nat)
    requires h.running && h.installed && h.service == service && h.publicationService == service && h.retryPending
    requires !h.inFlight && !h.retryRequested && h.bridge.nextGeneration < MAX_U64
    requires h.bridge.transaction.Some? && !h.bridge.transaction.value.inFlight
    ensures Redelivers(h, RetryOnUi(h, service, Accepted))
  {
  }

  /**
   When a delivery fails its batch is delivered again at once, under a fresh generation, exactly if a retry was
   taken while it was in flight; otherwise it waits for one.
   */
  lemma FailureRedelivers(events: seq<Event>)
    requires var h := Run(events);
             && h.running && h.bridge.nextGeneration < MAX_U64 && h.ui != []
             && h.ui[0] == AnswerTask(h.service, h.publication, false)
    ensures var h, v := Run(events), Run(events + [UiStep(Accepted)]);
            && h.inFlight && Current(h.bridge, h.publication)
            && if Asked(events) then Redelivers(h, v) else Waits(h, v)
  {
    var h := Run(events);
    assert (events + [UiStep(Accepted)])[..|events|] == events;
    AskingRun(events);
    AnswerPoint(h);
    RememberedExactly(events);
    var next := Record(h.(ui := h.ui[1..]), h.publication, false);
    if Asked(events) { RedeliversNow(next, h.service); }
  }

  /** A retry taken while the batch waits delivers it again. */
  lemma RetryRedelivers(events: seq<Event>)
    requires var h := Run(events);
             && h.running && h.bridge.nextGeneration < MAX_U64 && h.retryPending && h.ui != []
             && h.ui[0] == RetryTask(h.service)
    ensures Redelivers(Run(events), Run(events + [UiStep(Accepted)]))
  {
    var h := Run(events);
    assert (events + [UiStep(Accepted)])[..|events|] == events;
    AskingRun(events);
    assert Rejected(h);
    RedeliversNow(h.(ui := h.ui[1..]), h.service);
  }

  /** A retry is queued exactly when there is a delivery of the current adapter in flight or rejected. */
  lemma RetryQueued(events: seq<Event>)
    requires Run(events).running && Synced(Run(events))
    ensures var h, v := Run(events), Run(events + [Retry(Accepted)]);
            v == if h.inFlight || h.retryPending then h.(ui := h.ui + [RetryTask(h.service)]) else h
  {
    assert (events + [Retry(Accepted)])[..|events|] == events;
    AskingRun(events);
    LiveIsQueued(Run(events).ui, Run(events).service, ResetTask(Run(events).service));
  }

  /** While a delivery is in flight its batch stays what it was when it was posted. */
  lemma {:induction false} SameBatch(events: seq<Event>, i: nat)
    requires i <= |events| && Run(events).running && SameDelivery(Run(events[..i]), Run(events))
    ensures Run(events[..i]).bridge.transaction == Run(events).bridge.transaction
  {
    if i == |events| {
      assert events[..i] == events;
    } else {
      var front, e := events[..|events| - 1], events[|events| - 1];
      assert front[..i] == events[..i];
      AskingRun(front);
      StepOnward(Run(front), e);
      EarlierGeneration(front, i);
      SameBatch(front, i);
    }
  }

  /** A delivery that arrives succeeds exactly if the adapter is healthy and the bounds are acceptable. */
  lemma DeliveryAnswered(events: seq<Event>, healthy: bool)
    requires var h := Run(events); h.platform != [] && Delivers(h, h.platform[0])
    ensures var h, v := Run(events), Run(events + [PlatformStep(healthy, Accepted)]);
            && h.bridge.transaction.Some?
            && var candidate := h.bridge.transaction.value.candidate;
               var taken := healthy && AllBoundsOk(candidate);
               && v.ui == h.ui + [AnswerTask(h.service, h.publication, taken)] && v.platform == h.platform[1..]
               && v.model == if taken then MapOf(candidate) else h.model
  {
    assert (events + [PlatformStep(healthy, Accepted)])[..|events|] == events;
    RunOk(events);
    DeliveryAccepted(Run(events));
  }
}
