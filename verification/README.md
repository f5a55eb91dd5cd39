# DUI: a verified model of its caches and protocols

DUI is a headless UI framework. Its hard parts are caches and state machines that must agree with
something simpler. This project models nine of them in Dafny and proves the agreement for every
input, every run and every interleaving of the modelled steps. `dafny verify dfyconfig.toml` checks
the whole project.

| files | what they model | main results |
|---|---|---|
| `Layers`, `RenderTree`, `Placement`, `PaintRanges`, `TreeEdits`, `RetainedPainting`, `PaintSession`, `TreeHistory` | retained painting: dirty flags, boundary recordings, composed layers | `PaintSession.Run`: every frame of every session equals a full paint of the current tree, each command where the offsets on its way put it, and is missing exactly when that paint meets an invalid range; `AdoptableExactly` |
| `Semantics`, `SemanticsPreorder`, `SemanticsDiff`, `SemanticsOrder`, `SemanticsTrees`, `SemanticsDiffer` | flattening, diffing, the adapter's checks and the bridge transaction | `PreorderByPaths`, `PrefixForest`, `EmptyIffSame`, `BatchAccepted`, `HierarchyExactly` |
| `AccessibilityProtocol`, `AccessibilityDrain`, `AccessibilityHistory`, `AccessibilityHost` | publication over two executors to a failing, replaceable adapter | `Agreement`, `HoldsLastTree`, `FailureRedelivers`, `EveryScheduleEnds`, `Quiesces`, `Recovers`, `OnlyStops` |
| `WindowProtocol`, `WindowRuns`, `WindowGuarantees`, `WindowStreams`, `WindowReports`, `WindowCallbacks`, `WindowFrames`, `WindowHost` | frame scheduling and delegate callbacks of a host window | `HeardWhileRunning`, `HeardAtTheEnd`, `PointersHeard`, `FramesScheduled`, `FrameServed`, `FramesInOrder`, `PointerStreams`, `PartedStreams` |
| `FixedExtentRanges`, `FixedExtentList`, `LazyRealization`, `LazyEviction`, `LazyFrame` | the lazy fixed-extent list | `VisibleExactly`, `CachedExactly`, `CachedUnderflow`, `Destinations`, `Session`, `SameThroughout` |
| `Timeline`, `TimelineProgress` | the ring of completed timeline events and its cursors | `Monitor`, `SeenOnce`, `EveryPositionDecided`, `PagesCatchUp` |
| `WaylandProtocol`, `WaylandRuns`, `WaylandInputs`, `WaylandSurface` | the Wayland surface engine | `SerialsAcknowledged`, `StalePlanRefused`, `EveryPlanValid`, `SettledExactly`, `DueExactly` |
| `RasterProtocol`, `RasterRuns`, `RasterOutcomes`, `RasterThread` | the raster worker and its frames | `EveryTicketOnce`, `ToldExactly`, `ResolvedInTime`, `StopsInTime`, `ShownInOrder`, `Drive` |
| `Utf8`, `JsonString` | UTF-8 recognition and the JSON string writer | `IsValidUtf8`, `ValidFor`, `AppendJsonString`, `ShortestUnit` |

Conventions. A protocol is a set of step functions on a record (`…Protocol`), an invariant with its guarantees
over all runs (`…Runs`, `…Guarantees`), and a class whose fields are updated in place and whose every method is
proved to take exactly the protocol step it implements. What the steps amount to is stated once more without
them, on the events alone: which callbacks a delegate hears (`WindowReports`, `WindowCallbacks`), which tree an
adapter holds and which retries are remembered (`AccessibilityHistory`), what a surface heads for
(`WaylandInputs`), what a ticket is told (`RasterOutcomes`), what an edited tree holds (`TreeHistory`). The
environment is a parameter: `Post` says whether an executor accepts what is posted to it, `healthy` whether an
adapter fails on its own, `Answers` how surface and renderer behave. Offsets and extents are reals. A paint
method is the commands it draws at the origin, moved to the offset it is given; it can only draw, since the
painting context offers nothing else. Exceptions of the source are error results that leave the state as the
source leaves it. Counters that the source checks against the largest 64-bit value are checked here too; the
wrapping ones wrap here too.

One property is false of the code as written and is stated exactly. The cached range of a fixed-extent
list is sized by an unsigned subtraction that underflows when the remaining extent and the cache extent
are both zero and two item starts coincide with a positive scroll offset (`Collapsed`). Exact products
never coincide (`NeverCollapsed`); products rounded to doubles do, for extent 1.0 at index 2^53 (`RoundingCollapses`).
Such an index is out of reach of `lazy_for_each`, which stores its items in a vector
(include/dui/views.hpp:304); the input is a direct call of `set_lazy_model` with a count beyond it.
`CachedUnderflow` proves the condition necessary and sufficient, and `LayoutFrame` that realization
settles in one round exactly outside it.

A second guarantee holds for less than one might expect: shutdown closes the pointers of the delegate it notifies only.
Binding and unbinding forget the active pointers without cancels, so a delegate that parts with a pointer
down keeps an open stream (`PartedStreams`, `OrphanedStream`).

## Model

| member | source | states |
|---|---|---|
| `Layers.AppendLayer` | src/rendering.cpp:63-121 | appends the flattening of the layer at the offset: every command the layer holds, in order, the same but for its anchor, which is the recorded one moved by the offset and all offset layers above it |
| `Layers.FlattenShift` | src/rendering.cpp:63-121 | flattening at a moved offset is the flattening with every command moved: layers are translation-equivariant |
| `RenderTree.PaintShift` | src/rendering.cpp:1247-1276 | painting a subtree elsewhere draws the same commands moved |
| `RenderTree.PaintBalanced` | src/rendering.cpp:1247-1276 | a full paint opens and closes its clips in balance, at any depth |
| `Placement.PaintComposed` | src/rendering.cpp:1247-1276 | a full paint is what the objects below recorded, in order of clip, content, children and end of clip, each command the same but for its anchor, which is moved by the sum of the offsets from the root of the paint to its object |
| `Placement.ItemsComeBy` | src/rendering.cpp:1247-1276 | these commands are exactly those of the objects that are reached through valid painted ranges |
| `RenderTree.DenoteRecord` | src/rendering.cpp:1247-1276 | filling the boundary slots of a recording with full paints gives the full paint |
| `RenderTree.PaintLocal` | src/rendering.cpp:363-387 | an edit outside a subtree leaves its full paint unchanged |
| `RenderTree.RecordLocal` | src/rendering.cpp:363-387 | an edit outside the region a boundary records leaves its recording unchanged |
| `PaintRanges.PaintableIffShownOk` | src/rendering.cpp:1256-1272 | a full paint succeeds if and only if every object reached through painted ranges has a valid range |
| `PaintRanges.PaintableBySlots` | src/rendering.cpp:1256-1272 | what a recording has settled, and the nested boundaries its slots name, together decide whether a full paint succeeds |
| `TreeEdits.ApplyOk` | src/rendering.cpp:393-441 | every edit keeps the tree well formed and reaches no object's drawing but the touched one's |
| `TreeEdits.EditUnseen` | src/rendering.cpp:363-387 | a boundary that neither records nor contains the touched object keeps its recording and its paint, and whether they succeed |
| `TreeHistory.AliveExactly` | src/rendering.cpp:323-347 | in every session the tree holds the root and the objects created and not destroyed since |
| `TreeHistory.AttributesAreLast` | src/rendering.cpp:323-326 | each object has the content, clip, range and offset it was given last, and the kind it was created as |
| `TreeHistory.ChildrenAreLast` | src/rendering.cpp:328-441 | each object has the child list it was given last, without the children destroyed since |
| `TreeHistory.TreeObeys` | src/rendering.cpp:403-427 | in every session no object has a child twice, too many children or a child of the wrong protocol |
| `TreeHistory.AdoptableExactly` | src/rendering.cpp:403-427 | a child list is accepted if and only if some tree without cycles, second parents, repetitions and violations of count and protocol has it and is the same otherwise |
| `RetainedPainting.Recorder.Flush` | src/rendering.cpp:1239-1244 | closing the current display list moves its commands into the chunks and loses none |
| `RetainedPainting.RenderOwner.MarkNeedsPaint` | src/rendering.cpp:363-387 | after an edit at an object every cache that may be stale is flagged, the rest stays valid and no dirty root is lost |
| `RetainedPainting.RenderOwner.MarkAncestors` | src/rendering.cpp:378-386 | flags for compositing exactly the boundaries above, and all of them |
| `RetainedPainting.RenderOwner.MarkNeedsLayout` | src/rendering.cpp:349-361 | restores the cache invariant after a structural edit |
| `RetainedPainting.RenderOwner.EnsureBoundary` | src/rendering.cpp:1222-1231 | succeeds exactly when the boundary can be painted, and then leaves it clean with a layer equal to its full paint; boundaries above and clean layers are untouched |
| `RetainedPainting.RenderOwner.RecordBoundary` | src/rendering.cpp:1233-1303 | a dirty boundary becomes clean, exactly when it can be painted; a failure keeps every cache consistent |
| `RetainedPainting.RenderOwner.RecordObject` | src/rendering.cpp:1247-1276 | appends exactly the recording of the subtree, nested boundaries as slots, and fails exactly when an object to be painted has an invalid range |
| `RetainedPainting.RenderOwner.Replace` | src/rendering.cpp:1288-1295 | composing from new chunks, with the old ones restored on failure, which needs a slot that cannot be painted |
| `RetainedPainting.RenderOwner.ClearPainted` | src/rendering.cpp:1296-1300 | clears the flags of what was painted and of no other boundary |
| `RetainedPainting.RenderOwner.ComposeBoundary` | src/rendering.cpp:1305-1347 | the retained layer draws the full paint of the boundary |
| `RetainedPainting.RenderOwner.ComposeLayers` | src/rendering.cpp:1310-1343 | the clip stack ends balanced and holds the full paint |
| `RetainedPainting.RenderOwner.CompositeFrame` | src/rendering.cpp:1354-1365 | the returned layer, early return included, draws the full paint with balanced clips; there is none exactly when a full paint of the root meets an invalid range |
| `RetainedPainting.RenderOwner.Move` | src/rendering.cpp:485-500 | an offset change keeps the caches valid, announced by the parent for a boundary |
| `RetainedPainting.RenderOwner.Create` | src/rendering.cpp:323-326 | a new detached object is registered and dirty, and disturbs nothing |
| `RetainedPainting.RenderOwner.CheckChildren` | src/rendering.cpp:403-427 | accepts exactly the child lists of an allowed length and protocol without strangers, second parents, cycles and repetitions; the root view may be adopted as in the source |
| `RetainedPainting.RenderOwner.SetChildren` | src/rendering.cpp:393-441 | the accepted list replaces the old one and every cache stays valid; a refused one changes nothing |
| `RetainedPainting.RenderOwner.Destroy` | src/rendering.cpp:328-347 | the object leaves its parent, orphans its children and is forgotten, with every cache still valid |
| `PaintSession.Run` | src/rendering.cpp:1354-1365 | in every session of edits and frames each frame draws exactly the full recursive paint of the tree of that moment, each command placed by the offsets on its way, with balanced clips, and is missing exactly when that paint meets an invalid range |
| `Semantics.FlattenTree` | src/rendering.cpp:1402-1435 | returns the preorder flattening with parents and child indices exactly when ids are nonzero and unique and focus is consistent |
| `SemanticsPreorder.PreorderByPaths` | src/rendering.cpp:1402-1435 | the entries are those of all paths of child indices into the tree, in lexicographic order, each with the id and properties of its node, the id of the node above and the last index |
| `SemanticsDiffer.Changes` | src/rendering.cpp:1437-1464 | computes the batch: additions, updates in new preorder, removals in reverse old preorder |
| `SemanticsDiff.DiffReaches` | src/rendering.cpp:1448-1464 | applying the whole batch to the old entry map never fails and gives exactly the new one |
| `SemanticsDiff.PrefixForest` | src/rendering.cpp:1448-1464 | every prefix of a batch applies and leaves a forest: parents present, no cycles |
| `SemanticsOrder.MapDeterminesOrder` | src/rendering.cpp:1402-1435 | parent and child index determine preorder: equal entry maps come from equal flattenings |
| `SemanticsOrder.EmptyIffSame` | src/rendering.cpp:1466-1470 | a batch is empty if and only if the two flattened sequences are identical |
| `SemanticsOrder.FlattenedHierarchy` | src/platform/win32_accessibility.cpp:650-703 | the entry map of an acceptable tree passes the checks of parents, cycles, sibling indices, focus and bounds if and only if its bounds are acceptable: all other checks it always passes |
| `SemanticsTrees.HierarchyExactly` | src/platform/win32_accessibility.cpp:650-703 | a model passes the checks, each entry under its own nonzero id, if and only if it is the model of an acceptable tree with acceptable bounds |
| `SemanticsTrees.AcceptsExactly` | src/platform/win32_accessibility.cpp:752-784 | a batch is acceptable if and only if its ids are nonzero and it applies and leads to the model of such a tree |
| `SemanticsOrder.BatchAccepted` | src/platform/win32_accessibility.cpp:754-777 | applying a batch between acceptable trees always gives the new model, and the adapter accepts it if and only if the new bounds are acceptable |
| `SemanticsDiffer.Differ.Update` | src/rendering.cpp:1402-1471 | returns the batch and remembers the new entries; a refused tree changes nothing |
| `SemanticsDiffer.Differ.Clear` | src/rendering.cpp:1473-1481 | returns the batch that empties the model |
| `SemanticsDiffer.AccessibilityBridge.Prepare` | src/rendering.cpp:1537-1544 | opens a transaction with a fresh generation, or reports that nothing changed, one is open or generations are spent |
| `SemanticsDiffer.AccessibilityBridge.PrepareClear` | src/rendering.cpp:1546-1553 | opens the transaction that removes every entry, with the outcomes of `Prepare` |
| `SemanticsDiffer.ClearEmpties` | src/rendering.cpp:1546-1553 | a cleared adapter is empty, and its acknowledgement leaves nothing acknowledged |
| `SemanticsDiffer.AccessibilityBridge.Retry` | src/rendering.cpp:1555-1563 | reissues the rejected batch under a new generation |
| `SemanticsDiffer.AccessibilityBridge.Acknowledge` | src/rendering.cpp:1565-1573 | only the generation in flight counts; its candidate becomes the acknowledged state |
| `SemanticsDiffer.AccessibilityBridge.Reject` | src/rendering.cpp:1575-1582 | only the generation in flight counts; the batch stays for a retry |
| `SemanticsDiffer.AccessibilityBridge.ResetAcknowledged` | src/rendering.cpp:1584-1590 | forgets the acknowledged state and any transaction |
| `AccessibilityProtocol.RunOk` | src/host.cpp:370-524 | the host invariant holds in every run of publishes, failures, retries, replacements and refused posts |
| `AccessibilityProtocol.DeliveryAccepted` | src/host.cpp:386-405 | whatever reaches the adapter applies and gives the candidate; it is refused if and only if a bound in the candidate is unacceptable |
| `AccessibilityProtocol.Agreement` | src/host.cpp:370-524 | once the reset has run the adapter's model is the acknowledged one, or the candidate whose success is still queued |
| `AccessibilityProtocol.EmptyUntilReset` | src/host.cpp:1992-2047 | until the reset of a replacement has run the new adapter is empty and no delivery can reach it |
| `AccessibilityProtocol.Convergence` | src/host.cpp:496-524 | with both queues empty, an adapter and no rejected batch, the adapter holds exactly the last published tree |
| `AccessibilityProtocol.PrepareNeverBusy` | src/host.cpp:496-524 | in no run does preparing the desired tree find a transaction open |
| `AccessibilityProtocol.OnlyStops` | src/host.cpp:370-524 | a running host stops only by shutdown, a refused post or a spent counter |
| `AccessibilityHistory.HoldsLastTree` | src/host.cpp:496-524 | at rest, with no rejected batch, an adapter installed last holds the tree published last among the events |
| `AccessibilityHistory.RetryQueued` | src/host.cpp:1262-1290 | a retry request queues a task exactly when a delivery of the current adapter is in flight or rejected |
| `AccessibilityHistory.RememberedExactly` | src/host.cpp:467-470 | in every run a retry is remembered if and only if a retry task was taken during the delivery in flight |
| `AccessibilityHistory.FailureRedelivers` | src/host.cpp:408-436 | when a delivery fails the platform queue ends with the same changes under a fresh generation exactly if a retry task was taken while it was in flight; otherwise the batch waits |
| `AccessibilityHistory.RetryRedelivers` | src/host.cpp:471-490 | a retry task taken while a batch waits delivers the same changes under a fresh generation |
| `AccessibilityHistory.SameBatch` | src/host.cpp:378-383 | the batch in flight stays what it was when it was posted |
| `AccessibilityHistory.DeliveryAnswered` | src/host.cpp:386-405 | a delivery that arrives succeeds exactly if the adapter is healthy and the bounds are acceptable, and then the model is the candidate |
| `AccessibilityDrain.EveryScheduleEnds` | src/host.cpp:370-524 | however the two executors take turns and whatever the adapter fails, no more tasks run than the cost of the state bounds, and the host keeps running while posts are accepted and generations last |
| `AccessibilityDrain.Quiesces` | src/host.cpp:370-524 | from every running state of every run both queues can be emptied within that bound, and with an adapter and no rejected batch it then holds the last published tree |
| `AccessibilityDrain.Recovers` | src/host.cpp:456-494 | a quiet host with a rejected batch holds the last published tree after one retry and at most five tasks, once the adapter is healthy and accepts the bounds |
| `AccessibilityHost.Adapter.Apply` | src/platform/win32_accessibility.cpp:752-786 | all or nothing: no id is zero, every change applies in order to a copy and the result passes the hierarchy checks, else nothing is swapped in |
| `AccessibilityHost.Window.Handle` | src/host.cpp:370-524 | every entry point and every queued task takes exactly its protocol step, on real bridge, differ and adapter objects |
| `AccessibilityHost.Drive` | src/host.cpp:370-524 | a window driven by any script ends where the protocol run does |
| `WindowRuns.BindOk` | src/host.cpp:1136-1175 | binding a delegate, with clean pointer streams and the metrics of the moment, keeps the window invariant |
| `WindowRuns.ChangeMetricsOk` | src/host.cpp:1561-1607 | a metrics change, which invalidates the frame and tells the delegate, keeps the window invariant |
| `WindowRuns.HideOk` | src/host.cpp:1609-1670 | hiding, with its cancels and its rollback on a failed post, keeps the window invariant |
| `WindowRuns.PulseTaken` | src/host.cpp:1728-1797 | turning a pulse into a frame keeps the window invariant |
| `WindowRuns.SetSurfaceOk` | src/host.cpp:1912-1990 | a surface change keeps the window invariant |
| `WindowRuns.ShutdownOk` | src/host.cpp:1442-1529 | shutdown, with its cancels, notice and release, keeps the window invariant |
| `WindowRuns.FrameAllowed` | src/host.cpp:1771-1784 | a frame that passes the staleness test carries the metrics its delegate was last told |
| `WindowRuns.RunOk` | src/host.cpp:1071-1085 | the window invariant holds in every run, with posts refused anywhere and entry points between any two callbacks |
| `WindowGuarantees.SchedulerInvariant` | src/host.cpp:221-275 | never armed and delivering together, armed only on demand, armed whenever a frame is wanted and possible |
| `WindowGuarantees.GenerationSpent` | src/host.cpp:1740-1745 | a native generation that yielded a frame never yields another |
| `WindowGuarantees.SuppressedStaysDemanded` | src/host.cpp:1771-1797 | a frame suppressed by a metrics, visibility or surface change leaves its demand set |
| `WindowGuarantees.FramesInOrder` | src/host.cpp:1740-1797 | every frame carries the metrics its delegate was last told, with rising sequence numbers and timestamps that never fall |
| `WindowGuarantees.PointerStreams` | src/host.cpp:1799-1877 | per delegate and pointer the delivered events are a prefix of (down move* (up or cancel))* |
| `WindowGuarantees.ShutdownIsLast` | src/host.cpp:1442-1529 | no callback follows the shutdown notice, and every pointer of the notified delegate was closed before it |
| `WindowGuarantees.PartedStreams` | src/host.cpp:1136-1175 | the streams of a delegate that was replaced or unbound end as they stood, whatever follows: open if and only if open at the parting |
| `WindowGuarantees.OrphanedStream` | src/host.cpp:1149-1158 | a delegate replaced between down and up never sees the pointer closed, not even by shutdown |
| `WindowReports.FactsRun` | src/host.cpp:1561-1990 | while a window runs, its metrics, visibility, focus and surface are what the events made of them |
| `WindowReports.StopsOnly` | src/host.cpp:1442-1529 | a running window stops only by shutdown, a refused post or a spent counter |
| `WindowReports.PartingParts` | src/host.cpp:1149-1158 | unbinding a delegate or binding another one parts it |
| `WindowReports.HeardWhileRunning` | src/host.cpp:1160-1990 | everything but frames that a bound delegate has been told and will be, in order, is the script of the events since it was bound |
| `WindowReports.HeardAtTheEnd` | src/host.cpp:1442-1529 | after the window has stopped it is that script up to the stopping event, a cancel for each pointer that is down, and the notice |
| `WindowCallbacks.PointersHeard` | src/host.cpp:1799-1877 | per pointer a bound delegate hears exactly the input phases that continue the stream, in order, and the cancels of hiding and losing focus |
| `WindowCallbacks.PointersAtTheEnd` | src/host.cpp:1442-1529 | and one more cancel, exactly if the pointer is down when the window stops |
| `WindowCallbacks.PhasesReceived` | src/host.cpp:1799-1877 | the phases delivered already are the front of that stream |
| `WindowCallbacks.ChangesHeard` | src/host.cpp:1561-1990 | a bound delegate hears of every change of metrics, visibility, focus and surface, in order and with its value, and of nothing else |
| `WindowCallbacks.VisibleByInputs` | src/host.cpp:1609-1670 | a running window is as visible as it was last made, and the notices are the inputs that differ from the one before |
| `WindowCallbacks.SurfaceByInputs` | src/host.cpp:1912-1990 | the same for the state of the surface |
| `WindowFrames.FramesScheduled` | src/host.cpp:221-275 | in every step of every run the demand for a frame changes, and the native window is told, exactly as stated: an armed request that is overtaken is cancelled and a new one asked for under its generation |
| `WindowFrames.FrameServed` | src/host.cpp:1728-1797 | an armed window that takes a pulse delivers the frame with the metrics, timestamp and sequence of that moment, once the callbacks before it are made |
| `WindowHost.SortPointers` | src/host.cpp:277-282 | hands out the active pointers in increasing order |
| `WindowHost.HostWindow.Shutdown` | src/host.cpp:1442-1542 | takes the shutdown step of the protocol, releasing the delegate at once when the post fails |
| `WindowHost.HostWindow.Hide` | src/host.cpp:1626-1664 | pointers taken for cancellation return to the active set when the post fails |
| `WindowHost.HostWindow.SetFocused` | src/host.cpp:1672-1726 | losing focus cancels the pointers; a hidden window cannot gain it |
| `WindowHost.HostWindow.SendPointer` | src/host.cpp:1799-1877 | only events that continue their stream are delivered; a failed post rolls the active set back |
| `WindowHost.HostWindow.Handle` | src/host.cpp:1071-1990 | every entry point, UI callback and native control task takes exactly its protocol step |
| `WindowHost.Drive` | src/host.cpp:146-166 | the callbacks of any script are those of the protocol run and obey the delegate's contract |
| `FixedExtentRanges.FirstItemAt` | src/rendering.cpp:675-692 | the binary search equals the linear scan for the item under an offset |
| `FixedExtentRanges.FirstItemStartingAtOrAfter` | src/rendering.cpp:694-711 | the binary search equals the linear scan for the first start at or after a position |
| `FixedExtentRanges.FirstItemIntersectingLeadingCache` | src/rendering.cpp:713-738 | the binary search equals the linear scan for the first cached item |
| `FixedExtentRanges.ItemAtViewportPosition` | src/rendering.cpp:740-755 | the binary search equals the linear scan for the item under a viewport position |
| `FixedExtentRanges.VisibleExactly` | src/rendering.cpp:829-842 | the visible range is exactly the items that meet the painted window, for any monotone starts |
| `FixedExtentRanges.FirstVisibleExactly` | src/rendering.cpp:675-692 | in front of the first visible item are exactly the items that end by the scroll offset |
| `FixedExtentRanges.VisibleExtentCovers` | src/rendering.cpp:829-831 | the painted extent measures exactly the part of the window that the list covers |
| `FixedExtentRanges.OverflowMeans` | src/rendering.cpp:857-858 | a list with items overflows exactly when some place in it is not painted |
| `FixedExtentRanges.FirstCachedExactly` | src/rendering.cpp:713-738 | in front of the first cached item are exactly the items that end before the leading cache begins |
| `FixedExtentRanges.CachedExactly` | src/rendering.cpp:844-850 | the cached range is exactly the items that meet the window and the cache extents around it, and each of its ends is exact even when there are none |
| `FixedExtentRanges.VisibleIsCached` | src/rendering.cpp:829-850 | whatever is visible lies inside the cached range |
| `FixedExtentRanges.CachedUnderflow` | src/rendering.cpp:844-854 | the size of the cached range underflows if and only if the window is collapsed |
| `FixedExtentRanges.NeverCollapsed` | src/rendering.cpp:824-825 | strictly increasing starts, as exact products give, never collapse |
| `FixedExtentRanges.RoundingCollapses` | src/rendering.cpp:704-706 | starts rounded to doubles at index 2^53 give a cached range that ends before it begins |
| `FixedExtentRanges.ItemAtMeaning` | src/rendering.cpp:888-892 | the item found at a visible position is in the visible range and is the only one containing it |
| `FixedExtentList.RenderSliverFixedExtentList.SetLazyModel` | src/rendering.cpp:782-792 | installs a model and asks for layout unless nothing changed |
| `FixedExtentList.RenderSliverFixedExtentList.SetMountedRange` | src/rendering.cpp:794-805 | accepts exactly the ranges of the current model |
| `FixedExtentList.RenderSliverFixedExtentList.ClearLazyModel` | src/rendering.cpp:807-819 | returns to the plain list |
| `FixedExtentList.RenderSliverFixedExtentList.SettlesTest` | src/rendering.cpp:851-854 | the test with its unsigned subtraction holds exactly when the mounted children are the cached range |
| `FixedExtentList.RenderSliverFixedExtentList.SettledRange` | src/rendering.cpp:860-869 | in a settled layout the paint range stays within the mounted children and its subtractions do not underflow |
| `FixedExtentList.RenderSliverFixedExtentList.PerformLayout` | src/rendering.cpp:821-876 | either lays out exactly the visible children at their offsets, the mounted ones being exactly the items near the window, or requests exactly those items and shows nothing |
| `FixedExtentList.RenderSliverFixedExtentList.HitTest` | src/rendering.cpp:878-903 | forwards to the one visible child containing the position, exactly for positions inside the painted window |
| `FixedExtentList.RenderSliverFixedExtentList.MountRequested` | src/rendering.cpp:794-805 | mounting the requested range settles the next layout |
| `LazyRealization.Indices` | include/dui/views.hpp:885-895 | the index map finds the one element with a key, or none |
| `LazyRealization.TakeChildren` | include/dui/views.hpp:902-936 | requested elements keep their identity, missing ones are new, and every other element stays in its slot |
| `LazyRealization.RetainOrUnmount` | include/dui/views.hpp:937-946 | keeps what the policy retains and unmounts the rest, in order |
| `LazyRealization.PlacedOnce` | include/dui/views.hpp:861-957 | each element ever created is mounted, dormant or unmounted, exactly once |
| `LazyRealization.DepartedAt` | include/dui/views.hpp:947-952 | dormant elements stand in the order in which they left the range |
| `LazyRealization.RealizedBucket` | include/dui/views.hpp:937-955 | mounted and dormant keys stay distinct and disjoint, within policy and limit |
| `LazyRealization.RealizedOnce` | include/dui/views.hpp:861-957 | the elements before and the requested keys determine the elements afterwards, down to the ids of the new ones |
| `LazyRealization.NothingMoves` | include/dui/views.hpp:902-955 | realizing the range that is mounted leaves every element where it is |
| `LazyRealization.WorthKeeping` | include/dui/views.hpp:937-946 | without a limit an element whose key is kept alive stays mounted or dormant, whatever range is realized |
| `LazyRealization.RealizedOrder` | include/dui/views.hpp:947-952 | the new dormant list is ordered by departure: old ones keep their time, the mounted ones that leave are latest |
| `LazyRealization.LazyElement.EnforceLimit` | include/dui/views.hpp:847-858 | the front of the bucket is unmounted in order; what is left is the smaller of its size and the limit |
| `LazyEviction.Destinations` | include/dui/views.hpp:861-957 | an element is mounted exactly when wanted; else it is unmounted exactly when the policy does not keep it alive or as many retained elements as the limit allows left after it; else it is dormant |
| `LazyEviction.AdoptedDestinations` | include/dui/views.hpp:980-1000 | the same for the dormant elements when a new model is adopted |
| `LazyRealization.LazyElement.Realize` | include/dui/views.hpp:861-957 | mounted keys are the requested slice in order, identities are kept, all other elements are dormant or unmounted once, the oldest are evicted; an invalid range changes nothing |
| `LazyRealization.LazyElement.InstallModel` | include/dui/views.hpp:980-1000 | a new model drops the dormant elements it does not keep alive, then the oldest beyond the limit, and leaves the mounted ones |
| `LazyFrame.ShowModel` | include/dui/views.hpp:972-1001 | a negative cache extent is refused and changes nothing; otherwise element and sliver take extents and model together and are coupled, the mounted elements stay, and of the dormant ones exactly those not kept alive and the oldest beyond the limit are unmounted |
| `LazyFrame.LayoutFrame` | src/ui.cpp:591-690 | one round settles the layout if and only if the window is not collapsed; then mounted, dormant and unmounted elements are exactly what realizing the cached range makes of them; an unsettled frame moves none, and list and element stay coupled |
| `LazyFrame.FrameShowsNear` | src/ui.cpp:591-690 | a settled frame has mounted the elements of exactly the items near its window, in order |
| `LazyFrame.Session` | src/ui.cpp:591-690 | over any session of new models and frames each frame settles if and only if its window is not collapsed; the elements shown, dormant and unmounted after every operation are exactly what adopting the model or realizing the cached range makes of those before it, from the state found to the state left behind |
| `LazyFrame.SameThroughout` | include/dui/views.hpp:902-955 | in any such session, as long as every model keeps a key alive without a limit, whatever is shown for it is one and the same element |
| `Timeline.NewRecorder` | src/ui.cpp:28-36 | a recorder starts empty; a capacity of zero is refused |
| `Timeline.Recorder.Finish` | src/ui.cpp:59-86 | appends to the log; slot i keeps holding position floor + i, the oldest event is dropped when full |
| `Timeline.Recorder.Overwrite` | src/ui.cpp:81-85 | a full ring drops its oldest event and raises the floor by one |
| `Timeline.Recorder.ReadCompleted` | src/ui.cpp:108-138 | a read is exactly a read of the log: retained events from the position on, with the errors of the source |
| `Timeline.Recorder.Follow` | src/ui.cpp:200-212 | a bound cursor of another recorder is refused; the returned cursor continues the read |
| `Timeline.Recorder.Clear` | src/ui.cpp:140-146 | empties the ring and raises the floor to the next position |
| `Timeline.PollDecides` | src/ui.cpp:108-138 | a poll passes the positions up to its cursor and returns exactly those not cleared or overwritten |
| `Timeline.FollowedReads` | src/ui.cpp:108-138 | a read extends what was seen, at rising positions of the log |
| `Timeline.FollowedMeans` | src/ui.cpp:108-138 | with nothing missed the events seen are exactly the log up to the cursor |
| `Timeline.SeenOnce` | src/ui.cpp:108-146 | over any script of completions, clears and polls each event is seen at most once, in order, and seen plus missed is the cursor's advance |
| `Timeline.EveryPositionDecided` | src/ui.cpp:108-146 | exactly one poll passes each position below the cursor, and it returned the event there unless that was cleared or overwritten |
| `Timeline.FullPollCatchesUp` | src/ui.cpp:108-138 | a poll for at least the capacity leaves the cursor at the end of the log |
| `Timeline.Monitor` | src/ui.cpp:108-146 | a recorder followed through any script returns and misses exactly what the run over the log says |
| `TimelineProgress.PollProgress` | src/ui.cpp:108-138 | a poll returns as many of the unread events as it was asked for and leaves the others unread |
| `TimelineProgress.PagesCatchUp` | src/ui.cpp:108-138 | however small the pages, enough of them return every unread event and reach the end of the log |
| `TimelineProgress.LogRecords` | src/ui.cpp:59-86 | the log holds one event for each completion, with its failure flag and with the time up to its end as duration, or zero when the clock ran backwards |
| `WaylandProtocol.ScaledExact` | src/platform/wayland.cpp:12-21 | the 64-bit computation never overflows for 32-bit operands and equals the exact ceiling |
| `WaylandRuns.PrepareFails` | src/platform/wayland.cpp:315-355 | preparing throws exactly when the generation is spent, the scale leaves 32 bits or a buffer side leaves the protocol's range |
| `WaylandRuns.RunOk` | src/platform/wayland.cpp:257-399 | the invariant of state and history holds in every run |
| `WaylandRuns.SerialsAcknowledged` | src/platform/wayland.cpp:274-372 | the first submitted commit carries a serial, every submitted serial is the latest received, and no configure is acknowledged twice |
| `WaylandRuns.EveryPlanValid` | src/platform/wayland.cpp:223-246 | every commit prepared in any reachable state is valid, for integer and fractional scaling |
| `WaylandRuns.OneCallback` | src/platform/wayland.cpp:366-389 | at most one frame callback is outstanding, and none when a commit asks for one |
| `WaylandRuns.SettledShowsDesired` | src/platform/wayland.cpp:357-372 | configured, clean and nothing pending imply that applied extent and scale are the desired ones |
| `WaylandRuns.SubmitsCurrent` | src/platform/wayland.cpp:357-372 | whatever is submitted describes the state of that moment |
| `WaylandRuns.StalePlanRefused` | src/platform/wayland.cpp:357-361 | a plan that an effective configure, scale change or buffer loss overtakes is never submitted, whatever comes between and after |
| `WaylandInputs.ConfigureTakesSize` | src/platform/wayland.cpp:266-290 | after a configure each side of the desired size is that of the last valid toplevel size received since the configure before, or unchanged where that is zero |
| `WaylandInputs.OnlyConfigureResizes` | src/platform/wayland.cpp:266-290 | nothing else changes the desired size, not even a configure without a new size |
| `WaylandInputs.ScaleIsLast` | src/platform/wayland.cpp:292-304 | the desired scale is the last nonzero one received |
| `WaylandInputs.SettledExactly` | src/platform/wayland.cpp:357-382 | the surface is settled exactly from a submission to the next configure, new scale, buffer loss or dropped plan |
| `WaylandInputs.SettledIsCurrent` | src/platform/wayland.cpp:357-372 | a settled surface shows the desired size and the last scale and has acknowledged the last configure |
| `WaylandInputs.DemandExactly` | src/platform/wayland.cpp:306-372 | a frame is demanded exactly while some request has not been followed by a submitted commit that asks for a callback |
| `WaylandInputs.PlanAsks` | src/platform/wayland.cpp:316-355 | a prepared commit asks for a callback exactly when a request is open and no callback is outstanding |
| `WaylandInputs.PlanServes` | src/platform/wayland.cpp:316-372 | a commit that is prepared and sent is submitted, settles the surface and serves the request |
| `WaylandInputs.DueExactly` | src/platform/wayland.cpp:316-324 | a commit is due exactly when none is prepared and something has changed since the last submission or a request can be served |
| `WaylandSurface.WaylandSurfaceState.Handle` | src/platform/wayland.cpp:257-399 | every event and call takes exactly its protocol step: configure, scale, loss, prepare, submit, discard, frame callback |
| `WaylandSurface.Drive` | src/platform/wayland.cpp:257-399 | a surface driven by any script ends where the protocol run does and, when settled, shows the desired state |
| `RasterRuns.RunOk` | src/backend.cpp:247-444 | the invariant of queue, worker and history holds in every interleaving |
| `RasterRuns.EveryTicketOnce` | src/backend.cpp:259-279 | each issued ticket is queued, in the worker's hands or resolved, exactly once |
| `RasterRuns.AllResolvedAtExit` | src/backend.cpp:247-257 | stopping implies an empty queue, and when the worker is gone every ticket has been resolved once |
| `RasterRuns.StopsInTime` | src/backend.cpp:297-428 | from any reachable state with a stop request five turns of the worker, whatever surface and renderer answer, reach its exit with every ticket resolved |
| `RasterRuns.ResolvedInTime` | src/backend.cpp:297-428 | a queued ticket is resolved after at most nine turns of the worker and five more for each ticket before it, one in the worker's hands after at most four, whatever is submitted or answered meanwhile |
| `RasterRuns.ShownInOrder` | src/backend.cpp:371-425 | frames are shown in submission order, and exactly the tickets told so were shown |
| `RasterRuns.EveryFrameOnce` | src/backend.cpp:325-383 | each acquired frame, refused ones included, is presented or abandoned exactly once, unless still in the worker's hands |
| `RasterOutcomes.ToldExactly` | src/backend.cpp:343-380 | each resolved ticket was decided by exactly one event, and was told what surface, renderer, stop request or failure said in it |
| `RasterOutcomes.UndecidedYet` | src/backend.cpp:343-380 | nothing has been decided about a ticket that is queued or being drawn |
| `RasterOutcomes.StoppingExactly` | src/backend.cpp:247-257 | the thread is stopping exactly after a stop request, a renderer that cannot be made or a failed frame |
| `RasterOutcomes.TicketsIssued` | src/backend.cpp:259-279 | a submission gets the next ticket, with ids counting from one and over again, exactly when it is valid and nothing has halted the thread |
| `RasterOutcomes.PixelsMapped` | src/backend.cpp:38-82 | every byte of every pixel of a usable frame is mapped, and rows do not overlap |
| `RasterThread.DivisionTest` | src/backend.cpp:62-68 | the division test rejects exactly the extents whose byte size does not fit |
| `RasterThread.SurfaceFrame.constructor` | src/backend.cpp:38-82 | an unusable frame is abandoned at once, a usable one is active |
| `RasterThread.SurfaceFrame.Present` | src/backend.cpp:93-100 | presents an open transaction once and refuses a completed one |
| `RasterThread.SurfaceFrame.Abandon` | src/backend.cpp:102-109 | abandons an open transaction once and ignores a completed one |
| `RasterThread.RasterState.ResolvePending` | src/backend.cpp:430-444 | gives everything queued the same outcome, in order, and empties the queue |
| `RasterThread.RasterState.TakeFrame` | src/backend.cpp:140-160 | a frame that cannot be used or does not match its request is abandoned, any other one is held open |
| `RasterThread.RasterState.Handle` | src/backend.cpp:247-444 | submission, stop requests and every worker phase take exactly their protocol step |
| `RasterThread.Drive` | src/backend.cpp:247-444 | any interleaving ends where the protocol run does, with every ticket resolved at exit; the delegate of every acquired frame has been told what the history says, and at exit each exactly once |
| `Utf8.ScansIffUtf8` | src/input.cpp:345-387 | reading character by character decides the grammar of section 4 of RFC 3629 |
| `Utf8.ValueDecides` | src/input.cpp:351-383 | the decoded value is in range, not overlong and no surrogate exactly when the bytes are a character of the grammar |
| `Utf8.DecodeAt` | src/input.cpp:348-384 | finds exactly the character at an index, or none |
| `Utf8.IsValidUtf8` | src/input.cpp:345-387 | accepts exactly the strings of section 4 of RFC 3629 |
| `Utf8.CutUtf8` | src/input.cpp:332-341 | an offset of valid text is a boundary if and only if both halves are valid UTF-8 |
| `Utf8.ValidFor` | src/input.cpp:328-343 | a range is valid exactly when both its ends cut valid text into valid halves |
| `JsonString.TableLength` | src/ui.cpp:837-872 | the range-table check accepts the same multi-byte sequences as the other recogniser |
| `JsonString.UnitReads` | src/ui.cpp:865-903 | each unit written is one char of section 7 of RFC 8259 and is read back as what it replaces |
| `JsonString.ShortestUnit` | src/ui.cpp:865-903 | no other way to write a character is shorter: only what must be escaped is |
| `JsonString.EscapeDecodes` | src/ui.cpp:832-906 | decoding what was written gives the input with each byte that starts no character replaced by U+FFFD |
| `JsonString.RepairedScans` | src/ui.cpp:868-870 | the replacement yields valid UTF-8 and leaves valid UTF-8 alone |
| `JsonString.AppendJsonString` | src/ui.cpp:832-906 | for every byte string the output is a JSON string in valid UTF-8 that decodes to the repaired input, and to the input itself when that is valid |

## Left out

- Interleavings finer than one entry point or one queued callback; in particular the gap in `set_accessibility_adapter` between releasing its lock and posting the reset, and condition-variable wakeups.
- Floating-point rounding of offsets and bounds, overflow checks on sums of offsets, and the finiteness checks that go with them; the item starts of the lazy list may be rounded in any monotone way.
- Layout itself: painting sees a layout as offset changes and invalidations, and the lazy list as the constraints it is given.
- RetainedPainting.RenderOwner.CheckChildren: an id outside the tree stands both for a null child and for a child of another owner, which the source refuses with different errors.
- AccessibilityHost.Adapter.Apply: `validate_scaled_bounds` (src/platform/win32_accessibility.cpp:784), which runs before the swap and multiplies bounds by the pixel ratio, is one of the failures that `healthy` stands for: the parameter is free in every theorem, but which bounds overflow is not modelled.
- The revision counter of lazy models does not wrap: it would take 2^64 models.
- A renderer that itself presents or abandons the frame it is given, and an acquisition that returns a frame with a failure status.
- Exceptions thrown by user `paint`, `build` and callbacks, with the invalid paint range, the failing adapter, failing posts, failing surfaces and failing renderers as the exceptions that are modelled; paint_depth, which only guards against such reentrancy, and paint_count.
- Reuse of render object ids: the source counts them up and never reuses one, and so does the model.
- `AccessibilityBridge::publish` and `clear`, which deliver synchronously; the host uses only the transaction.
- `rebuild_hierarchy` is modelled by what it accepts, not by its sorting; of its check of bounds the sign test of width and height is modelled and the finiteness test belongs to the checks above; Win32 provider objects and events are not part of this model.
- Keys, close requests and semantics actions are one kind of callback (`Other`), accepted whenever the window runs; their payload checks, clipboard, text input, cursor and title, and the platform side of shutdown are not part of this model.
- The `HostWindowState` of the window modules and of the accessibility modules are two models of one object: each leaves the other's fields out, and shutdown of one stands for shutdown of both.
- `catch` paths of `realize_lazy_fixed_extent_range`, element types other than the list's own child type, and the render objects of the elements.
- `TimelineRecorder` begin, snapshot sorting and the Chrome trace; the clock is a parameter.
- Native Wayland, pointer, keyboard and repeat helpers of `wayland.cpp`.
- Timeline spans and the waiting of `wait_idle` in the raster thread; validity of a submission is a parameter.
- Inspector, HTML report, dump functions, animation, box layout, template view protocols, coroutines and `BuildOwner::flush`: formatting, type machinery or easy members.
