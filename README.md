# MyReact fiber scheduler, modelled in Dafny

MyReact is a small React-like library. `createElement` builds element
objects. A class extending `Component` queues updates through
`setState`. The fiber scheduler in `src/scheduler.js` runs in two phases:

- **Render phase.** It diffs the new element tree against the committed
  fiber tree one unit of work at a time, under an idle-time budget. This
  builds a new fiber generation linked to the old one through `alternate`,
  and collects an effect list. Deletions go on a separate list.
- **Commit phase.** It applies the deletions, then the effect list, to the
  platform's nodes.

`setProps` in `src/utils.js` diffs two prop objects onto one node.

The model keeps the heap the scheduler works on in arenas indexed by ids:
fibers, platform nodes, component instances and update queues. A fiber link
is an `Option` of an id. The four module variables (`deletions`,
`currentRoot`, `nextUnitOfWork`, `workInProgressRoot`) sit beside the
arenas in one `World` value.

There are two layers:

- **Specification functions.** Every routine is a function from a `World`
  to a `Run`: the new state, an outcome, and the routine's result. The
  outcome is one of:
  - `Normal`;
  - `Threw`, for a `TypeError` such as reading a field of `null` or
    `undefined`, or calling what is not a constructor;
  - `Hung`, for a loop the code never leaves.

  A link to an id the arena lacks (a dangling link) stands for no object
  the source can hold. Reading or writing through a dangling link throws.
  A test that only asks whether the link is truthy treats it as present
  and keeps it:
  - `performUnitOfWork` hands a `child` or `sibling` link on as the next
    unit of work (src/scheduler.js lines 52-53, 57-58), and `beginWork`
    throws on that unit;
  - `completeUnitOfWork` keeps a parent's dangling `firstEffect` (line
    74), and splices in a child list whose `lastEffect` dangles (lines
    77-81);
  - `updateHostText` and `updateHost` keep a dangling `stateNode` (lines
    124 and 131) and create no node for it.
- **The class `Scheduler.Scheduler`.** Its fields are the module variables
  and the arenas. Its methods update them in place, field by field, with
  the source's own loops, and each is proved to end in the state and outcome of its
  specification function.

The properties are lemmas about the specification functions.

Code the scheduler calls but does not contain is a `Hooks` value of three
total functions:

- a class's constructor, which gives the initial `state`;
- its `render`;
- the update queue's `forceUpdate`, which folds the pending updates into a
  state and leaves the queue as it chooses.

Platform nodes are values with attribute, property (event handler), style,
text and child-list fields. `appendChild` puts a node last, and
`removeChild` removes it.

## Model

| member | source | states |
|---|---|---|
| Values.Without | src/react.js:12-13 | after `delete obj[k]` the key is absent, and every other key keeps its presence and its value |
| Values.ToLower | src/utils.js:25 | no ASCII capital remains; each capital becomes its small letter at the same position, and every other character is kept |
| Values.ToLowerIdempotent | src/utils.js:25 | lowercasing a lowercased key changes nothing |
| Values.IndexKeyRoundTrip | src/utils.js:28 | the key `for..in` gives an array or string index is its decimal numeral, which reads back as the index |
| Values.TypeFrom | src/scheduler.js:184-194 | a string `type` names a tag, a function is a component, ELEMENT_TEXT marks text, and any other value is no type; for those four kinds of value, reading the type back gives the value |
| Values.EnumEntriesFacts | src/utils.js:28 | the keys `for..in` and spread enumerate: an array's or string's indices, in order, with the items or one-character strings; an element's `type` and `props`; nothing for other primitives; the keys of any non-object are distinct |
| Platform.RemoveChild | src/scheduler.js:327 | the removed node no longer occurs among the children, and every other child still does |
| Utils.SetProp | src/utils.js:23-35 | the node after `setProp`: an `on..` key is stored as the property named by the lowercased key; a truthy style value is assigned entry by entry in the `for..in` of line 28, over an object's keys, an array's or string's indices or an element's fields; any other key becomes an attribute |
| Utils.SetProps | src/utils.js:1-21 | the node after `setProps` is the node with every call of `DiffOps` applied in order: first the old keys, then the new keys the old props lack |
| Utils.SetPropsOldPass | src/utils.js:2-12 | the first loop leaves the node with the old-key operations of `DiffOps` applied: each old key other than `children` is set from the new props or removed |
| Utils.SetPropsNewPass | src/utils.js:13-20 | the second loop continues from the node the first produced and applies, in order, a set for each new key the old props lack |
| Utils.OldPassFacts | src/utils.js:2-12 | the first loop makes one call per non-`children` old key: `setProp` with the new value when the new props have the key, `removeAttribute` otherwise |
| Utils.NewPassFacts | src/utils.js:13-20 | the second loop makes one `setProp` per non-`children` new key that the old props lack |
| Utils.DiffOpsSpec | src/utils.js:1-21 | each key of the union of old and new props, except `children`, is acted on exactly once. A key the new props hold is set to its new value, even when the value is unchanged. A key only the old props hold gets `removeAttribute` |
| Utils.SetPropsSkipsChildren | src/utils.js:3-14 | the node's `children` attribute is left exactly as it was |
| Utils.SetPropsPlainKey | src/utils.js:4-17 | a plain key's attribute ends as the new props say: set to the new value, or removed when only the old props had it; untouched when neither had it |
| Utils.SetPropsRemovedHandlerKept | src/utils.js:8-9 | an event key dropped from the props gets `removeAttribute`, and the handler stored under its lowercased name stays |
| Utils.SetPropsHandlerStored | src/utils.js:24-25 | a new event key's handler is stored as the node property named by the lowercased key, never as an attribute |
| Utils.SetPropsRemovedStyleKept | src/utils.js:8-9 | a `style` key dropped from the props removes the `style` attribute and leaves the style map as it was |
| Utils.SetPropStyleIndexed | src/utils.js:26-31 | a non-empty string or an array as `style` writes each character or item under its index key, leaving attributes, properties and the other style keys as they were |
| Utils.AssignStyleSpec | src/utils.js:26-31 | every entry of the style object is written, and style entries the object does not mention stay |
| React.ComponentClass | src/react.js:43 | a class extending `Component` has a prototype whose `isReactComponent` is truthy |
| React.NormalizeChildren | src/react.js:18-22 | same length and order; each object child, `null` included, passes through unchanged, and each other child becomes a text element whose props are exactly `text`, the child, and empty `children` |
| React.CreateElement | src/react.js:11-25 | a `null`/`undefined` config throws. Otherwise the element has the given type and every key the spread of the config enumerates except `__self`, `__source` and `children`. Its `children` are the mapped rest arguments, same length and order, with primitives wrapped as text elements. The caller's config loses `__self` and `__source` in place and keeps everything else |
| React.CreateElementSpreads | src/react.js:16-17 | spreading an array or string config puts each item or character in the props under its index key; spreading an element puts its `type` and `props` there |
| ReconcileFacts.NewChildFacts | src/scheduler.js:195-237 | one position's new fiber: UPDATE with the old fiber as alternate (recycled or cloned) for the same type; otherwise PLACEMENT with no state node and the classified tag. A mismatched old fiber is marked DELETION and pushed once. A falsy child gets no fiber, and no other fiber changes |
| ReconcileFacts.ReconcileChildrenFacts | src/scheduler.js:172-251 | exactly the truthy children get fibers, each with `return` set to the parent. They are `parent.child` and its `sibling` chain in child order, and `parent.child` is kept when none is made. Same-type positions become UPDATE fibers and the others PLACEMENT fibers. Exactly the mismatched old fibers below the new list's length are marked DELETION and pushed in order; old fibers past it are not touched |
| ReconcileOutcome.ReconcileChildrenOutcome | src/scheduler.js:172-251 | `reconcileChildren` returns normally exactly when no child is `null`, `undefined` or of a function type without a prototype, and no truthy child follows a falsy first child (line 245 then reads `sibling` of an undefined `prevSibling`) |
| ReconcileOutcome.StepOutcome | src/scheduler.js:180-248 | one position returns normally exactly when its child is accepted and, past position 0, a truthy child has a previous fiber to be linked to |
| Reconcile.ObjectAsElement | src/scheduler.js:183-231 | a plain object holding `type` and `props` gets the type, the props and the tag of the element it spells |
| ReconcileFacts.RecycledKeepsStaleLinks | src/scheduler.js:196-204 | a recycled alternate gets new props, `alternate`, `return` and UPDATE, but keeps its old effect links (line 202 writes `newEffect`), `child`, `sibling`, tag and `stateNode` |
| ReconcileFrame.ReconcileKept | src/scheduler.js:172-251 | reconciliation changes no platform node, instance, existing queue or root variable, only appends to `deletions`, and keeps every existing fiber's tag, type and `stateNode` |
| Effects.SpliceFacts | src/scheduler.js:74-82 | on well-formed, disjoint lists, the parent's effect list becomes its list followed by the child's |
| Effects.AppendSelfFacts | src/scheduler.js:84-93 | the parent's list gains the child at its end exactly when the child has an effect tag |
| Effects.CompleteSplices | src/scheduler.js:70-95 | `completeUnitOfWork` makes the parent's effect list its old list, then the child's list, then the child itself if it carries an effect tag, so descendants precede ancestors. Only the parent's list ends and the two lists' `nextEffect` links change |
| Effects.CompleteWithoutReturn | src/scheduler.js:71-72 | a fiber without `return` completes without any change |
| Work.CompleteKeepsSkeleton | src/scheduler.js:70-95 | completing a fiber writes effect-list fields only, never tree links, tags, props or state nodes |
| Work.WalkUpFollowsTree | src/scheduler.js:55-62 | the upward walk returns the unit, or fails in the way, that the tree links alone determine, although it completes fibers on the way |
| Work.TreeNextFinds | src/scheduler.js:55-62 | the unit the walk finds is the sibling of the nearest fiber, itself or an ancestor, that has one; `None` once the root is passed |
| Work.PerformNextUnit | src/scheduler.js:50-63 | `performUnitOfWork` returns the child `beginWork` left on the fiber. Otherwise it returns the sibling of the nearest fiber, itself or an ancestor, that has one, or `None` after the root. The upward walk changes only effect-list fields |
| WorkFacts.BeginWorkLeavesNodes | src/scheduler.js:105-154 | the render phase never changes an existing platform node, and changes no instance field other than `state` |
| WorkFacts.EnsureDomFacts | src/scheduler.js:123-134 | a host or text fiber without a state node gets one fresh node; a fiber with a state node keeps it and nothing changes |
| WorkFacts.InstantiateFacts | src/scheduler.js:140-145 | a first visit constructs one fresh instance from the fiber's class and props, linked to the fiber both ways. A type that is not a constructor throws, and later visits construct nothing |
| WorkFacts.RenderClassFacts | src/scheduler.js:147-153 | the pending updates are folded into the instance's state, the queue keeps what the fold leaves, no platform node changes and the fiber keeps its instance. Without an instance or a queue it throws with nothing changed |
| WorkFacts.CreatedElement | src/scheduler.js:156-164 | a created element has the fiber's type name, no children, and exactly the plain props as attributes with their values; it has no `children` attribute |
| WorkFacts.BeginHostCreatesElement | src/scheduler.js:129-134 | a host fiber's first visit creates one such element, which becomes its `stateNode` |
| Commit.HostParent | src/scheduler.js:284-291 | the upward search ends only at a fiber tagged host, root or text |
| Commit.PlacementTarget | src/scheduler.js:295-299 | the fiber placed is always one backed by a platform node |
| Commit.CommitDeletion | src/scheduler.js:325-331 | deletion writes platform nodes only, and changes nothing when it throws |
| CommitFacts.CommitWorkFacts | src/scheduler.js:282-323 | `commitWork` changes platform nodes and the fiber's own effect tag only, and nothing when it throws or hangs. On return the tag is cleared, except that DELETION returns early and stays set |
| CommitFacts.CommitTextWrite | src/scheduler.js:306-310 | an updated text fiber's node text is written exactly when its text differs from `alternate.props.text` |
| CommitFacts.CommitPlacementAppends | src/scheduler.js:293-300 | a placed fiber's node, or its first child's, is appended last to the nearest platform parent, and no other node changes |
| CommitFacts.CommitPlacementOfNestedComponentHangs | src/scheduler.js:297-299 | placing a fiber not backed by a node whose first child is not backed by one never returns, even when a deeper descendant has a node |
| CommitFacts.CommitDeletionRemovesOne | src/scheduler.js:325-331 | a deletion removes exactly one node: that of the first fiber backed by a node along `child` links from the deleted fiber |
| CommitFacts.CommitAllFacts | src/scheduler.js:271 | the queued deletions are committed in queue order, changing only nodes and effect tags |
| CommitFacts.CommitEffectsTrace | src/scheduler.js:272-276 | on a `null`-terminated effect list every fiber is committed once, in list order |
| CommitFacts.CommitRootOrder | src/scheduler.js:270-280 | `commitRoot` commits every queued deletion first, then the root's effect list in order; then `deletions` is empty, the work-in-progress root is `currentRoot`, and none is in progress |
| Overlap.OnBothLists | src/scheduler.js:172-251 | passing the committed root back to `schedulerRoot` when its one child is now `false`: after two units, the old child is on `deletions` and is also the root's whole effect list |
| Overlap.CommittedTwice | src/scheduler.js:270-276 | `commitRoot` of that state commits the old child twice, and the second `removeChild` is of a node already taken out of its parent |
| CommitFacts.CommitRootResets | src/scheduler.js:277-279 | after any commit that returns, nothing is pending for deletion, the former work-in-progress root is current, and fiber links, instances and queues are unchanged |
| Root.SchedulerRoot | src/scheduler.js:26-48 | `schedulerRoot` never loops |
| RootFacts.SchedulerRootStarts | src/scheduler.js:26-48 | on return, work starts at the work-in-progress root, whose effect list is empty, and after a commit that root's `alternate` is `currentRoot`. With neither a committed tree nor a given root it throws |
| RootFacts.SchedulerRootFirst | src/scheduler.js:42-44 | the first render uses the given root itself |
| RootFacts.SchedulerRootRecycles | src/scheduler.js:27-30 | `currentRoot.alternate` is recycled, pointed back at `currentRoot`, and given the new root's props only when one is passed; everything else it keeps |
| RootFacts.SchedulerRootAdopts | src/scheduler.js:32-35 | with no alternate, a given root becomes the work-in-progress root with `alternate` set to `currentRoot` |
| RootFacts.SchedulerRootCopies | src/scheduler.js:36-40 | with no alternate and no given root, a fresh shallow copy of `currentRoot` with `alternate = currentRoot` becomes the root |
| RootFacts.RenderLoopFacts | src/scheduler.js:256-261 | one unit per turn, starting with the pending one. The loop stops early only when no unit is left, and a unit that throws is the last one started |
| RootFacts.RenderLoopResumes | src/scheduler.js:256-261 | pausing after any unit and resuming later performs the same units and reaches the same state as one uninterrupted slice |
| RootFacts.WorkLoopCommitsFinished | src/scheduler.js:255-266 | `workLoop` commits only when no unit remains and a root is in progress, and then clears the root in progress. When it does not commit, work remains or no root is in progress |
| RootFacts.WorkLoopIdle | src/scheduler.js:262-265 | with nothing scheduled an idle callback changes nothing |
| RootFacts.SetStateFacts | src/react.js:33-40 | `setState` appends exactly the payload to its fiber's update queue and restarts work at a root. Before any commit it throws; without a fiber or a queue it throws with nothing changed |
| RootFacts.ComponentIsClass | src/react.js:43 | an element whose type extends `Component` gets a class fiber |
| RootFacts.ClassTagNeedsMarker | src/scheduler.js:188-194 | a child gets a class fiber exactly when it is an element whose function type has a prototype with a truthy `isReactComponent` |
| Scheduler.Scheduler.constructor | src/scheduler.js:22-25 | the initial module state: nothing committed, pending or in progress |
| Scheduler.Scheduler.StartAt | src/scheduler.js:45-46 | the root's effect links are cleared and it becomes the next unit of work |
| Scheduler.Scheduler.SchedulerRoot | src/scheduler.js:26-48 | in place, the state and outcome of `Root.SchedulerRoot` |
| Scheduler.Scheduler.ReconcileChildren | src/scheduler.js:172-251 | the loop over the new children ends in the state and fiber list of `Reconcile.ReconcileChildren` |
| Scheduler.Scheduler.QueueFor | src/scheduler.js:204 | the old fiber's queue, or a fresh empty one, as `Reconcile.QueueFor` |
| Scheduler.Scheduler.NewChildFiber | src/scheduler.js:195-237 | in place, the recycled, cloned or placed fiber and the deletion of a mismatched old fiber, as `Reconcile.NewChildFiber` |
| Scheduler.Scheduler.Link | src/scheduler.js:241-248 | in place, `parent.child` at position 0 and `prevSibling.sibling` after it, throwing without a previous fiber, as `Reconcile.Link` |
| Scheduler.Scheduler.ReconcileStep | src/scheduler.js:180-248 | one turn of the loop in place, ending in the state, outcome and cursor of `Reconcile.ReconcileStep` |
| Scheduler.Scheduler.ReconcileLoop | src/scheduler.js:179-249 | the `while` loop over the new children, from the old first child, ends in the state, outcome and fiber list of `Reconcile.ReconcileLoop` |
| Scheduler.Scheduler.CompleteUnitOfWork | src/scheduler.js:70-95 | in place, the state of `Effects.CompleteUnitOfWork` |
| Scheduler.Scheduler.ReconcileValue | src/scheduler.js:117-121 | reconciling a `props.children` value, as `Work.ReconcileValue`; `null` or `undefined` throws at line 179 |
| Scheduler.Scheduler.UpdateDom | src/scheduler.js:166-170 | only a node with `setAttribute` is diffed, by `Utils.SetProps` |
| Scheduler.Scheduler.EnsureDom | src/scheduler.js:123-127 | `createDOM` on a first visit, as `Work.EnsureDom` |
| Scheduler.Scheduler.Instantiate | src/scheduler.js:140-145 | the class is constructed only on a first visit and only when its type has a prototype; otherwise nothing changes and the call fails, as `Work.Instantiate` |
| Scheduler.Scheduler.RenderClass | src/scheduler.js:147-153 | the queue is folded into the instance state and the one rendered element reconciled, as `Work.RenderClass` |
| Scheduler.Scheduler.UpdateClass | src/scheduler.js:139-154 | construct on a first visit, fold the queue, render, reconcile; as `Work.UpdateClass` |
| Scheduler.Scheduler.BeginWork | src/scheduler.js:105-115 | dispatch on the tag, as `Work.BeginWork` |
| Scheduler.Scheduler.PerformUnitOfWork | src/scheduler.js:50-63 | the upward `while` loop ends in the state and next unit of `Work.PerformUnitOfWork` |
| Scheduler.Scheduler.WalkUp | src/scheduler.js:55-62 | completing upwards stops at the first fiber with a sibling, which becomes the next unit, or leaves the root with none, as `Work.WalkUp` |
| Scheduler.Scheduler.FindHostParent | src/scheduler.js:284-291 | the loop finds the fiber `Commit.HostParent` names, which is tagged host, root or text |
| Scheduler.Scheduler.CommitDeletion | src/scheduler.js:325-331 | in place, the state of `Commit.CommitDeletion` |
| Scheduler.Scheduler.CommitWork | src/scheduler.js:282-323 | in place, the state and outcome of `Commit.CommitWork` |
| Scheduler.Scheduler.CommitDeletions | src/scheduler.js:271 | the `forEach` over `deletions`, as `Commit.CommitAll` |
| Scheduler.Scheduler.CommitEffects | src/scheduler.js:272-276 | the `while` loop along `nextEffect`, as `Commit.CommitEffects` |
| Scheduler.Scheduler.CommitRoot | src/scheduler.js:270-280 | in place, the state, outcome and order of `Commit.CommitRoot` |
| Scheduler.Scheduler.WorkLoop | src/scheduler.js:255-268 | the `while` loop under a turn budget, then the commit, as `Root.WorkLoop` |
| Scheduler.Scheduler.SetState | src/react.js:33-40 | enqueue and reschedule in place, as `Root.SetState` |

## Left out

- The browser. `document.createElement`, `createTextNode`, `appendChild`, `removeChild`, `setAttribute`, `removeAttribute` and `style` are abstract node operations. `appendChild` of a node that already has a parent does not detach it there. `removeChild` of a node that is not a child does not throw `NotFoundError`.
- Timing. `requestIdleCallback` and the deadline object are not modelled. `Root.WorkLoop` takes the number of times the time test passes. Re-registering the callback (line 267) is not modelled.
- `console.log` at src/scheduler.js:263.
- User code. A class's constructor, `render` and the update queue's `forceUpdate` are the functions of a `Hooks` value. Constructors and `render` cannot call back into the scheduler, so a `setState` from inside `render` is not modelled.
- src/updateQueue.js and src/constants.js are not part of this model. `enqueueUpdate` is modelled as appending the payload, and `forceUpdate` as an arbitrary fold. The tags are enumerations.
- src/index.js and src/react-dom.js are not part of this model. A root fiber is any fiber id passed to `schedulerRoot`.
- Loops and recursion over links the routine never writes (the walk up in `performUnitOfWork`, the parent search and the effect walk of the commit, `commitDeletion`) are cut off after one step more than there are fibers. That many steps repeat a fiber, so the loop would run forever: the result is `Hung`, or `Threw` (stack overflow) for `commitDeletion`. That such a loop really repeats forever is argued here, not proved.
- Work.TypeName: a host fiber's type is always a string; for any other type the model uses the name `""`.
- Reconcile.PropsOf: a child with no `props`, or with `props` `null` (a plain object without the key, a string, a number), gets the empty props, where the source keeps `undefined` or `null`. A host or text fiber made from a plain object without props then reads `children` or `text` as `undefined` where the source throws at line 135 or 158.
- Reconcile.TypeOf: a `type` that is neither a string, a function nor ELEMENT_TEXT (a number, an object) is read as no type, as `undefined` is, so at line 183 any two of these compare equal even when they are not `===`.
- Work.ChildrenOf: a `props.children` value that is an object with a `length` property, or a function, is treated as a list with no items.
- Values.ToLower: folds only the ASCII capitals `A`..`Z`. `toLowerCase` also folds other capitals (`É` to `é`), and some characters (`İ`) lowercase to two code units, so the source does not always keep the length.
- Dangling links. In the source an object link is never dangling, so what the model does with an id the arena lacks has no counterpart there. The model throws where the source would read or write through the link, and keeps the link where the source only asks whether it is truthy (src/scheduler.js lines 52, 57, 74, 77, 124 and 131). Where such a truthiness check is followed by a read or write through the same link (lines 27-33, 72, 78, 87, 183, 273 and 283), the model throws at the check. Its state after the throw then misses the writes the source makes in between: the assignment to `workInProgressRoot` at line 28 or 44, and the `alternate` written at line 29.
- Value comparison `!==` (the text check at line 308) is structural, not by identity.
- Commit.CommitWork: a class fiber whose `stateNode` would be a platform node cannot arise, and is not distinguished.

Behaviour of the code as written that the model keeps, and that the lemmas above expose:

- Line 298 reads `currentFiber.child` on every turn. Placing a fiber that is not backed by a node, whose first child is not backed by one either (a class component rendering a class component), never returns.
- Line 202 writes `newEffect`. A recycled alternate keeps its old `nextEffect`, `child`, `sibling`, tag and `stateNode`. A stale `nextEffect` on the last fiber of an effect list extends the commit walk past the list's end.
- The loop at line 179 runs over the new children only. Old children past the new list's length are never marked DELETION.
- `commitDeletion` follows only `child`. Deleting a component whose first rendered node has siblings removes the first node only.
- A falsy first child followed by a truthy one throws at line 245, since `prevSibling` is undefined (`ReconcileOutcome.ReconcileChildrenOutcome`). When every child is falsy, `parent.child` keeps its old value.
- Passing the committed root back to `schedulerRoot` makes it its own alternate. When its children are then all falsy, the old child is both pushed onto `deletions` and, still `parent.child`, walked and appended to the effect list with tag DELETION, so `commitRoot` commits it twice (`Overlap.CommittedTwice`); the browser would throw `NotFoundError` at the second `removeChild`.
- The scheduler never updates an instance's `props`, so `render` sees the props the instance was constructed with.
