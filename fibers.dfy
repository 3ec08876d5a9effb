/**
 * The state src/scheduler.js works on. Every object the scheduler mutates in
 * place lives in an arena indexed by an id: fibers, platform nodes, component
 * instances and update queues. A link is an `Option` of an id; following a
 * link to an id the arena lacks is reading a field of `undefined`, a
 * TypeError. The four module-level variables sit beside the arenas.
 */
module Fibers {
  import opened Wrappers
  import opened Values
  import opened Platform

  type FiberId = nat
  type InstId = nat
  type QueueId = nat

  /** TAG_ROOT, TAG_HOST, TAG_TEXT, TAG_CLASS; a fiber whose tag was never assigned has `None`. */
  datatype Tag = TagRoot | TagHost | TagText | TagClass

  /** PLACEMENT, UPDATE, DELETION; `NoEffect` is `null`/`undefined`. */
  datatype EffectTag = NoEffect | Placement | Update | Deletion

  /** What `stateNode` holds: nothing, a platform node, or a component instance. */
  datatype StateNode = NoStateNode | DomNode(node: NodeId) | InstanceNode(inst: InstId)

  /** A fiber object; `ret` is the field the source calls `return`. */
  datatype Fiber = Fiber(
    tag: Option<Tag>,
    typ: ElemType,
    props: Entries,
    stateNode: StateNode,
    child: Option<FiberId>,
    sibling: Option<FiberId>,
    ret: Option<FiberId>,
    alternate: Option<FiberId>,
    effectTag: EffectTag,
    firstEffect: Option<FiberId>,
    lastEffect: Option<FiberId>,
    nextEffect: Option<FiberId>,
    updateQueue: Option<QueueId>)

  /** A class component instance: `props` as passed to its constructor, `state`, and the fiber it was bound to. */
  datatype Instance = Instance(cls: FuncRef, props: Entries, state: Value, internalFiber: FiberId)

  /** Everything the scheduler reads and writes. `serial` hands out fresh ids. */
  datatype World = World(
    fibers: map<FiberId, Fiber>,
    nodes: map<NodeId, PNode>,
    instances: map<InstId, Instance>,
    queues: map<QueueId, seq<Value>>,
    deletions: seq<FiberId>,
    currentRoot: Option<FiberId>,
    nextUnitOfWork: Option<FiberId>,
    workInProgressRoot: Option<FiberId>,
    serial: nat)

  /** How a routine ended: it returned, it threw, or it would never return. */
  datatype Outcome = Normal | Threw | Hung

  /** The state after a routine ran, how it ended, and what it returned. */
  datatype Run<T> = Run(w: World, outcome: Outcome, value: T)

  /**
   * Code the scheduler calls but cannot see: a component class's constructor
   * (its initial `state`), its `render` (of the instance's `props` and
   * `state`), and the update queue's `forceUpdate`, which folds the pending
   * payloads into a state and leaves the queue with whatever it leaves.
   */
  datatype Hooks = Hooks(
    construct: (FuncRef, Entries) -> Value,
    render: (FuncRef, Entries, Value) -> Value,
    fold: (Value, seq<Value>) -> (Value, seq<Value>))

  /** The initial module state: nothing rendered, nothing pending. */
  function EmptyWorld(): World
  {
    World(map[], map[], map[], map[], [], None, None, None, 0)
  }

  /** Every id in use is below `serial`, so allocation never reuses one. */
  predicate Fresh(w: World)
  {
    (forall id :: id in w.fibers ==> id < w.serial)
    && (forall id :: id in w.nodes ==> id < w.serial)
    && (forall id :: id in w.instances ==> id < w.serial)
    && (forall id :: id in w.queues ==> id < w.serial)
  }

  /** A fiber with every field `undefined` except the ones an object literal sets. */
  function BareFiber(tag: Option<Tag>, typ: ElemType, props: Entries): Fiber
  {
    Fiber(tag, typ, props, NoStateNode, None, None, None, None, NoEffect, None, None, None, None)
  }

  /** `new UpdateQueue()`: a fresh empty queue. */
  function NewQueue(w: World): (World, QueueId)
  {
    (w.(queues := w.queues[w.serial := []], serial := w.serial + 1), w.serial)
  }

  /** Allocating a fiber object. */
  function NewFiber(w: World, f: Fiber): (World, FiberId)
  {
    (w.(fibers := w.fibers[w.serial := f], serial := w.serial + 1), w.serial)
  }

  /** Allocating a platform node. */
  function NewNode(w: World, n: PNode): (World, NodeId)
  {
    (w.(nodes := w.nodes[w.serial := n], serial := w.serial + 1), w.serial)
  }

  /** Allocating a component instance. */
  function NewInstance(w: World, i: Instance): (World, InstId)
  {
    (w.(instances := w.instances[w.serial := i], serial := w.serial + 1), w.serial)
  }

  /** Replacing one fiber object's fields. */
  function SetFiber(w: World, id: FiberId, f: Fiber): World
  {
    w.(fibers := w.fibers[id := f])
  }

  /** A fiber backed by a platform node (the tags `commitWork` stops at, minus the root). */
  predicate IsDomTag(t: Option<Tag>)
  {
    t == Some(TagHost) || t == Some(TagText)
  }

  /** The tags the upward search of `commitWork` stops at. */
  predicate IsParentTag(t: Option<Tag>)
  {
    t == Some(TagHost) || t == Some(TagRoot) || t == Some(TagText)
  }

  /** An iteration bound: a walk over links no step mutates that visits more fibers than exist repeats one, forever. */
  function Bound(w: World): nat
  {
    |w.fibers.Keys| + 1
  }
}
