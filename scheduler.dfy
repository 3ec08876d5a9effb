/**
 * The module state of src/scheduler.js and the routines that update it in
 * place. The four module variables and the heap objects they reach (fibers,
 * platform nodes, instances, update queues) are fields of one object; each
 * method changes them as the source does and is proved to end in the state,
 * and with the outcome, of the function of the same name that the lemmas
 * of the other modules are about.
 */
module Scheduler {
  import opened Wrappers
  import opened Values
  import opened Platform
  import Utils
  import opened Fibers
  import Reconcile
  import ReconcileFacts
  import Effects
  import Work
  import Commit
  import CommitFacts
  import Root

  class Scheduler {
    var fibers: map<FiberId, Fiber>
    var nodes: map<NodeId, PNode>
    var instances: map<InstId, Instance>
    var queues: map<QueueId, seq<Value>>
    var deletions: seq<FiberId>
    var currentRoot: Option<FiberId>
    var nextUnitOfWork: Option<FiberId>
    var workInProgressRoot: Option<FiberId>
    var serial: nat

    /** Everything the scheduler can reach, as a value. */
    function State(): World
      reads this
    {
      World(fibers, nodes, instances, queues, deletions, currentRoot, nextUnitOfWork, workInProgressRoot, serial)
    }

    /** Lines 22-25: nothing rendered, nothing pending. */
    constructor()
      ensures State() == EmptyWorld()
    {
      fibers, nodes, instances, queues := map[], map[], map[], map[];
      deletions := [];
      currentRoot, nextUnitOfWork, workInProgressRoot := None, None, None;
      serial := 0;
    }

    /** Empty the root's effect list and start work at the root (lines 45-46). */
    method StartAt(root: FiberId)
      requires root in fibers
      modifies this
      ensures State() == Root.StartAt(old(State()), root)
    {
      workInProgressRoot := Some(root);
      fibers := fibers[root := fibers[root].(firstEffect := None, nextEffect := None, lastEffect := None)];
      nextUnitOfWork := workInProgressRoot;
    }

    /** `schedulerRoot(rootFiber)` (lines 26-48). */
    method SchedulerRoot(rootFiber: Option<FiberId>) returns (outcome: Outcome)
      modifies this
      ensures var r := Root.SchedulerRoot(old(State()), rootFiber);
        State() == r.w && outcome == r.outcome
    {
      if currentRoot.None? {
        if rootFiber.None? {
          // `workInProgressRoot = rootFiber`, then the reset reads a field of it
          workInProgressRoot := None;
          return Threw;
        } else if rootFiber.value !in fibers {
          return Threw;
        }
        StartAt(rootFiber.value);
        return Normal;
      }
      var cr := currentRoot.value;
      if cr !in fibers {
        return Threw;
      }
      if fibers[cr].alternate.Some? {
        var a := fibers[cr].alternate.value;
        if a !in fibers || (rootFiber.Some? && rootFiber.value !in fibers) {
          return Threw;
        }
        fibers := fibers[a := fibers[a].(alternate := Some(cr))];
        if rootFiber.Some? {
          fibers := fibers[a := fibers[a].(props := fibers[rootFiber.value].props)];
        }
        StartAt(a);
      } else if rootFiber.Some? {
        var rf := rootFiber.value;
        if rf !in fibers {
          return Threw;
        }
        fibers := fibers[rf := fibers[rf].(alternate := Some(cr))];
        StartAt(rf);
      } else {
        var copy := serial;
        fibers := fibers[copy := fibers[cr].(alternate := Some(cr))];
        serial := serial + 1;
        StartAt(copy);
      }
      return Normal;
    }

    /** `reconcileChildren(parent, kids)` (lines 172-251); `made` lists the fiber made at each position. */
    method ReconcileChildren(parent: FiberId, kids: seq<Value>) returns (outcome: Outcome, made: seq<Option<FiberId>>)
      modifies this
      ensures var r := Reconcile.ReconcileChildren(old(State()), parent, kids);
        State() == r.w && outcome == r.outcome && made == r.value
    {
      made := [];
      if parent !in fibers {
        return Threw, made;
      }
      var alt := fibers[parent].alternate;
      if alt.Some? && alt.value !in fibers {
        return Threw, made;
      }
      var oldFiber := if alt.Some? then fibers[alt.value].child else None;
      if oldFiber.Some? {
        if oldFiber.value !in fibers {
          return Threw, made;
        }
        fibers := fibers[oldFiber.value := Reconcile.ResetEffects(fibers[oldFiber.value])];
      }
      outcome, made := ReconcileLoop(parent, kids, oldFiber);
    }

    /** `oldFiber.updateQueue || new UpdateQueue()`. */
    method QueueFor(q: Option<QueueId>) returns (id: QueueId)
      modifies this
      ensures var r := Reconcile.QueueFor(old(State()), q);
        State() == r.0 && id == r.1
    {
      if q.Some? {
        return q.value;
      }
      id := serial;
      queues := queues[id := []];
      serial := serial + 1;
    }

    /**
     * Lines 195-237: the new fiber for one position (the old fiber's
     * alternate recycled, a clone, a placed fiber, or none for a falsy
     * child) and the deletion of a mismatched old fiber.
     */
    method NewChildFiber(parent: FiberId, child: Value, oldFiber: Option<FiberId>, sameType: bool, tag: Option<Tag>)
      returns (outcome: Outcome, made: Option<FiberId>)
      requires oldFiber.Some? ==> oldFiber.value in fibers
      requires sameType ==> oldFiber.Some?
      modifies this
      ensures var r := Reconcile.NewChildFiber(old(State()), parent, child, oldFiber, sameType, tag);
        State() == r.w && outcome == r.outcome && made == r.value
    {
      if sameType {
        var o := oldFiber.value;
        if fibers[o].alternate.Some? {
          var a := fibers[o].alternate.value;
          if a !in fibers {
            return Threw, None;
          }
          var q := QueueFor(fibers[o].updateQueue);
          fibers := fibers[a := fibers[a].(props := Reconcile.PropsOf(child), alternate := Some(o), effectTag := Update,
                                          ret := Some(parent), updateQueue := Some(q))];
          return Normal, Some(a);
        }
        var q := QueueFor(fibers[o].updateQueue);
        var id := serial;
        fibers := fibers[id := Reconcile.CloneFiber(fibers[o], o, parent, Reconcile.PropsOf(child), q)];
        serial := serial + 1;
        return Normal, Some(id);
      }
      made := None;
      if Truthy(child) {
        var q := serial;
        queues := queues[q := []];
        serial := serial + 1;
        var id := serial;
        fibers := fibers[id := Reconcile.PlacedFiber(tag, child, parent, q)];
        serial := serial + 1;
        made := Some(id);
      }
      if oldFiber.Some? {
        var o := oldFiber.value;
        fibers := fibers[o := fibers[o].(effectTag := Deletion)];
        deletions := deletions + [o];
      }
      outcome := Normal;
    }

    /** Lines 238-248: the new fiber becomes `parent.child` at position 0, else `prevSibling.sibling`. */
    method Link(parent: FiberId, i: nat, prev: Option<FiberId>, nf: FiberId) returns (outcome: Outcome)
      modifies this
      ensures var r := Reconcile.Link(old(State()), parent, i, prev, nf);
        State() == r.w && outcome == r.outcome
    {
      if i == 0 {
        if parent !in fibers {
          return Threw;
        }
        fibers := fibers[parent := fibers[parent].(child := Some(nf))];
      } else {
        if prev.None? || prev.value !in fibers {
          return Threw;
        }
        fibers := fibers[prev.value := fibers[prev.value].(sibling := Some(nf))];
      }
      outcome := Normal;
    }

    /** One turn of the loop at line 179, for position `i`. */
    method ReconcileStep(parent: FiberId, kids: seq<Value>, i: nat, oldFiber: Option<FiberId>, prev: Option<FiberId>)
      returns (outcome: Outcome, c: Reconcile.Cursor)
      requires i < |kids|
      modifies this
      ensures var r := Reconcile.ReconcileStep(old(State()), parent, kids, i, oldFiber, prev);
        State() == r.w && outcome == r.outcome && c == r.value
    {
      var child := kids[i];
      if child.Null? || child.Undefined? || Reconcile.ClassifyTag(child).NoPrototypeError?
         || (oldFiber.Some? && oldFiber.value !in fibers) {
        return Threw, Reconcile.Cursor(oldFiber, prev, None);
      }
      var sameType := oldFiber.Some? && Truthy(child) && fibers[oldFiber.value].typ == Reconcile.TypeOf(child);
      var made;
      outcome, made := NewChildFiber(parent, child, oldFiber, sameType, Reconcile.ClassifyTag(child).tag);
      if outcome != Normal {
        return outcome, Reconcile.Cursor(oldFiber, prev, None);
      }
      var nextOld := if oldFiber.Some? then fibers[oldFiber.value].sibling else None;
      if made.None? {
        return Normal, Reconcile.Cursor(nextOld, prev, None);
      }
      outcome := Link(parent, i, prev, made.value);
      if outcome != Normal {
        return outcome, Reconcile.Cursor(nextOld, prev, None);
      }
      c := Reconcile.Cursor(nextOld, made, made);
    }

    /** The loop at line 179, over every position from the first, starting at the old chain's head. */
    method ReconcileLoop(parent: FiberId, kids: seq<Value>, oldHead: Option<FiberId>)
      returns (outcome: Outcome, made: seq<Option<FiberId>>)
      modifies this
      ensures var r := Reconcile.ReconcileLoop(old(State()), parent, kids, 0, oldHead, None);
        State() == r.w && outcome == r.outcome && made == r.value
    {
      ghost var target := Reconcile.ReconcileLoop(State(), parent, kids, 0, oldHead, None);
      made := [];
      var oldFiber, prev: Option<FiberId> := oldHead, None;
      var i := 0;
      assert made + target.value == target.value;
      while i < |kids|
        invariant 0 <= i <= |kids|
        invariant var rest := Reconcile.ReconcileLoop(State(), parent, kids, i, oldFiber, prev);
          target == Run(rest.w, rest.outcome, made + rest.value)
        decreases |kids| - i
      {
        ghost var before := State();
        ReconcileFacts.LoopUnfold(before, parent, kids, i, oldFiber, prev);
        ReconcileFacts.LoopStops(before, parent, kids, i, oldFiber, prev);
        var stepOutcome, c := ReconcileStep(parent, kids, i, oldFiber, prev);
        if stepOutcome != Normal {
          assert made + [] == made;
          return stepOutcome, made;
        }
        ReconcileFacts.SnocAppend(made, c.made, Reconcile.ReconcileLoop(State(), parent, kids, i + 1, c.oldFiber, c.prev).value);
        made := made + [c.made];
        oldFiber, prev := c.oldFiber, c.prev;
        i := i + 1;
      }
      assert made + [] == made;
      outcome := Normal;
    }

    /** `completeUnitOfWork(c)` (lines 70-95). */
    method CompleteUnitOfWork(c: FiberId) returns (outcome: Outcome)
      modifies this
      ensures var r := Effects.CompleteUnitOfWork(old(State()), c);
        State() == r.w && outcome == r.outcome
    {
      if c !in fibers {
        return Threw;
      }
      var ret := fibers[c].ret;
      if ret.None? {
        return Normal;
      }
      if ret.value !in fibers {
        return Threw;
      }
      var p := ret.value;
      if fibers[p].firstEffect.None? {
        fibers := fibers[p := fibers[p].(firstEffect := fibers[c].firstEffect)];
      }
      if fibers[c].lastEffect.Some? {
        var last := fibers[p].lastEffect;
        if last.Some? {
          if last.value !in fibers {
            return Threw;
          }
          fibers := fibers[last.value := fibers[last.value].(nextEffect := fibers[c].firstEffect)];
        }
        fibers := fibers[p := fibers[p].(lastEffect := fibers[c].lastEffect)];
      }
      if fibers[c].effectTag != NoEffect {
        var last := fibers[p].lastEffect;
        if last.Some? {
          if last.value !in fibers {
            return Threw;
          }
          fibers := fibers[last.value := fibers[last.value].(nextEffect := Some(c))];
        } else {
          fibers := fibers[p := fibers[p].(firstEffect := Some(c))];
        }
        fibers := fibers[p := fibers[p].(lastEffect := Some(c))];
      }
      return Normal;
    }

    /** `reconcileChildren` on a `props.children` value: a value with no length throws at line 179. */
    method ReconcileValue(parent: FiberId, children: Value) returns (outcome: Outcome)
      modifies this
      ensures var r := Work.ReconcileValue(old(State()), parent, children);
        State() == r.w && outcome == r.outcome
    {
      var kids := Work.ChildrenOf(children);
      if kids.Some? {
        var made;
        outcome, made := ReconcileChildren(parent, kids.value);
      } else {
        var made;
        outcome, made := ReconcileChildren(parent, []);
        if outcome == Normal {
          outcome := Threw;
        }
      }
    }

    /** `updateDOM(node, oldProps, newProps)` (lines 166-170). */
    method UpdateDom(n: NodeId, oldProps: Entries, newProps: Entries)
      requires n in nodes
      modifies this
      ensures State() == old(State()).(nodes := old(nodes)[n := Work.UpdateDom(old(nodes)[n], oldProps, newProps)])
    {
      if HasSetAttribute(nodes[n]) {
        var updated := Utils.SetProps(nodes[n], oldProps, newProps);
        nodes := nodes[n := updated];
      }
    }

    /** Lines 125-127 and 130-133 with `createDOM` (lines 156-164). */
    method EnsureDom(f: FiberId)
      requires f in fibers
      modifies this
      ensures State() == Work.EnsureDom(old(State()), f)
    {
      var fb := fibers[f];
      if fb.stateNode.NoStateNode? {
        var sn := NoStateNode;
        if fb.tag == Some(TagText) {
          nodes := nodes[serial := NewText(Get(fb.props, "text"))];
          sn := DomNode(serial);
          serial := serial + 1;
        } else if fb.tag == Some(TagHost) {
          nodes := nodes[serial := NewElement(Work.TypeName(fb.typ))];
          UpdateDom(serial, [], fb.props);
          sn := DomNode(serial);
          serial := serial + 1;
        }
        fibers := fibers[f := fb.(stateNode := sn)];
      }
    }

    /** Lines 140-145 of `updateClassComponent`: instantiate the class on a first visit. */
    method Instantiate(h: Hooks, f: FiberId) returns (ok: bool)
      requires f in fibers
      modifies this
      ensures var r := Work.Instantiate(old(State()), h, f);
        ok == r.Some? && (ok ==> State() == r.value) && (!ok ==> State() == old(State()))
    {
      var fb := fibers[f];
      if fb.stateNode.NoStateNode? {
        if !fb.typ.FuncType? || fb.typ.f.proto.NoPrototype? {
          return false;
        }
        instances := instances[serial := Instance(fb.typ.f, fb.props, h.construct(fb.typ.f, fb.props), f)];
        fibers := fibers[f := fb.(stateNode := InstanceNode(serial))];
        serial := serial + 1;
      }
      ok := true;
    }

    /** Lines 147-153 of `updateClassComponent`: fold the queue, render, reconcile. */
    method RenderClass(h: Hooks, f: FiberId) returns (outcome: Outcome)
      requires f in fibers
      modifies this
      ensures var r := Work.RenderClass(old(State()), h, f);
        State() == r.w && outcome == r.outcome
    {
      var sn := fibers[f].stateNode;
      var q := fibers[f].updateQueue;
      if !sn.InstanceNode? || sn.inst !in instances || q.None? || q.value !in queues {
        return Threw;
      }
      var inst := instances[sn.inst];
      var folded := h.fold(inst.state, queues[q.value]);
      instances := instances[sn.inst := inst.(state := folded.0)];
      queues := queues[q.value := folded.1];
      var made;
      outcome, made := ReconcileChildren(f, [h.render(inst.cls, inst.props, folded.0)]);
    }

    /** `updateClassComponent(fiber)` (lines 139-154); the class's code is `h`. */
    method UpdateClass(h: Hooks, f: FiberId) returns (outcome: Outcome)
      requires f in fibers
      modifies this
      ensures var r := Work.UpdateClass(old(State()), h, f);
        State() == r.w && outcome == r.outcome
    {
      var ok := Instantiate(h, f);
      if !ok {
        return Threw;
      }
      outcome := RenderClass(h, f);
    }

    /** `beginWork(fiber)` (lines 105-137): dispatch on the tag. */
    method BeginWork(h: Hooks, f: FiberId) returns (outcome: Outcome)
      modifies this
      ensures var r := Work.BeginWork(old(State()), h, f);
        State() == r.w && outcome == r.outcome
    {
      if f !in fibers {
        return Threw;
      }
      match fibers[f].tag
      case Some(TagRoot) =>
        outcome := ReconcileValue(f, Get(fibers[f].props, "children"));
      case Some(TagText) =>
        EnsureDom(f);
        outcome := Normal;
      case Some(TagHost) =>
        EnsureDom(f);
        outcome := ReconcileValue(f, Get(fibers[f].props, "children"));
      case Some(TagClass) =>
        outcome := UpdateClass(h, f);
      case None =>
        outcome := Normal;
    }

    /**
     * `performUnitOfWork(fiber)` (lines 50-63): begin the fiber, then go to
     * its child, or complete upwards until a fiber with a sibling. The walk
     * is cut off, as hung, after more steps than there are fibers.
     */
    method PerformUnitOfWork(h: Hooks, f: FiberId) returns (outcome: Outcome, next: Option<FiberId>)
      modifies this
      ensures var r := Work.PerformUnitOfWork(old(State()), h, f);
        State() == r.w && outcome == r.outcome && next == r.value
    {
      outcome := BeginWork(h, f);
      if outcome != Normal {
        return outcome, None;
      }
      if f in fibers && fibers[f].child.Some? {
        return Normal, fibers[f].child;
      }
      outcome, next := WalkUp(f);
    }

    /** Lines 55-62: complete the fiber and its ancestors in turn until one has a sibling. */
    method WalkUp(f: FiberId) returns (outcome: Outcome, next: Option<FiberId>)
      modifies this
      ensures var r := Work.WalkUp(old(State()), Some(f), Bound(old(State())));
        State() == r.w && outcome == r.outcome && next == r.value
    {
      ghost var target := Work.WalkUp(State(), Some(f), Bound(State()));
      var cur := Some(f);
      var fuel := Bound(State());
      while cur.Some?
        invariant Work.WalkUp(State(), cur, fuel) == target
        decreases fuel
      {
        if fuel == 0 {
          return Hung, None;
        }
        outcome := CompleteUnitOfWork(cur.value);
        if outcome != Normal || cur.value !in fibers {
          return (if outcome == Normal then Threw else outcome), None;
        }
        if fibers[cur.value].sibling.Some? {
          return Normal, fibers[cur.value].sibling;
        }
        cur := fibers[cur.value].ret;
        fuel := fuel - 1;
      }
      return Normal, None;
    }

    /**
     * Lines 284-291: climb `return` links to the first fiber tagged host,
     * root or text. Reads only; cut off, as hung, after more steps than
     * there are fibers.
     */
    method FindHostParent(start: Option<FiberId>) returns (outcome: Outcome, parent: Option<FiberId>)
      ensures (outcome, parent) == Commit.HostParent(State(), start, Bound(State()))
      ensures outcome == Normal ==> parent.Some? && parent.value in fibers && IsParentTag(fibers[parent.value].tag)
    {
      var cur := start;
      var fuel := Bound(State());
      while true
        invariant Commit.HostParent(State(), cur, fuel) == Commit.HostParent(State(), start, Bound(State()))
        decreases fuel
      {
        if cur.None? || cur.value !in fibers {
          return Threw, None;
        }
        if IsParentTag(fibers[cur.value].tag) {
          return Normal, cur;
        }
        if fuel == 0 {
          return Hung, None;
        }
        cur := fibers[cur.value].ret;
        fuel := fuel - 1;
      }
    }

    /** `commitDeletion(fiber, returnDOM)` (lines 325-331). */
    method CommitDeletion(c: Option<FiberId>, returnDom: StateNode, fuel: nat) returns (outcome: Outcome)
      modifies this
      ensures var r := Commit.CommitDeletion(old(State()), c, returnDom, fuel);
        State() == r.w && outcome == r.outcome
      decreases fuel
    {
      if c.None? || c.value !in fibers {
        return Threw;
      }
      var cf := fibers[c.value];
      if IsDomTag(cf.tag) {
        if !returnDom.DomNode? || returnDom.node !in nodes || !cf.stateNode.DomNode? {
          return Threw;
        }
        nodes := nodes[returnDom.node := RemoveChild(nodes[returnDom.node], cf.stateNode.node)];
        return Normal;
      }
      if fuel == 0 {
        return Threw;
      }
      outcome := CommitDeletion(cf.child, returnDom, fuel - 1);
    }

    /** `commitWork(fiber)` (lines 282-323). */
    method CommitWork(c: FiberId) returns (outcome: Outcome)
      modifies this
      ensures var r := Commit.CommitWork(old(State()), Some(c));
        State() == r.w && outcome == r.outcome
    {
      if c !in fibers {
        return Threw;
      }
      var cf := fibers[c];
      var found, parent := FindHostParent(cf.ret);
      if found != Normal {
        return found;
      }
      var returnDom := fibers[parent.value].stateNode;
      match cf.effectTag
      case Placement =>
        var target := Commit.PlacementTarget(State(), c);
        if target.0 != Normal {
          return target.0;
        }
        var sn := fibers[target.1.value].stateNode;
        if !returnDom.DomNode? || returnDom.node !in nodes || !sn.DomNode? {
          return Threw;
        }
        nodes := nodes[returnDom.node := AppendChild(nodes[returnDom.node], sn.node)];
        fibers := fibers[c := fibers[c].(effectTag := NoEffect)];
        return Normal;
      case Deletion =>
        outcome := CommitDeletion(Some(c), returnDom, Bound(State()));
      case Update =>
        if cf.alternate.None? || cf.alternate.value !in fibers {
          return Threw;
        }
        var alt := fibers[cf.alternate.value];
        if cf.typ == TextMarker {
          if Get(alt.props, "text") != Get(cf.props, "text") {
            match cf.stateNode
            case NoStateNode =>
              return Threw;
            case InstanceNode(_) =>
            case DomNode(n) =>
              if n !in nodes {
                return Threw;
              }
              nodes := nodes[n := nodes[n].(text := Get(cf.props, "text"))];
          }
        } else {
          match cf.stateNode
          case NoStateNode =>
            return Threw;
          case InstanceNode(_) =>
          case DomNode(n) =>
            if n !in nodes {
              return Threw;
            }
            UpdateDom(n, alt.props, cf.props);
        }
        fibers := fibers[c := fibers[c].(effectTag := NoEffect)];
        return Normal;
      case NoEffect =>
        fibers := fibers[c := fibers[c].(effectTag := NoEffect)];
        return Normal;
    }

    /** `deletions.forEach(commitWork)` (line 271); `trace` lists the fibers committed. */
    method CommitDeletions() returns (outcome: Outcome, trace: seq<FiberId>)
      modifies this
      ensures var r := Commit.CommitAll(old(State()), old(deletions));
        State() == r.w && outcome == r.outcome && trace == r.value
    {
      ghost var d := Commit.CommitAll(State(), deletions);
      var ds := deletions;
      trace := [];
      var i := 0;
      assert ds[0..] == ds && trace + d.value == d.value;
      while i < |ds|
        invariant 0 <= i <= |ds|
        invariant var rest := Commit.CommitAll(State(), ds[i..]);
          d == Run(rest.w, rest.outcome, trace + rest.value)
      {
        outcome := CommitWork(ds[i]);
        assert ds[i..][1..] == ds[i + 1..];
        if outcome != Normal {
          assert trace + [] == trace;
          return outcome, trace;
        }
        assert trace + ([ds[i]] + Commit.CommitAll(State(), ds[i + 1..]).value)
          == (trace + [ds[i]]) + Commit.CommitAll(State(), ds[i + 1..]).value;
        trace := trace + [ds[i]];
        i := i + 1;
      }
      assert trace + [] == trace;
      return Normal, trace;
    }

    /** Lines 272-276: `commitWork` along `nextEffect` links from `first`, cut off as hung after `fuel` fibers. */
    method CommitEffects(first: Option<FiberId>, fuel: nat) returns (outcome: Outcome, trace: seq<FiberId>)
      modifies this
      ensures var r := Commit.CommitEffects(old(State()), first, fuel);
        State() == r.w && outcome == r.outcome && trace == r.value
    {
      ghost var e := Commit.CommitEffects(State(), first, fuel);
      trace := [];
      var cur := first;
      var left := fuel;
      assert trace + e.value == e.value;
      while cur.Some?
        invariant var rest := Commit.CommitEffects(State(), cur, left);
          e.w == rest.w && e.outcome == rest.outcome && e.value == trace + rest.value
        decreases left
      {
        if left == 0 {
          assert trace + [] == trace;
          return Hung, trace;
        }
        if cur.value !in fibers {
          assert trace + [] == trace;
          return Threw, trace;
        }
        ghost var before := State();
        CommitFacts.CommitEffectsStep(before, cur.value, left);
        outcome := CommitWork(cur.value);
        if outcome != Normal {
          assert trace + [] == trace;
          return outcome, trace;
        }
        ghost var rest := Commit.CommitEffects(State(), fibers[cur.value].nextEffect, left - 1);
        assert trace + ([cur.value] + rest.value) == (trace + [cur.value]) + rest.value;
        trace := trace + [cur.value];
        cur := fibers[cur.value].nextEffect;
        left := left - 1;
      }
      assert trace + [] == trace;
      return Normal, trace;
    }

    /** `commitRoot()` (lines 270-280); `trace` lists the fibers committed, in order. */
    method CommitRoot() returns (outcome: Outcome, trace: seq<FiberId>)
      modifies this
      ensures var r := Commit.CommitRoot(old(State()));
        State() == r.w && outcome == r.outcome && trace == r.value
    {
      outcome, trace := CommitDeletions();
      if outcome != Normal {
        return;
      }
      if workInProgressRoot.None? || workInProgressRoot.value !in fibers {
        return Threw, trace;
      }
      var root := workInProgressRoot.value;
      var effects;
      outcome, effects := CommitEffects(fibers[root].firstEffect, Bound(State()));
      trace := trace + effects;
      if outcome != Normal {
        return;
      }
      deletions := [];
      currentRoot := Some(root);
      workInProgressRoot := None;
    }

    /**
     * `workLoop(deadline)` (lines 255-268): perform units while the deadline
     * allows, `turns` times at most, then commit a finished tree.
     * `committed` is the commit's trace, or `None` when nothing was committed.
     */
    method WorkLoop(h: Hooks, turns: nat) returns (outcome: Outcome, committed: Option<seq<FiberId>>)
      modifies this
      ensures var r := Root.WorkLoop(old(State()), h, turns);
        State() == r.w && outcome == r.outcome && committed == r.value
    {
      ghost var l := Root.RenderLoop(State(), h, turns);
      var t := turns;
      while t > 0 && nextUnitOfWork.Some?
        invariant var rest := Root.RenderLoop(State(), h, t);
          l.w == rest.w && l.outcome == rest.outcome
        decreases t
      {
        var next;
        outcome, next := PerformUnitOfWork(h, nextUnitOfWork.value);
        if outcome != Normal {
          return outcome, None;
        }
        nextUnitOfWork := next;
        t := t - 1;
      }
      if nextUnitOfWork.None? && workInProgressRoot.Some? {
        var trace;
        outcome, trace := CommitRoot();
        return outcome, Some(trace);
      }
      return Normal, None;
    }

    /** `Component.prototype.setState(payload)` (src/react.js:33-40) on instance `inst`. */
    method SetState(inst: InstId, payload: Value) returns (outcome: Outcome)
      modifies this
      ensures var r := Root.SetState(old(State()), inst, payload);
        State() == r.w && outcome == r.outcome
    {
      if inst !in instances {
        return Threw;
      }
      var f := instances[inst].internalFiber;
      if f !in fibers || fibers[f].updateQueue.None? || fibers[f].updateQueue.value !in queues {
        return Threw;
      }
      var q := fibers[f].updateQueue.value;
      queues := queues[q := queues[q] + [payload]];
      outcome := SchedulerRoot(None);
    }
  }
}
