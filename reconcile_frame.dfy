/**
 * What `reconcileChildren` (src/scheduler.js:172-251) leaves alone: it never
 * touches platform nodes, component instances, existing update queues or the
 * root variables, and it keeps the tag, type and `stateNode` of every fiber
 * that existed before.
 */
module ReconcileFrame {
  import opened Wrappers
  import opened Values
  import opened Fibers
  import opened Reconcile

  /** The fields of a fiber that reconciliation never writes. */
  function Core(f: Fiber): (Option<Tag>, ElemType, StateNode)
  {
    (f.tag, f.typ, f.stateNode)
  }

  /** From `w` to `w'`: only fibers, new queues, deletions and the id counter moved on. */
  predicate Kept(w: World, w': World)
  {
    && Fresh(w')
    && w.serial <= w'.serial
    && w.fibers.Keys <= w'.fibers.Keys
    && (forall x :: x in w.fibers ==> Core(w'.fibers[x]) == Core(w.fibers[x]))
    && w.queues.Keys <= w'.queues.Keys
    && (forall q :: q in w.queues ==> w'.queues[q] == w.queues[q])
    && w'.nodes == w.nodes && w'.instances == w.instances
    && w.deletions <= w'.deletions
    && w'.currentRoot == w.currentRoot
    && w'.nextUnitOfWork == w.nextUnitOfWork
    && w'.workInProgressRoot == w.workInProgressRoot
  }

  lemma KeptRefl(w: World)
    requires Fresh(w)
    ensures Kept(w, w)
  {
  }

  lemma KeptTrans(w: World, w1: World, w2: World)
    requires Kept(w, w1) && Kept(w1, w2)
    ensures Kept(w, w2)
  {
  }

  lemma SetFiberKept(w: World, id: FiberId, f: Fiber)
    requires Fresh(w) && id in w.fibers && Core(f) == Core(w.fibers[id])
    ensures Kept(w, SetFiber(w, id, f))
  {
  }

  lemma NewFiberKept(w: World, f: Fiber)
    requires Fresh(w)
    ensures Kept(w, NewFiber(w, f).0)
  {
  }

  lemma QueueKept(w: World, q: Option<QueueId>)
    requires Fresh(w)
    ensures Kept(w, QueueFor(w, q).0)
  {
  }

  lemma MarkDeletedKept(w: World, o: FiberId)
    requires Fresh(w) && o in w.fibers
    ensures Kept(w, MarkDeleted(w, o))
  {
  }

  lemma NewChildKept(w: World, parent: FiberId, child: Value, oldFiber: Option<FiberId>, sameType: bool, tag: Option<Tag>)
    requires Fresh(w)
    requires oldFiber.Some? ==> oldFiber.value in w.fibers
    requires sameType ==> oldFiber.Some?
    ensures Kept(w, NewChildFiber(w, parent, child, oldFiber, sameType, tag).w)
  {
    var r := NewChildFiber(w, parent, child, oldFiber, sameType, tag);
    if sameType {
      var o := oldFiber.value;
      var of := w.fibers[o];
      var wq := QueueFor(w, of.updateQueue);
      QueueKept(w, of.updateQueue);
      if of.alternate.Some? {
        var a := of.alternate.value;
        if a in w.fibers {
          var nf := wq.0.fibers[a].(props := PropsOf(child), alternate := Some(o), effectTag := Update,
                                    ret := Some(parent), updateQueue := Some(wq.1));
          SetFiberKept(wq.0, a, nf);
          KeptTrans(w, wq.0, r.w);
        } else {
          KeptRefl(w);
        }
      } else {
        NewFiberKept(wq.0, CloneFiber(of, o, parent, PropsOf(child), wq.1));
        KeptTrans(w, wq.0, r.w);
      }
    } else {
      var placed :=
        if Truthy(child) then
          var wq := NewQueue(w);
          var wf := NewFiber(wq.0, PlacedFiber(tag, child, parent, wq.1));
          (wf.0, Some(wf.1))
        else (w, None);
      if Truthy(child) {
        var wq := NewQueue(w);
        QueueKept(w, None);
        NewFiberKept(wq.0, PlacedFiber(tag, child, parent, wq.1));
        KeptTrans(w, wq.0, placed.0);
      } else {
        KeptRefl(w);
      }
      if oldFiber.Some? {
        MarkDeletedKept(placed.0, oldFiber.value);
        KeptTrans(w, placed.0, r.w);
      }
    }
  }

  lemma LinkKept(w: World, parent: FiberId, i: nat, prev: Option<FiberId>, nf: FiberId)
    requires Fresh(w)
    ensures Kept(w, Link(w, parent, i, prev, nf).w)
  {
    if i == 0 {
      if parent in w.fibers {
        SetFiberKept(w, parent, w.fibers[parent].(child := Some(nf)));
      } else {
        KeptRefl(w);
      }
    } else if prev.Some? && prev.value in w.fibers {
      SetFiberKept(w, prev.value, w.fibers[prev.value].(sibling := Some(nf)));
    } else {
      KeptRefl(w);
    }
  }

  lemma StepKept(w: World, parent: FiberId, kids: seq<Value>, i: nat, oldFiber: Option<FiberId>, prev: Option<FiberId>)
    requires Fresh(w) && i < |kids|
    ensures Kept(w, ReconcileStep(w, parent, kids, i, oldFiber, prev).w)
  {
    var child := kids[i];
    if !(child.Null? || child.Undefined?) && !ClassifyTag(child).NoPrototypeError?
       && !(oldFiber.Some? && oldFiber.value !in w.fibers) {
      var sameType := oldFiber.Some? && Truthy(child) && w.fibers[oldFiber.value].typ == TypeOf(child);
      var m := NewChildFiber(w, parent, child, oldFiber, sameType, ClassifyTag(child).tag);
      NewChildKept(w, parent, child, oldFiber, sameType, ClassifyTag(child).tag);
      if m.outcome == Normal && m.value.Some? {
        LinkKept(m.w, parent, i, prev, m.value.value);
        KeptTrans(w, m.w, Link(m.w, parent, i, prev, m.value.value).w);
      }
    } else {
      KeptRefl(w);
    }
  }

  lemma {:induction false} LoopKept(w: World, parent: FiberId, kids: seq<Value>, i: nat, oldFiber: Option<FiberId>, prev: Option<FiberId>)
    requires Fresh(w)
    ensures Kept(w, ReconcileLoop(w, parent, kids, i, oldFiber, prev).w)
    decreases |kids| - i
  {
    if i >= |kids| {
      KeptRefl(w);
    } else {
      var s := ReconcileStep(w, parent, kids, i, oldFiber, prev);
      StepKept(w, parent, kids, i, oldFiber, prev);
      if s.outcome == Normal {
        LoopKept(s.w, parent, kids, i + 1, s.value.oldFiber, s.value.prev);
        KeptTrans(w, s.w, ReconcileLoop(s.w, parent, kids, i + 1, s.value.oldFiber, s.value.prev).w);
      }
    }
  }

  /**
   * `reconcileChildren` writes fibers, allocates fibers and queues, and
   * pushes deletions; nothing else of the state changes, and no existing
   * fiber changes its tag, type or `stateNode`.
   */
  lemma ReconcileKept(w: World, parent: FiberId, kids: seq<Value>)
    requires Fresh(w)
    ensures Kept(w, ReconcileChildren(w, parent, kids).w)
  {
    if parent in w.fibers {
      var alt := w.fibers[parent].alternate;
      if !(alt.Some? && alt.value !in w.fibers) {
        var oldFiber := if alt.Some? then w.fibers[alt.value].child else None;
        if !(oldFiber.Some? && oldFiber.value !in w.fibers) {
          var w1 := if oldFiber.Some? then SetFiber(w, oldFiber.value, ResetEffects(w.fibers[oldFiber.value])) else w;
          assert Kept(w, w1);
          LoopKept(w1, parent, kids, 0, oldFiber, None);
          KeptTrans(w, w1, ReconcileLoop(w1, parent, kids, 0, oldFiber, None).w);
          return;
        }
      }
    }
    KeptRefl(w);
  }
}
