/**
 * Which child lists `reconcileChildren` (src/scheduler.js lines 172-251)
 * gets through. Every position throws on a `null` or `undefined` child
 * (line 184 reads its `type`) and on a function type without a prototype
 * (line 191); a truthy child at a position past 0 is linked as
 * `prevSibling.sibling` (line 245), which throws while no fiber has been
 * made yet.
 */
module ReconcileOutcome {
  import opened Wrappers
  import opened Values
  import opened Fibers
  import opened Reconcile
  import opened ReconcileFacts

  /**
   * Positions `i ..` get through, `linked` saying whether a fiber was made
   * before position `i`.
   */
  predicate GetsThrough(kids: seq<Value>, i: nat, linked: bool)
    decreases |kids| - i
  {
    i >= |kids| ||
    (&& Accepted(kids[i])
     && (i > 0 && Truthy(kids[i]) ==> linked)
     && GetsThrough(kids, i + 1, linked || Truthy(kids[i])))
  }

  /**
   * The inputs that get through, stated outright: every child is accepted,
   * and no truthy child follows a falsy first child.
   */
  predicate ReconcilesNormally(kids: seq<Value>)
  {
    && (forall k :: 0 <= k < |kids| ==> Accepted(kids[k]))
    && (|kids| > 0 && !Truthy(kids[0]) ==> forall k :: 0 < k < |kids| ==> !Truthy(kids[k]))
  }

  /** `NewChildFiber` throws only when a recycled alternate is missing, and never loses a fiber. */
  lemma NewChildOutcome(w: World, parent: FiberId, child: Value, oldF: Option<FiberId>, sameType: bool, tag: Option<Tag>)
    requires oldF.Some? ==> oldF.value in w.fibers
    requires sameType ==> oldF.Some? && Truthy(child)
    requires sameType && w.fibers[oldF.value].alternate.Some? ==> w.fibers[oldF.value].alternate.value in w.fibers
    ensures var m := NewChildFiber(w, parent, child, oldF, sameType, tag);
      && m.outcome == Normal
      && w.fibers.Keys <= m.w.fibers.Keys
      && (m.value.Some? <==> Truthy(child))
  {
  }

  /**
   * One position returns normally exactly when its child is accepted and,
   * past position 0, a truthy child has a previous fiber to be linked to.
   */
  lemma StepOutcome(w: World, parent: FiberId, kids: seq<Value>, i: nat, oldF: Option<FiberId>, prev: Option<FiberId>)
    requires StepReady(w, parent, kids, i, oldF, prev)
    requires SameType(w, kids[i], oldF) && w.fibers[oldF.value].alternate.Some? ==>
      w.fibers[oldF.value].alternate.value in w.fibers
    ensures var s := ReconcileStep(w, parent, kids, i, oldF, prev);
      s.outcome == Normal <==> Accepted(kids[i]) && (i > 0 && Truthy(kids[i]) ==> prev.Some?)
  {
    var child := kids[i];
    if Accepted(child) {
      NewChildOutcome(w, parent, child, oldF, SameType(w, child, oldF), ClassifyTag(child).tag);
    }
  }

  /** From any state the loop invariant describes, the rest of the loop returns normally exactly when the rest gets through. */
  lemma {:induction false} LoopOutcome(w0: World, w: World, parent: FiberId, kids: seq<Value>, olds: seq<FiberId>,
                                       i: nat, oldF: Option<FiberId>, prev: Option<FiberId>, made: seq<Option<FiberId>>)
    requires LoopInv(w0, w, parent, kids, olds, i, oldF, prev, made)
    ensures ReconcileLoop(w, parent, kids, i, oldF, prev).outcome == Normal <==> GetsThrough(kids, i, prev.Some?)
    decreases |kids| - i
  {
    if i < |kids| {
      AtPosition(w0, w, parent, kids, olds, i, oldF, prev, made);
      if oldF.Some? {
        assert AltOk(w0, parent, olds, olds[i]);
      }
      StepOutcome(w, parent, kids, i, oldF, prev);
      var s := ReconcileStep(w, parent, kids, i, oldF, prev);
      if s.outcome == Normal {
        StepFactsA(w, parent, kids, i, oldF, prev);
        StepKeepsInv(w0, w, parent, kids, olds, i, oldF, prev, made);
        LoopOutcome(w0, s.w, parent, kids, olds, i + 1, s.value.oldFiber, s.value.prev, made + [s.value.made]);
        LoopUnfold(w, parent, kids, i, oldF, prev);
      } else {
        LoopStops(w, parent, kids, i, oldF, prev);
      }
    }
  }

  /** Once a fiber has been made, the rest gets through exactly when every remaining child is accepted. */
  lemma {:induction false} LinkedGetsThrough(kids: seq<Value>, i: nat)
    ensures GetsThrough(kids, i, true) <==> forall k :: i <= k < |kids| ==> Accepted(kids[k])
    decreases |kids| - i
  {
    if i < |kids| {
      LinkedGetsThrough(kids, i + 1);
    }
  }

  /** Before any fiber, past position 0, the rest gets through exactly when it is accepted and falsy throughout. */
  lemma {:induction false} UnlinkedGetsThrough(kids: seq<Value>, i: nat)
    requires i > 0
    ensures GetsThrough(kids, i, false) <==> forall k :: i <= k < |kids| ==> Accepted(kids[k]) && !Truthy(kids[k])
    decreases |kids| - i
  {
    if i < |kids| {
      UnlinkedGetsThrough(kids, i + 1);
    }
  }

  /** The closed form of `GetsThrough` from the start of the loop. */
  lemma GetsThroughFromStart(kids: seq<Value>)
    ensures GetsThrough(kids, 0, false) <==> ReconcilesNormally(kids)
  {
    if |kids| > 0 {
      if Truthy(kids[0]) {
        LinkedGetsThrough(kids, 1);
      } else {
        UnlinkedGetsThrough(kids, 1);
      }
    }
  }

  /**
   * `reconcileChildren`, for an old chain as `ReconcileChildrenFacts`
   * takes it, returns normally exactly when every child is neither `null`,
   * `undefined` nor a function type without a prototype, and no truthy
   * child follows a falsy first child (line 245 then reads
   * `prevSibling.sibling` of `undefined`).
   */
  lemma ReconcileChildrenOutcome(w: World, parent: FiberId, kids: seq<Value>, olds: seq<FiberId>)
    requires Generations(w, parent, olds)
    requires OldChain(w, OldHead(w, parent), olds)
    requires w.fibers[parent].alternate.Some? ==> w.fibers[parent].alternate.value in w.fibers
    ensures ReconcileChildren(w, parent, kids).outcome == Normal <==> ReconcilesNormally(kids)
  {
    ChildrenUnfold(w, parent, kids, olds);
    InitInv(w, parent, kids, olds);
    LoopOutcome(w, ResetHead(w, olds), parent, kids, olds, 0, OldAt(olds, 0), None, []);
    GetsThroughFromStart(kids);
  }
}
