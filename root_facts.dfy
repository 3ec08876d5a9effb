/**
 * Properties of scheduling: which root `schedulerRoot` starts from, that
 * the render phase can be paused and resumed at any unit, that `workLoop`
 * commits only a finished tree, and what `setState` queues.
 */
module RootFacts {
  import opened Wrappers
  import opened Values
  import opened Fibers
  import opened Reconcile
  import opened Work
  import opened Commit
  import opened CommitFacts
  import opened Root
  import React

  /**
   * Whenever `schedulerRoot` returns, work starts at the work-in-progress
   * root, whose effect list is empty; once a tree has been committed, the
   * new root points back at it through `alternate`. Nothing but fibers and
   * those two variables changes.
   */
  lemma SchedulerRootStarts(w: World, rootFiber: Option<FiberId>)
    requires Fresh(w)
    ensures var r := SchedulerRoot(w, rootFiber);
      && (w.currentRoot.None? && rootFiber.None? ==> r.outcome == Threw)
      && (r.outcome == Normal ==>
            && Fresh(r.w)
            && r.w.workInProgressRoot.Some?
            && r.w.nextUnitOfWork == r.w.workInProgressRoot
            && var root := r.w.workInProgressRoot.value;
               && root in r.w.fibers
               && r.w.fibers[root].firstEffect.None? && r.w.fibers[root].lastEffect.None?
               && r.w.fibers[root].nextEffect.None?
               && (w.currentRoot.Some? ==> r.w.fibers[root].alternate == w.currentRoot)
               && r.w == w.(fibers := r.w.fibers, workInProgressRoot := r.w.workInProgressRoot,
                            nextUnitOfWork := r.w.nextUnitOfWork, serial := r.w.serial))
  {
  }

  /** With a committed tree and no alternate, no given root: a fresh copy of the committed root is made. */
  lemma SchedulerRootCopies(w: World, cr: FiberId)
    requires Fresh(w) && w.currentRoot == Some(cr) && cr in w.fibers && w.fibers[cr].alternate.None?
    ensures var r := SchedulerRoot(w, None);
      && r.outcome == Normal
      && w.serial !in w.fibers
      && r.w.workInProgressRoot == Some(w.serial)
      && r.w.fibers == w.fibers[w.serial := w.fibers[cr].(alternate := Some(cr), firstEffect := None,
                                                           nextEffect := None, lastEffect := None)]
  {
  }

  /**
   * With a committed tree whose alternate exists, that alternate is the new
   * root: it takes the given root's props when one is given, and keeps
   * its own tag, child, sibling and `stateNode` from two renders ago.
   */
  lemma SchedulerRootRecycles(w: World, cr: FiberId, rootFiber: Option<FiberId>)
    requires w.currentRoot == Some(cr) && cr in w.fibers && w.fibers[cr].alternate.Some?
    requires w.fibers[cr].alternate.value in w.fibers
    requires rootFiber.Some? ==> rootFiber.value in w.fibers
    ensures var a := w.fibers[cr].alternate.value;
      var r := SchedulerRoot(w, rootFiber);
      && r.outcome == Normal
      && r.w.workInProgressRoot == Some(a)
      && r.w.fibers == w.fibers[a := w.fibers[a].(
           alternate := Some(cr),
           props := if rootFiber.Some? then w.fibers[rootFiber.value].props else w.fibers[a].props,
           firstEffect := None, nextEffect := None, lastEffect := None)]
  {
  }

  /** With a committed tree and no alternate, a given root becomes the new root, linked to the committed one. */
  lemma SchedulerRootAdopts(w: World, cr: FiberId, rf: FiberId)
    requires w.currentRoot == Some(cr) && cr in w.fibers && w.fibers[cr].alternate.None? && rf in w.fibers
    ensures var r := SchedulerRoot(w, Some(rf));
      && r.outcome == Normal
      && r.w.workInProgressRoot == Some(rf)
      && r.w.fibers == w.fibers[rf := w.fibers[rf].(alternate := Some(cr), firstEffect := None,
                                                     nextEffect := None, lastEffect := None)]
  {
  }

  /** The first render starts from the given root, with its effect list emptied. */
  lemma SchedulerRootFirst(w: World, rf: FiberId)
    requires w.currentRoot.None? && rf in w.fibers
    ensures var r := SchedulerRoot(w, Some(rf));
      && r.outcome == Normal
      && r.w.workInProgressRoot == Some(rf)
      && r.w.fibers == w.fibers[rf := w.fibers[rf].(firstEffect := None, nextEffect := None, lastEffect := None)]
  {
  }

  /**
   * One unit of work per turn: the loop performs at most `turns` units,
   * starting with the pending one, and stops early only when no unit is
   * left. A unit that throws or hangs is the last one started.
   */
  lemma {:induction false} RenderLoopFacts(w: World, h: Hooks, turns: nat)
    ensures var r := RenderLoop(w, h, turns);
      && |r.value| <= turns
      && (r.value != [] ==> w.nextUnitOfWork == Some(r.value[0]))
      && (w.nextUnitOfWork.None? ==> r == Run(w, Normal, []))
      && (r.outcome == Normal && r.w.nextUnitOfWork.Some? ==> |r.value| == turns)
      && (r.outcome != Normal ==> r.value != [])
    decreases turns
  {
    if turns > 0 && w.nextUnitOfWork.Some? {
      var p := PerformUnitOfWork(w, h, w.nextUnitOfWork.value);
      if p.outcome == Normal {
        RenderLoopFacts(p.w.(nextUnitOfWork := p.value), h, turns - 1);
      }
    }
  }

  /** Zero turns perform no unit, so resuming after them is the same as starting. */
  lemma RenderLoopNone(w: World, h: Hooks, b: nat)
    ensures RenderLoop(w, h, 0) == Run(w, Normal, [])
    ensures var second := RenderLoop(w, h, b);
      RenderLoop(w, h, 0 + b) == Run(second.w, second.outcome, [] + second.value)
  {
    var second := RenderLoop(w, h, b);
    assert [] + second.value == second.value;
  }

  /** With no pending unit, the render loop changes nothing. */
  lemma RenderLoopIdle(w: World, h: Hooks, turns: nat)
    requires w.nextUnitOfWork.None?
    ensures RenderLoop(w, h, turns) == Run(w, Normal, [])
  {
  }

  /** One turn of the render loop, unfolded: the pending unit is performed first. */
  lemma RenderLoopStep(w: World, h: Hooks, turns: nat)
    requires turns > 0 && w.nextUnitOfWork.Some?
    ensures var u := w.nextUnitOfWork.value;
      var p := PerformUnitOfWork(w, h, u);
      && (p.outcome != Normal ==> RenderLoop(w, h, turns) == Run(p.w, p.outcome, [u]))
      && (p.outcome == Normal ==>
            var rest := RenderLoop(p.w.(nextUnitOfWork := p.value), h, turns - 1);
            RenderLoop(w, h, turns) == Run(rest.w, rest.outcome, [u] + rest.value))
  {
  }

  /**
   * The render phase can be paused after any unit and resumed later: `a`
   * turns followed by `b` more, from where the first slice stopped, do the
   * same units and reach the same state as `a + b` turns at once.
   */
  lemma {:induction false} RenderLoopResumes(w: World, h: Hooks, a: nat, b: nat)
    ensures var first := RenderLoop(w, h, a);
      first.outcome == Normal ==>
        var second := RenderLoop(first.w, h, b);
        RenderLoop(w, h, a + b) == Run(second.w, second.outcome, first.value + second.value)
    decreases a
  {
    var first := RenderLoop(w, h, a);
    if first.outcome == Normal {
      if a == 0 {
        RenderLoopNone(w, h, b);
      } else if w.nextUnitOfWork.None? {
        RenderLoopIdle(w, h, a);
        RenderLoopIdle(w, h, b);
        RenderLoopIdle(w, h, a + b);
        var none: seq<FiberId> := [];
        assert none + none == none;
      } else {
        var u := w.nextUnitOfWork.value;
        var p := PerformUnitOfWork(w, h, u);
        RenderLoopStep(w, h, a);
        RenderLoopStep(w, h, a + b);
        if p.outcome == Normal {
          var w1 := p.w.(nextUnitOfWork := p.value);
          RenderLoopResumes(w1, h, a - 1, b);
          var f1 := RenderLoop(w1, h, a - 1);
          assert a + b - 1 == (a - 1) + b;
          ResumesAfterStep(u, RenderLoop(w, h, a), RenderLoop(w, h, a + b), f1,
                           RenderLoop(w1, h, (a - 1) + b), RenderLoop(f1.w, h, b));
        }
      }
    }
  }

  /** The inductive step of `RenderLoopResumes`: prefixing the unit done first keeps the split. */
  lemma ResumesAfterStep(u: FiberId, first: Run<seq<FiberId>>, whole: Run<seq<FiberId>>,
                         f1: Run<seq<FiberId>>, rest: Run<seq<FiberId>>, second: Run<seq<FiberId>>)
    requires first == Run(f1.w, f1.outcome, [u] + f1.value)
    requires whole == Run(rest.w, rest.outcome, [u] + rest.value)
    requires f1.outcome == Normal ==> rest == Run(second.w, second.outcome, f1.value + second.value)
    ensures first.outcome == Normal ==> whole == Run(second.w, second.outcome, first.value + second.value)
  {
    assert [u] + (f1.value + second.value) == ([u] + f1.value) + second.value;
  }

  /**
   * `workLoop` commits only a finished tree: when it commits, no unit of
   * work was left and the finished root is now the current one, with no
   * root in progress and no deletion pending. When it does not commit,
   * work remains or no root was in progress.
   */
  lemma WorkLoopCommitsFinished(w: World, h: Hooks, turns: nat)
    ensures var r := WorkLoop(w, h, turns);
      var l := RenderLoop(w, h, turns);
      && (r.outcome == Normal && r.value.Some? ==>
            && l.w.nextUnitOfWork.None? && l.w.workInProgressRoot.Some?
            && r.w.nextUnitOfWork.None? && r.w.workInProgressRoot.None?
            && r.w.currentRoot == l.w.workInProgressRoot && r.w.deletions == [])
      && (r.outcome == Normal && r.value.None? ==>
            r.w == l.w && (r.w.nextUnitOfWork.Some? || r.w.workInProgressRoot.None?))
  {
    var l := RenderLoop(w, h, turns);
    if l.outcome == Normal {
      CommitRootResets(l.w);
    }
  }

  /** Once a tree is committed and nothing is scheduled, further idle callbacks change nothing. */
  lemma WorkLoopIdle(w: World, h: Hooks, turns: nat)
    requires w.nextUnitOfWork.None? && w.workInProgressRoot.None?
    ensures WorkLoop(w, h, turns) == Run(w, Normal, None)
  {
    RenderLoopFacts(w, h, turns);
  }

  /**
   * `setState` appends the payload to its fiber's update queue, as the last
   * and only new entry, and restarts work at a root; before anything has
   * been committed there is no root to restart from and it throws. Without
   * a fiber or a queue it throws before changing anything.
   */
  lemma SetStateFacts(w: World, inst: InstId, payload: Value)
    requires Fresh(w)
    ensures var r := SetState(w, inst, payload);
      && (inst !in w.instances ==> r == Run(w, Threw, ()))
      && (inst in w.instances ==>
            var f := w.instances[inst].internalFiber;
            && (f !in w.fibers || w.fibers[f].updateQueue.None? || w.fibers[f].updateQueue.value !in w.queues ==>
                  r == Run(w, Threw, ()))
            && (f in w.fibers && w.fibers[f].updateQueue.Some? && w.fibers[f].updateQueue.value in w.queues ==>
                  var q := w.fibers[f].updateQueue.value;
                  && r.w.queues == w.queues[q := w.queues[q] + [payload]]
                  && r.w.instances == w.instances
                  && (w.currentRoot.None? ==> r.outcome == Threw)
                  && (r.outcome == Normal ==>
                        r.w.workInProgressRoot.Some? && r.w.nextUnitOfWork == r.w.workInProgressRoot)))
  {
    if inst in w.instances {
      var f := w.instances[inst].internalFiber;
      if f in w.fibers && w.fibers[f].updateQueue.Some? && w.fibers[f].updateQueue.value in w.queues {
        var q := w.fibers[f].updateQueue.value;
        SchedulerRootStarts(w.(queues := w.queues[q := w.queues[q] + [payload]]), None);
      }
    }
  }

  /**
   * src/react.js:43 with lines 190-191 of src/scheduler.js: an element whose
   * type extends `Component` inherits the marker and gets a class fiber.
   */
  lemma ComponentIsClass(id: nat, props: Entries)
    ensures ClassifyTag(Elem(Element(FuncType(React.ComponentClass(id)), props))) == Classified(Some(TagClass))
  {
  }

  /**
   * Conversely, lines 190-194 give a child the class tag only when its
   * `type` (an element's, or a plain object's) is a function with a
   * prototype carrying a truthy `isReactComponent`.
   */
  lemma ClassTagNeedsMarker(child: Value)
    ensures ClassifyTag(child) == Classified(Some(TagClass)) <==>
      && TypeOf(child).FuncType?
      && TypeOf(child).f.proto.Prototype? && Truthy(TypeOf(child).f.proto.isReactComponent)
  {
  }
}
