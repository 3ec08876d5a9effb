/**
 * Scheduling entry points of src/scheduler.js and src/react.js:
 * `schedulerRoot` picks or builds the work-in-progress root, `workLoop`
 * performs units of work while the deadline allows and commits once none
 * is left, and `Component.setState` queues an update and reschedules.
 */
module Root {
  import opened Wrappers
  import opened Values
  import opened Fibers
  import opened Work
  import opened Commit

  /** Lines 45-46: empty the root's effect list and start work at the root. */
  function StartAt(w: World, root: FiberId): World
    requires root in w.fibers
  {
    var rf := w.fibers[root].(firstEffect := None, nextEffect := None, lastEffect := None);
    w.(fibers := w.fibers[root := rf], workInProgressRoot := Some(root), nextUnitOfWork := Some(root))
  }

  /**
   * `schedulerRoot(rootFiber)` (lines 26-48). With a committed tree whose
   * alternate exists, that alternate is recycled as the new root (taking the
   * given root's props when one is given); with a committed tree and no
   * alternate, the given root, or else a shallow copy of the committed root,
   * becomes the new root, pointing back at the committed one; on the first
   * render the given root is used as is, and without one the effect reset
   * reads a field of `null` and throws.
   */
  function SchedulerRoot(w: World, rootFiber: Option<FiberId>): (r: Run<()>)
    ensures r.outcome != Hung
  {
    match w.currentRoot
    case None =>
      if rootFiber.None? then Run(w.(workInProgressRoot := None), Threw, ())
      else if rootFiber.value !in w.fibers then Run(w, Threw, ())
      else Run(StartAt(w, rootFiber.value), Normal, ())
    case Some(cr) =>
      if cr !in w.fibers then Run(w, Threw, ())
      else
        var crf := w.fibers[cr];
        if crf.alternate.Some? then
          var a := crf.alternate.value;
          if a !in w.fibers || (rootFiber.Some? && rootFiber.value !in w.fibers) then Run(w, Threw, ())
          else
            var af := w.fibers[a].(alternate := Some(cr));
            var af' := if rootFiber.Some? then af.(props := w.fibers[rootFiber.value].props) else af;
            Run(StartAt(SetFiber(w, a, af'), a), Normal, ())
        else if rootFiber.Some? then
          var rf := rootFiber.value;
          if rf !in w.fibers then Run(w, Threw, ())
          else Run(StartAt(SetFiber(w, rf, w.fibers[rf].(alternate := Some(cr))), rf), Normal, ())
        else
          var made := NewFiber(w, crf.(alternate := Some(cr)));
          Run(StartAt(made.0, made.1), Normal, ())
  }

  /**
   * The loop of `workLoop` (lines 256-261). The deadline is not modelled:
   * `turns` is how many times the time test passes. The value lists the
   * units performed, in order.
   */
  function RenderLoop(w: World, h: Hooks, turns: nat): Run<seq<FiberId>>
    decreases turns
  {
    if turns == 0 || w.nextUnitOfWork.None? then Run(w, Normal, [])
    else
      var u := w.nextUnitOfWork.value;
      var p := PerformUnitOfWork(w, h, u);
      if p.outcome != Normal then Run(p.w, p.outcome, [u])
      else
        var rest := RenderLoop(p.w.(nextUnitOfWork := p.value), h, turns - 1);
        Run(rest.w, rest.outcome, [u] + rest.value)
  }

  /**
   * `workLoop(deadline)` (lines 255-268): render while the deadline allows,
   * then commit if no unit of work is left and a work-in-progress root
   * exists. The value is the commit's trace, or `None` when nothing was
   * committed. Re-registering with `requestIdleCallback` is not modelled.
   */
  function WorkLoop(w: World, h: Hooks, turns: nat): Run<Option<seq<FiberId>>>
  {
    var l := RenderLoop(w, h, turns);
    if l.outcome != Normal then Run(l.w, l.outcome, None)
    else if l.w.nextUnitOfWork.None? && l.w.workInProgressRoot.Some? then
      var c := CommitRoot(l.w);
      Run(c.w, c.outcome, Some(c.value))
    else Run(l.w, Normal, None)
  }

  /**
   * `Component.prototype.setState(payload)` (src/react.js:33-40): append the
   * update to the queue of the instance's fiber, then `schedulerRoot()` with
   * no root. A missing fiber or queue throws before anything changes.
   */
  function SetState(w: World, inst: InstId, payload: Value): Run<()>
  {
    if inst !in w.instances then Run(w, Threw, ())
    else
      var f := w.instances[inst].internalFiber;
      if f !in w.fibers || w.fibers[f].updateQueue.None? || w.fibers[f].updateQueue.value !in w.queues then Run(w, Threw, ())
      else
        var q := w.fibers[f].updateQueue.value;
        SchedulerRoot(w.(queues := w.queues[q := w.queues[q] + [payload]]), None)
  }
}
