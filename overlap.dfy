/**
 * A fiber on both lists. The comment at src/scheduler.js:22 keeps deleted
 * fibers off the effect list, on `deletions`. When every new child is falsy
 * (the loop at line 179 then makes no fiber, so `parent.child` keeps its
 * old value) and the parent's alternate is the parent itself (the committed
 * root passed back to `schedulerRoot`, lines 34-35), the old child is both
 * pushed onto `deletions` and reached by the walk, which appends it, tagged
 * DELETION, to the root's effect list; `commitRoot` then commits it twice.
 */
module Overlap {
  import opened Wrappers
  import opened Values
  import opened Platform
  import opened Fibers
  import opened Reconcile
  import opened Effects
  import opened Work
  import opened Commit
  import opened Root

  /** The committed root, fiber 0: its one child `false` renders nothing, yet it still links fiber 1. */
  function RootFiber(): Fiber
  {
    Fiber(Some(TagRoot), NoType, [("children", Arr([Bool(false)]))], DomNode(2),
          Some(1), None, None, None, NoEffect, None, None, None, None)
  }

  /** Fiber 1: a committed `div` with no children, backed by node 3. */
  function DivFiber(): Fiber
  {
    Fiber(Some(TagHost), TagName("div"), [("children", Arr([]))], DomNode(3),
          None, None, Some(0), None, NoEffect, None, None, None, None)
  }

  /** After one render: the container node 2 holds the `div`'s node 3. */
  function Committed(): World
  {
    World(map[0 := RootFiber(), 1 := DivFiber()],
          map[2 := NewElement("div").(children := [3]), 3 := NewElement("div")],
          map[], map[], [], Some(0), None, None, 4)
  }

  /** `schedulerRoot(currentRoot)`: the root becomes its own alternate. */
  function Started(): World
  {
    Committed().(fibers := map[0 := RootFiber().(alternate := Some(0)), 1 := DivFiber()],
                 workInProgressRoot := Some(0), nextUnitOfWork := Some(0))
  }

  /** After the root's unit: the `div` is marked DELETION and queued, and is still the root's child. */
  function RootDone(): World
  {
    Started().(fibers := map[0 := RootFiber().(alternate := Some(0)), 1 := DivFiber().(effectTag := Deletion)],
               deletions := [1])
  }

  /** After the `div`'s unit: it is also the root's first and last effect. */
  function DivDone(): World
  {
    RootDone().(fibers := map[0 := RootFiber().(alternate := Some(0), firstEffect := Some(1), lastEffect := Some(1)),
                              1 := DivFiber().(effectTag := Deletion)],
                nextUnitOfWork := None)
  }

  lemma StartStep()
    ensures SchedulerRoot(Committed(), Some(0)) == Run(Started(), Normal, ())
  {
    assert RootFiber().(alternate := Some(0)).(firstEffect := None, nextEffect := None, lastEffect := None)
        == RootFiber().(alternate := Some(0));
  }

  lemma RootStep(h: Hooks)
    ensures PerformUnitOfWork(Started(), h, 0) == Run(RootDone().(nextUnitOfWork := Some(0)), Normal, Some(1))
  {
    var w := Started();
    assert Get(w.fibers[0].props, "children") == Arr([Bool(false)]);
    assert ResetEffects(DivFiber()) == DivFiber();
    assert SetFiber(w, 1, DivFiber()) == w;
    var s := ReconcileStep(w, 0, [Bool(false)], 0, Some(1), None);
    assert s == Run(RootDone().(nextUnitOfWork := Some(0)), Normal, Cursor(None, None, None));
    assert ReconcileLoop(s.w, 0, [Bool(false)], 1, None, None) == Run(s.w, Normal, []);
    assert [s.value.made] + [] == [None];
    assert ReconcileLoop(w, 0, [Bool(false)], 0, Some(1), None) == Run(s.w, Normal, [None]);
    assert ReconcileChildren(w, 0, [Bool(false)]) == Run(RootDone().(nextUnitOfWork := Some(0)), Normal, [None]);
  }

  lemma DivStep(h: Hooks)
    ensures PerformUnitOfWork(RootDone().(nextUnitOfWork := Some(1)), h, 1) == Run(DivDone().(nextUnitOfWork := Some(1)), Normal, None)
  {
    var w := RootDone().(nextUnitOfWork := Some(1));
    assert Get(w.fibers[1].props, "children") == Arr([]);
    assert BeginWork(w, h, 1) == Run(w, Normal, ());
    var d := DivDone().(nextUnitOfWork := Some(1));
    assert AdoptFirst(w, 0, 1) == w;
    assert CompleteUnitOfWork(w, 1) == Run(d, Normal, ());
    assert CompleteUnitOfWork(d, 0) == Run(d, Normal, ());
    assert Bound(w) == 3;
    assert WalkUp(w, Some(1), 3) == Run(d, Normal, None);
  }

  lemma SecondTurn(h: Hooks)
    ensures RenderLoop(RootDone().(nextUnitOfWork := Some(1)), h, 1) == Run(DivDone(), Normal, [1])
  {
    DivStep(h);
    assert DivDone().(nextUnitOfWork := Some(1)).(nextUnitOfWork := None) == DivDone();
    assert RenderLoop(DivDone(), h, 0) == Run(DivDone(), Normal, []);
    assert [1] + [] == [1];
  }

  lemma TwoTurns(h: Hooks)
    ensures RenderLoop(Started(), h, 2) == Run(DivDone(), Normal, [0, 1])
  {
    RootStep(h);
    SecondTurn(h);
    assert RootDone().(nextUnitOfWork := Some(0)).(nextUnitOfWork := Some(1)) == RootDone().(nextUnitOfWork := Some(1));
    assert [0] + [1] == [0, 1];
  }

  /**
   * Two units of work from the committed root passed back in: the `div` is
   * on `deletions` and is also the root's effect list.
   */
  lemma OnBothLists(h: Hooks)
    ensures var s := SchedulerRoot(Committed(), Some(0));
      var r := RenderLoop(s.w, h, 2);
      && s.outcome == Normal && r.outcome == Normal && r.value == [0, 1]
      && r.w.nextUnitOfWork.None? && r.w.workInProgressRoot == Some(0)
      && r.w.deletions == [1] && 0 in r.w.fibers
      && r.w.fibers[0].firstEffect == Some(1) && r.w.fibers[0].lastEffect == Some(1)
  {
    StartStep();
    TwoTurns(h);
  }

  /** The `div`'s node removed from the container. */
  function Removed(): World
  {
    DivDone().(nodes := map[2 := NewElement("div"), 3 := NewElement("div")])
  }

  /** Committing the `div` takes its node 3 out of the container node 2; its tag stays DELETION. */
  lemma DeleteDiv(w: World)
    requires w.fibers == DivDone().fibers && 2 in w.nodes
    ensures CommitWork(w, Some(1)) == Run(w.(nodes := w.nodes[2 := RemoveChild(w.nodes[2], 3)]), Normal, ())
  {
    assert HostParent(w, Some(0), Bound(w)) == (Normal, Some(0));
  }

  /** Once from the committed nodes, and again from the nodes it leaves. */
  lemma DeleteOnce(w: World)
    requires w == DivDone() || w == Removed()
    ensures CommitWork(w, Some(1)) == Run(Removed(), Normal, ())
  {
    DeleteDiv(w);
    assert Filter([3], 3) == [];
    assert Filter([], 3) == [];
    assert w.nodes[2 := RemoveChild(w.nodes[2], 3)] == Removed().nodes;
  }

  /**
   * `commitRoot` then commits the `div` twice: once from `deletions`, once
   * from the effect list, whose second `removeChild` is of a node that is
   * no longer a child of the container.
   */
  lemma CommittedTwice()
    ensures var c := CommitRoot(DivDone());
      && c.outcome == Normal && c.value == [1, 1]
      && 2 in CommitWork(DivDone(), Some(1)).w.nodes
      && CommitWork(DivDone(), Some(1)).w.nodes[2].children == []
      && DivDone().fibers[1].stateNode == DomNode(3)
  {
    DeleteOnce(DivDone());
    DeleteOnce(Removed());
    assert CommitAll(Removed(), []) == Run(Removed(), Normal, []);
    assert [1][1..] == [];
    assert [1] + [] == [1];
    assert CommitAll(DivDone(), [1]) == Run(Removed(), Normal, [1]);
    assert CommitEffects(Removed(), None, 2) == Run(Removed(), Normal, []);
    assert CommitEffects(Removed(), Some(1), 3) == Run(Removed(), Normal, [1]);
    assert Bound(Removed()) == 3;
    assert [1] + [1] == [1, 1];
  }
}
