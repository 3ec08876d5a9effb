/**
 * The render phase of src/scheduler.js for one fiber: `beginWork` and the
 * four `update*` routines it dispatches to (lines 105-154), `createDOM` and
 * the `updateDOM` guard (lines 156-170), and `performUnitOfWork`, the
 * depth-first step of the tree walk (lines 50-63).
 */
module Work {
  import opened Wrappers
  import opened Values
  import opened Platform
  import opened Utils
  import opened Fibers
  import opened Reconcile
  import opened Effects

  /** A routine whose value the caller ignores. */
  function Drop<T>(r: Run<T>): Run<()>
  {
    Run(r.w, r.outcome, ())
  }

  /**
   * What `newChildren.length` and `newChildren[i]` see on a `props.children`
   * value: an array's items, a string's one-character strings, an error for
   * `null` and `undefined`, and nothing for values without a length.
   */
  function ChildrenOf(v: Value): Option<seq<Value>>
  {
    match v
    case Arr(items) => Some(items)
    case Str(s) => Some(seq(|s|, i requires 0 <= i < |s| => Str([s[i]])))
    case Null => None
    case Undefined => None
    case _ => Some([])
  }

  /** `reconcileChildren(parent, children)` on a `props.children` value; a list with no length throws at line 179. */
  function ReconcileValue(w: World, parent: FiberId, children: Value): Run<seq<Option<FiberId>>>
  {
    var kids := ChildrenOf(children);
    if kids.Some? then ReconcileChildren(w, parent, kids.value)
    else
      var r := ReconcileChildren(w, parent, []);
      Run(r.w, if r.outcome == Normal then Threw else r.outcome, [])
  }

  /** `updateDOM(node, oldProps, newProps)` (lines 166-170): only a node with `setAttribute` is touched. */
  function UpdateDom(n: PNode, oldProps: Entries, newProps: Entries): PNode
  {
    if HasSetAttribute(n) then ApplyOps(n, DiffOps(oldProps, newProps)) else n
  }

  /** The tag name `document.createElement` receives; a host fiber's type is always a string. */
  function TypeName(t: ElemType): string
  {
    if t.TagName? then t.name else ""
  }

  /** `createDOM(fiber)` (lines 156-164): a text node, or an element with the fiber's props applied. */
  function CreateDom(w: World, f: Fiber): (World, StateNode)
  {
    if f.tag == Some(TagText) then
      var wn := NewNode(w, NewText(Get(f.props, "text")));
      (wn.0, DomNode(wn.1))
    else if f.tag == Some(TagHost) then
      var wn := NewNode(w, UpdateDom(NewElement(TypeName(f.typ)), [], f.props));
      (wn.0, DomNode(wn.1))
    else (w, NoStateNode)
  }

  /** `if (!currentFiber.stateNode) currentFiber.stateNode = createDOM(currentFiber)`. */
  function EnsureDom(w: World, f: FiberId): World
    requires f in w.fibers
  {
    var fb := w.fibers[f];
    if fb.stateNode.NoStateNode? then
      var c := CreateDom(w, fb);
      SetFiber(c.0, f, fb.(stateNode := c.1))
    else w
  }

  /**
   * Lines 140-145: on a first visit, `new type(props)` and the back link
   * `internalFiber`; a type that is not a constructor throws.
   */
  function Instantiate(w: World, h: Hooks, f: FiberId): (r: Option<World>)
    requires f in w.fibers
    ensures r.Some? ==> f in r.value.fibers
  {
    var fb := w.fibers[f];
    if fb.stateNode.NoStateNode? then
      if !fb.typ.FuncType? || fb.typ.f.proto.NoPrototype? then None
      else
        var wi := NewInstance(w, Instance(fb.typ.f, fb.props, h.construct(fb.typ.f, fb.props), f));
        Some(SetFiber(wi.0, f, fb.(stateNode := InstanceNode(wi.1))))
    else Some(w)
  }

  /**
   * Lines 147-153: fold the pending updates into the instance's state,
   * render, and reconcile the one element rendered. A fiber whose
   * `stateNode` is not an instance, or which has no update queue, throws.
   */
  function RenderClass(w: World, h: Hooks, f: FiberId): Run<()>
    requires f in w.fibers
  {
    var sn := w.fibers[f].stateNode;
    var q := w.fibers[f].updateQueue;
    if !sn.InstanceNode? || sn.inst !in w.instances || q.None? || q.value !in w.queues then Run(w, Threw, ())
    else
      var inst := w.instances[sn.inst];
      var folded := h.fold(inst.state, w.queues[q.value]);
      var w2 := w.(instances := w.instances[sn.inst := inst.(state := folded.0)],
                   queues := w.queues[q.value := folded.1]);
      Drop(ReconcileChildren(w2, f, [h.render(inst.cls, inst.props, folded.0)]))
  }

  /** `updateClassComponent` (lines 139-154). */
  function UpdateClass(w: World, h: Hooks, f: FiberId): Run<()>
    requires f in w.fibers
  {
    var made := Instantiate(w, h, f);
    if made.None? then Run(w, Threw, ())
    else RenderClass(made.value, h, f)
  }

  /** `beginWork(fiber)` (lines 105-115): dispatch on the fiber's tag; an unassigned tag does nothing. */
  function BeginWork(w: World, h: Hooks, f: FiberId): Run<()>
  {
    if f !in w.fibers then Run(w, Threw, ())
    else
      match w.fibers[f].tag
      case Some(TagRoot) => Drop(ReconcileValue(w, f, Get(w.fibers[f].props, "children")))
      case Some(TagText) => Run(EnsureDom(w, f), Normal, ())
      case Some(TagHost) =>
        var w1 := EnsureDom(w, f);
        Drop(ReconcileValue(w1, f, Get(w1.fibers[f].props, "children")))
      case Some(TagClass) => UpdateClass(w, h, f)
      case None => Run(w, Normal, ())
  }

  /**
   * Lines 55-62: complete the fiber and its ancestors in turn until one has a
   * sibling. `fuel` bounds the walk: `return` and `sibling` links are never
   * written here, so a walk longer than the number of fibers repeats forever.
   */
  function WalkUp(w: World, cur: Option<FiberId>, fuel: nat): Run<Option<FiberId>>
    decreases fuel
  {
    if cur.None? then Run(w, Normal, None)
    else if fuel == 0 then Run(w, Hung, None)
    else
      var c := CompleteUnitOfWork(w, cur.value);
      if c.outcome != Normal || cur.value !in c.w.fibers then Run(c.w, if c.outcome == Normal then Threw else c.outcome, None)
      else
        var fb := c.w.fibers[cur.value];
        if fb.sibling.Some? then Run(c.w, Normal, fb.sibling)
        else WalkUp(c.w, fb.ret, fuel - 1)
  }

  /** `performUnitOfWork(fiber)`: the next unit of work, or `None` once the walk has left the root. */
  function PerformUnitOfWork(w: World, h: Hooks, f: FiberId): Run<Option<FiberId>>
  {
    var b := BeginWork(w, h, f);
    if b.outcome != Normal then Run(b.w, b.outcome, None)
    else if f in b.w.fibers && b.w.fibers[f].child.Some? then Run(b.w, Normal, b.w.fibers[f].child)
    else WalkUp(b.w, Some(f), Bound(b.w))
  }

  // ---------------------------------------------------------------------------
  // The walk follows the tree, whatever the effect lists do.
  // ---------------------------------------------------------------------------

  /** A fiber without its effect-list fields. */
  function Skeleton(f: Fiber): Fiber
  {
    f.(firstEffect := None, lastEffect := None, nextEffect := None)
  }

  /** Every fiber of an arena without its effect-list fields. */
  function Skeletons(m: map<FiberId, Fiber>): map<FiberId, Fiber>
  {
    map x | x in m :: Skeleton(m[x])
  }

  /** `w'` differs from `w` at most in the effect-list fields of existing fibers. */
  predicate SameSkeleton(w: World, w': World)
  {
    Skeletons(w'.fibers) == Skeletons(w.fibers) && w' == w.(fibers := w'.fibers)
  }

  lemma SkeletonKeys(w: World, w': World)
    requires SameSkeleton(w, w')
    ensures w'.fibers.Keys == w.fibers.Keys
  {
    assert forall x :: x in w.fibers <==> x in Skeletons(w.fibers);
    assert forall x :: x in w'.fibers <==> x in Skeletons(w'.fibers);
  }

  /** A fiber of either world has the same skeleton in the other. */
  lemma SkeletonAt(w: World, w': World, x: FiberId)
    requires SameSkeleton(w, w') && x in w.fibers
    ensures x in w'.fibers && Skeleton(w'.fibers[x]) == Skeleton(w.fibers[x])
  {
    assert x in Skeletons(w.fibers);
    assert Skeletons(w'.fibers)[x] == Skeletons(w.fibers)[x];
  }

  /**
   * The reference walk: from `cur`, the first sibling found on the way up
   * through `return` links, on the tree alone.
   */
  function TreeNext(w: World, cur: Option<FiberId>, fuel: nat): (Outcome, Option<FiberId>)
    decreases fuel
  {
    if cur.None? then (Normal, None)
    else if fuel == 0 then (Hung, None)
    else if cur.value !in w.fibers then (Threw, None)
    else if w.fibers[cur.value].sibling.Some? then (Normal, w.fibers[cur.value].sibling)
    else TreeNext(w, w.fibers[cur.value].ret, fuel - 1)
  }

  /** The `k`-th fiber up the `return` chain from `f`. */
  function Ancestor(w: World, f: FiberId, k: nat): Option<FiberId>
  {
    if k == 0 then Some(f)
    else
      var a := Ancestor(w, f, k - 1);
      if a.Some? && a.value in w.fibers then w.fibers[a.value].ret else None
  }

  lemma SkeletonSet(w: World, id: FiberId, f: Fiber)
    requires id in w.fibers && Skeleton(f) == Skeleton(w.fibers[id])
    ensures SameSkeleton(w, SetFiber(w, id, f))
  {
    var m := w.fibers[id := f];
    assert m.Keys == w.fibers.Keys;
    assert forall x :: x in m ==> Skeletons(m)[x] == Skeletons(w.fibers)[x];
  }

  lemma SkeletonTrans(w: World, w1: World, w2: World)
    requires SameSkeleton(w, w1) && SameSkeleton(w1, w2)
    ensures SameSkeleton(w, w2)
  {
  }

  lemma AdoptFirstSkeleton(w: World, p: FiberId, c: FiberId)
    requires p in w.fibers && c in w.fibers
    ensures SameSkeleton(w, AdoptFirst(w, p, c))
  {
    if w.fibers[p].firstEffect.None? {
      SkeletonSet(w, p, w.fibers[p].(firstEffect := w.fibers[c].firstEffect));
    }
  }

  lemma SpliceSkeleton(w: World, p: FiberId, c: FiberId)
    requires p in w.fibers && c in w.fibers
    ensures SameSkeleton(w, SpliceChildList(w, p, c).w)
  {
    var last := w.fibers[p].lastEffect;
    if w.fibers[c].lastEffect.Some? && !(last.Some? && last.value !in w.fibers) {
      var w1 := if last.Some? then SetFiber(w, last.value, w.fibers[last.value].(nextEffect := w.fibers[c].firstEffect)) else w;
      if last.Some? {
        SkeletonSet(w, last.value, w.fibers[last.value].(nextEffect := w.fibers[c].firstEffect));
      }
      SkeletonSet(w1, p, w1.fibers[p].(lastEffect := w1.fibers[c].lastEffect));
      SkeletonTrans(w, w1, SpliceChildList(w, p, c).w);
    }
  }

  lemma AppendSelfSkeleton(w: World, p: FiberId, c: FiberId)
    requires p in w.fibers && c in w.fibers
    ensures SameSkeleton(w, AppendSelf(w, p, c).w)
  {
    var last := w.fibers[p].lastEffect;
    if w.fibers[c].effectTag != NoEffect && !(last.Some? && last.value !in w.fibers) {
      var w1 := if last.Some? then SetFiber(w, last.value, w.fibers[last.value].(nextEffect := Some(c)))
                else SetFiber(w, p, w.fibers[p].(firstEffect := Some(c)));
      if last.Some? {
        SkeletonSet(w, last.value, w.fibers[last.value].(nextEffect := Some(c)));
      } else {
        SkeletonSet(w, p, w.fibers[p].(firstEffect := Some(c)));
      }
      SkeletonSet(w1, p, w1.fibers[p].(lastEffect := Some(c)));
      SkeletonTrans(w, w1, AppendSelf(w, p, c).w);
    }
  }

  /** `completeUnitOfWork` writes effect-list fields and nothing else. */
  lemma CompleteKeepsSkeleton(w: World, c: FiberId)
    ensures SameSkeleton(w, CompleteUnitOfWork(w, c).w)
  {
    if c in w.fibers && w.fibers[c].ret.Some? && w.fibers[c].ret.value in w.fibers {
      var p := w.fibers[c].ret.value;
      var w1 := AdoptFirst(w, p, c);
      AdoptFirstSkeleton(w, p, c);
      var s := SpliceChildList(w1, p, c);
      SpliceSkeleton(w1, p, c);
      SkeletonTrans(w, w1, s.w);
      if s.outcome == Normal {
        AppendSelfSkeleton(s.w, p, c);
        SkeletonTrans(w, s.w, AppendSelf(s.w, p, c).w);
      }
    }
  }

  /** The reference walk reads only the skeleton. */
  lemma {:induction false} TreeNextSkeleton(w: World, w': World, cur: Option<FiberId>, fuel: nat)
    requires SameSkeleton(w, w')
    ensures TreeNext(w', cur, fuel) == TreeNext(w, cur, fuel)
    decreases fuel
  {
    SkeletonKeys(w, w');
    if cur.Some? && fuel > 0 && cur.value in w.fibers {
      SkeletonAt(w, w', cur.value);
      TreeNextSkeleton(w, w', w.fibers[cur.value].ret, fuel - 1);
    }
  }

  /** The walk `r` ended as the tree walk `t` says. */
  predicate Follows(w: World, r: Run<Option<FiberId>>, t: (Outcome, Option<FiberId>))
  {
    && SameSkeleton(w, r.w)
    && (r.outcome == Normal ==> t == (Normal, r.value))
    && (t.0 != Normal ==> r.outcome != Normal)
  }

  /** One step up: the walk and the tree walk both continue at the `return` link. */
  lemma WalkUpStep(w: World, cur: FiberId, fuel: nat)
    requires fuel > 0
    requires var c := CompleteUnitOfWork(w, cur);
      c.outcome == Normal && cur in c.w.fibers && c.w.fibers[cur].sibling.None?
    ensures var c := CompleteUnitOfWork(w, cur);
      && cur in w.fibers
      && WalkUp(w, Some(cur), fuel) == WalkUp(c.w, c.w.fibers[cur].ret, fuel - 1)
      && TreeNext(w, Some(cur), fuel) == TreeNext(w, c.w.fibers[cur].ret, fuel - 1)
  {
    CompleteKeepsSkeleton(w, cur);
    var c := CompleteUnitOfWork(w, cur);
    SkeletonAt(c.w, w, cur);
  }

  /** The walk's own ending when it stops at `cur`. */
  lemma WalkUpHere(w: World, cur: FiberId, fuel: nat)
    requires fuel > 0
    requires var c := CompleteUnitOfWork(w, cur);
      !(c.outcome == Normal && cur in c.w.fibers && c.w.fibers[cur].sibling.None?)
    ensures Follows(w, WalkUp(w, Some(cur), fuel), TreeNext(w, Some(cur), fuel))
  {
    CompleteKeepsSkeleton(w, cur);
    var c := CompleteUnitOfWork(w, cur);
    if c.outcome == Normal && cur in c.w.fibers {
      SkeletonAt(c.w, w, cur);
    }
  }

  /**
   * Lines 55-62: completing fibers on the way up changes only effect lists,
   * so the unit returned is the one the tree alone determines; when the tree
   * walk fails (a cycle, a missing fiber) so does the real one.
   */
  lemma {:induction false} WalkUpFollowsTree(w: World, cur: Option<FiberId>, fuel: nat)
    ensures Follows(w, WalkUp(w, cur, fuel), TreeNext(w, cur, fuel))
    decreases fuel
  {
    if cur.Some? && fuel > 0 {
      var c := CompleteUnitOfWork(w, cur.value);
      if c.outcome == Normal && cur.value in c.w.fibers && c.w.fibers[cur.value].sibling.None? {
        var up := c.w.fibers[cur.value].ret;
        var r := WalkUp(c.w, up, fuel - 1);
        var t := TreeNext(c.w, up, fuel - 1);
        WalkUpFollowsTree(c.w, up, fuel - 1);
        CompleteKeepsSkeleton(w, cur.value);
        TreeNextSkeleton(w, c.w, up, fuel - 1);
        FollowsTrans(w, c.w, r, t);
        WalkUpStep(w, cur.value, fuel);
      } else {
        WalkUpHere(w, cur.value, fuel);
      }
    }
  }

  lemma FollowsTrans(w: World, w1: World, r: Run<Option<FiberId>>, t: (Outcome, Option<FiberId>))
    requires SameSkeleton(w, w1) && Follows(w1, r, t)
    ensures Follows(w, r, t)
  {
    SkeletonTrans(w, w1, r.w);
  }

  /**
   * The `k`-th ancestor of `f` is the first one from the `from`-th on with a
   * sibling, and `next` is that sibling; or, for `next == None`, it has
   * neither a sibling nor a `return`.
   */
  predicate StopsAt(w: World, f: FiberId, from: nat, k: nat, next: Option<FiberId>)
  {
    && from <= k
    && Ancestor(w, f, k).Some? && Ancestor(w, f, k).value in w.fibers
    && (forall j :: from <= j < k ==>
          (Ancestor(w, f, j).Some? && Ancestor(w, f, j).value in w.fibers
           && w.fibers[Ancestor(w, f, j).value].sibling.None?))
    && (next.Some? ==> w.fibers[Ancestor(w, f, k).value].sibling == next)
    && (next.None? ==> w.fibers[Ancestor(w, f, k).value].sibling.None? && w.fibers[Ancestor(w, f, k).value].ret.None?)
  }

  /**
   * The reference walk's answer, spelled out: the unit found is the sibling
   * of the first ancestor with one, or `None` when the walk passed the root.
   */
  lemma {:induction false} TreeNextFinds(w: World, f: FiberId, fuel: nat, from: nat)
    requires Ancestor(w, f, from).Some?
    requires TreeNext(w, Ancestor(w, f, from), fuel).0 == Normal
    ensures exists k: nat :: k < from + fuel && StopsAt(w, f, from, k, TreeNext(w, Ancestor(w, f, from), fuel).1)
    decreases fuel
  {
    var a := Ancestor(w, f, from).value;
    var t := TreeNext(w, Some(a), fuel);
    if w.fibers[a].sibling.Some? {
      assert StopsAt(w, f, from, from, t.1);
    } else {
      var up := Ancestor(w, f, from + 1);
      assert up == w.fibers[a].ret;
      if up.None? {
        assert StopsAt(w, f, from, from, t.1);
      } else {
        TreeNextFinds(w, f, fuel - 1, from + 1);
        var k: nat :| k < from + 1 + (fuel - 1) && StopsAt(w, f, from + 1, k, t.1);
        assert StopsAt(w, f, from, k, t.1);
      }
    }
  }

  /**
   * `performUnitOfWork`: the fiber's child when `beginWork` gave it one;
   * otherwise the sibling of the nearest fiber, itself or an ancestor, that
   * has one, all fibers on the way having been completed; `None` once the
   * root has been completed. Only effect-list fields change after `beginWork`.
   */
  lemma PerformNextUnit(w: World, h: Hooks, f: FiberId)
    ensures var b := BeginWork(w, h, f);
      var r := PerformUnitOfWork(w, h, f);
      r.outcome == Normal ==>
        && b.outcome == Normal && f in b.w.fibers
        && (b.w.fibers[f].child.Some? ==> r.value == b.w.fibers[f].child && r.w == b.w)
        && (b.w.fibers[f].child.None? ==>
              && Follows(b.w, r, TreeNext(b.w, Some(f), Bound(b.w)))
              && exists k: nat :: k < Bound(b.w) && StopsAt(b.w, f, 0, k, r.value))
  {
    var b := BeginWork(w, h, f);
    var r := PerformUnitOfWork(w, h, f);
    if r.outcome == Normal {
      if f !in b.w.fibers {
        WalkUpFollowsTree(b.w, Some(f), Bound(b.w));
      } else if b.w.fibers[f].child.None? {
        WalkUpFollowsTree(b.w, Some(f), Bound(b.w));
        TreeNextFinds(b.w, f, Bound(b.w), 0);
      }
    }
  }
}
