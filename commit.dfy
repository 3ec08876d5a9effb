/**
 * The commit phase of src/scheduler.js (lines 270-331): `commitRoot` runs
 * `commitWork` on every queued deletion, then along the root's effect list,
 * then swaps the roots. `commitWork` finds the platform parent, then places,
 * deletes or updates; `commitDeletion` follows `child` links to the first
 * fiber backed by a platform node.
 */
module Commit {
  import opened Wrappers
  import opened Values
  import opened Platform
  import opened Utils
  import opened Fibers
  import opened Work

  /**
   * Lines 284-291: from `cur`, the first fiber up the `return` chain tagged
   * host, root or text. Reading the tag of `null` throws; a cycle of other
   * tags never ends (no link is written while walking).
   */
  function HostParent(w: World, cur: Option<FiberId>, fuel: nat): (r: (Outcome, Option<FiberId>))
    ensures r.0 == Normal ==> r.1.Some? && r.1.value in w.fibers && IsParentTag(w.fibers[r.1.value].tag)
    decreases fuel
  {
    if cur.None? || cur.value !in w.fibers then (Threw, None)
    else if IsParentTag(w.fibers[cur.value].tag) then (Normal, cur)
    else if fuel == 0 then (Hung, None)
    else HostParent(w, w.fibers[cur.value].ret, fuel - 1)
  }

  /**
   * Lines 295-299 as written: a fiber backed by a platform node is placed
   * itself; otherwise the loop reads `currentFiber.child` on every turn, so
   * it stops after one step down or never.
   */
  function PlacementTarget(w: World, c: FiberId): (r: (Outcome, Option<FiberId>))
    requires c in w.fibers
    ensures r.0 == Normal ==> r.1.Some? && r.1.value in w.fibers && IsDomTag(w.fibers[r.1.value].tag)
  {
    if IsDomTag(w.fibers[c].tag) then (Normal, Some(c))
    else
      var k := w.fibers[c].child;
      if k.None? || k.value !in w.fibers then (Threw, None)
      else if IsDomTag(w.fibers[k.value].tag) then (Normal, k)
      else (Hung, None)
  }

  /** `currentFiber.effectTag = null` (line 322). */
  function ClearTag(w: World, c: FiberId): World
    requires c in w.fibers
  {
    SetFiber(w, c, w.fibers[c].(effectTag := NoEffect))
  }

  /**
   * `commitDeletion(fiber, returnDOM)` (lines 325-331): remove the node of
   * the first fiber backed by one along `child` links. Recursing into `null`
   * throws; a cycle of `child` links overflows the stack, which also throws.
   */
  function CommitDeletion(w: World, c: Option<FiberId>, returnDom: StateNode, fuel: nat): (r: Run<()>)
    ensures r.w.fibers == w.fibers
    ensures r.w == w.(nodes := r.w.nodes)
    ensures r.outcome != Normal ==> r.w == w
    decreases fuel
  {
    if c.None? || c.value !in w.fibers then Run(w, Threw, ())
    else
      var cf := w.fibers[c.value];
      if IsDomTag(cf.tag) then
        if !returnDom.DomNode? || returnDom.node !in w.nodes || !cf.stateNode.DomNode? then Run(w, Threw, ())
        else
          var p := returnDom.node;
          Run(w.(nodes := w.nodes[p := RemoveChild(w.nodes[p], cf.stateNode.node)]), Normal, ())
      else if fuel == 0 then Run(w, Threw, ())
      else CommitDeletion(w, cf.child, returnDom, fuel - 1)
  }

  /** Lines 306-310: write `textContent` only when the text differs from the alternate's. */
  function CommitText(w: World, c: FiberId, alt: Fiber): Run<()>
    requires c in w.fibers
  {
    var cf := w.fibers[c];
    if Get(alt.props, "text") == Get(cf.props, "text") then Run(ClearTag(w, c), Normal, ())
    else match cf.stateNode
      case NoStateNode => Run(w, Threw, ())
      case InstanceNode(_) => Run(ClearTag(w, c), Normal, ())
      case DomNode(n) =>
        if n !in w.nodes then Run(w, Threw, ())
        else Run(ClearTag(w.(nodes := w.nodes[n := w.nodes[n].(text := Get(cf.props, "text"))]), c), Normal, ())
  }

  /** Lines 315-319: `updateDOM(stateNode, alternate.props, props)`. */
  function CommitProps(w: World, c: FiberId, alt: Fiber): Run<()>
    requires c in w.fibers
  {
    var cf := w.fibers[c];
    match cf.stateNode
      case NoStateNode => Run(w, Threw, ())
      case InstanceNode(_) => Run(ClearTag(w, c), Normal, ())
      case DomNode(n) =>
        if n !in w.nodes then Run(w, Threw, ())
        else Run(ClearTag(w.(nodes := w.nodes[n := UpdateDom(w.nodes[n], alt.props, cf.props)]), c), Normal, ())
  }

  /** `commitWork(fiber)` (lines 282-323). */
  function CommitWork(w: World, c: Option<FiberId>): (r: Run<()>)
    ensures r.w.fibers.Keys == w.fibers.Keys
  {
    if c.None? then Run(w, Normal, ())
    else if c.value !in w.fibers then Run(w, Threw, ())
    else
      var id := c.value;
      var cf := w.fibers[id];
      var hp := HostParent(w, cf.ret, Bound(w));
      if hp.0 != Normal then Run(w, hp.0, ())
      else
        var returnDom := w.fibers[hp.1.value].stateNode;
        match cf.effectTag
        case Placement =>
          var t := PlacementTarget(w, id);
          if t.0 != Normal then Run(w, t.0, ())
          else
            var sn := w.fibers[t.1.value].stateNode;
            if !returnDom.DomNode? || returnDom.node !in w.nodes || !sn.DomNode? then Run(w, Threw, ())
            else
              var p := returnDom.node;
              Run(ClearTag(w.(nodes := w.nodes[p := AppendChild(w.nodes[p], sn.node)]), id), Normal, ())
        case Deletion => CommitDeletion(w, Some(id), returnDom, Bound(w))
        case Update =>
          if cf.alternate.None? || cf.alternate.value !in w.fibers then Run(w, Threw, ())
          else if cf.typ == TextMarker then CommitText(w, id, w.fibers[cf.alternate.value])
          else CommitProps(w, id, w.fibers[cf.alternate.value])
        case NoEffect => Run(ClearTag(w, id), Normal, ())
  }

  /** `deletions.forEach(commitWork)` (line 271); the value lists the fibers committed. */
  function CommitAll(w: World, ds: seq<FiberId>): Run<seq<FiberId>>
    decreases |ds|
  {
    if ds == [] then Run(w, Normal, [])
    else
      var c := CommitWork(w, Some(ds[0]));
      if c.outcome != Normal then Run(c.w, c.outcome, [])
      else
        var rest := CommitAll(c.w, ds[1..]);
        Run(rest.w, rest.outcome, [ds[0]] + rest.value)
  }

  /**
   * Lines 272-276: `commitWork` along `nextEffect` links until `null`.
   * Committing writes no `nextEffect`, so a walk longer than the number of
   * fibers repeats forever.
   */
  function CommitEffects(w: World, cur: Option<FiberId>, fuel: nat): Run<seq<FiberId>>
    decreases fuel
  {
    if cur.None? then Run(w, Normal, [])
    else if fuel == 0 then Run(w, Hung, [])
    else if cur.value !in w.fibers then Run(w, Threw, [])
    else
      var c := CommitWork(w, cur);
      if c.outcome != Normal then Run(c.w, c.outcome, [])
      else
        var rest := CommitEffects(c.w, c.w.fibers[cur.value].nextEffect, fuel - 1);
        Run(rest.w, rest.outcome, [cur.value] + rest.value)
  }

  /** `commitRoot()` (lines 270-280); the value lists the fibers committed, in order. */
  function CommitRoot(w: World): Run<seq<FiberId>>
  {
    var d := CommitAll(w, w.deletions);
    if d.outcome != Normal then d
    else
      var root := d.w.workInProgressRoot;
      if root.None? || root.value !in d.w.fibers then Run(d.w, Threw, d.value)
      else
        var e := CommitEffects(d.w, d.w.fibers[root.value].firstEffect, Bound(d.w));
        if e.outcome != Normal then Run(e.w, e.outcome, d.value + e.value)
        else Run(e.w.(deletions := [], currentRoot := root, workInProgressRoot := None), Normal, d.value + e.value)
  }
}
