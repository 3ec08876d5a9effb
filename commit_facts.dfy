/**
 * Properties of the commit phase (src/scheduler.js:270-331): what one
 * `commitWork` changes, when a text node is written, where a placed node
 * goes, which node a deletion removes, and the order in which `commitRoot`
 * visits fibers.
 */
module CommitFacts {
  import opened Wrappers
  import opened Values
  import opened Platform
  import opened Fibers
  import opened Effects
  import opened Work
  import opened Commit

  /** Every fiber of an arena with its effect tag cleared. */
  function NoTags(m: map<FiberId, Fiber>): map<FiberId, Fiber>
  {
    map x | x in m :: m[x].(effectTag := NoEffect)
  }

  /** From `w` to `w'` only platform nodes and effect tags changed. */
  predicate TagsOnly(w: World, w': World)
  {
    NoTags(w'.fibers) == NoTags(w.fibers) && w' == w.(fibers := w'.fibers, nodes := w'.nodes)
  }

  lemma NoTagsSet(m: map<FiberId, Fiber>, c: FiberId, t: EffectTag)
    requires c in m
    ensures NoTags(m[c := m[c].(effectTag := t)]) == NoTags(m)
  {
    var m' := m[c := m[c].(effectTag := t)];
    assert m'.Keys == m.Keys;
    assert forall x :: x in m' ==> NoTags(m')[x] == NoTags(m)[x];
  }

  /** A fiber keeps all but its effect tag when only tags changed. */
  lemma TagsOnlyAt(w: World, w': World, x: FiberId)
    requires TagsOnly(w, w') && x in w.fibers
    ensures x in w'.fibers && w'.fibers[x] == w.fibers[x].(effectTag := w'.fibers[x].effectTag)
  {
    assert x in NoTags(w.fibers);
    assert NoTags(w'.fibers)[x] == NoTags(w.fibers)[x];
  }

  lemma TagsOnlyKeys(w: World, w': World)
    requires TagsOnly(w, w')
    ensures w'.fibers.Keys == w.fibers.Keys
  {
    assert forall x :: x in w.fibers <==> x in NoTags(w.fibers);
    assert forall x :: x in w'.fibers <==> x in NoTags(w'.fibers);
  }

  lemma TagsOnlyTrans(w: World, w1: World, w2: World)
    requires TagsOnly(w, w1) && TagsOnly(w1, w2)
    ensures TagsOnly(w, w2)
  {
  }

  /** A fiber whose tag was cleared or kept, with every other fiber as before. */
  predicate RetaggedOnly(w: World, w': World, c: FiberId)
    requires c in w.fibers
  {
    && c in w'.fibers
    && w'.fibers == w.fibers[c := w.fibers[c].(effectTag := w'.fibers[c].effectTag)]
    && w' == w.(fibers := w'.fibers, nodes := w'.nodes)
  }

  lemma ClearTagRetags(w: World, w1: World, c: FiberId)
    requires c in w.fibers && w1 == w.(nodes := w1.nodes)
    ensures RetaggedOnly(w, ClearTag(w1, c), c) && ClearTag(w1, c).fibers[c].effectTag == NoEffect
  {
  }

  lemma UnchangedRetags(w: World, w1: World, c: FiberId)
    requires c in w.fibers && w1 == w.(nodes := w1.nodes)
    ensures RetaggedOnly(w, w1, c)
  {
    assert w.fibers[c := w.fibers[c].(effectTag := w1.fibers[c].effectTag)] == w.fibers;
  }

  /** A text update clears the tag and may write one node's text. */
  lemma CommitTextRetags(w: World, c: FiberId, alt: Fiber)
    requires c in w.fibers
    ensures var r := CommitText(w, c, alt);
      && RetaggedOnly(w, r.w, c)
      && (r.outcome != Normal ==> r.w == w)
      && (r.outcome == Normal ==> r.w.fibers[c].effectTag == NoEffect)
  {
    var r := CommitText(w, c, alt);
    if r.outcome == Normal {
      ClearTagRetags(w, r.w.(fibers := w.fibers, nodes := r.w.nodes), c);
      match w.fibers[c].stateNode {
        case NoStateNode =>
        case InstanceNode(_) =>
        case DomNode(n) =>
      }
    } else {
      UnchangedRetags(w, w, c);
    }
  }

  /** A props update clears the tag and may rewrite one node. */
  lemma CommitPropsRetags(w: World, c: FiberId, alt: Fiber)
    requires c in w.fibers
    ensures var r := CommitProps(w, c, alt);
      && RetaggedOnly(w, r.w, c)
      && (r.outcome != Normal ==> r.w == w)
      && (r.outcome == Normal ==> r.w.fibers[c].effectTag == NoEffect)
  {
    var r := CommitProps(w, c, alt);
    if r.outcome == Normal {
      ClearTagRetags(w, r.w.(fibers := w.fibers, nodes := r.w.nodes), c);
    } else {
      UnchangedRetags(w, w, c);
    }
  }

  /**
   * One `commitWork` changes platform nodes and the fiber's own effect tag
   * and nothing else; it changes nothing when it throws or hangs. After it
   * returns, the tag is cleared, except that a deletion returns early and
   * leaves DELETION set.
   */
  lemma CommitWorkFacts(w: World, c: FiberId)
    requires c in w.fibers
    ensures var r := CommitWork(w, Some(c));
      && RetaggedOnly(w, r.w, c)
      && (r.outcome != Normal ==> r.w == w)
      && (r.outcome == Normal ==>
            r.w.fibers[c].effectTag == (if w.fibers[c].effectTag == Deletion then Deletion else NoEffect))
  {
    var r := CommitWork(w, Some(c));
    var cf := w.fibers[c];
    var hp := HostParent(w, cf.ret, Bound(w));
    if hp.0 != Normal {
      UnchangedRetags(w, w, c);
    } else {
      match cf.effectTag {
        case Placement =>
          if r.outcome == Normal {
            ClearTagRetags(w, r.w.(fibers := w.fibers, nodes := r.w.nodes), c);
          } else {
            UnchangedRetags(w, w, c);
          }
        case Deletion =>
          UnchangedRetags(w, r.w, c);
        case Update =>
          if cf.alternate.None? || cf.alternate.value !in w.fibers {
            UnchangedRetags(w, w, c);
          } else if cf.typ == TextMarker {
            CommitTextRetags(w, c, w.fibers[cf.alternate.value]);
          } else {
            CommitPropsRetags(w, c, w.fibers[cf.alternate.value]);
          }
        case NoEffect =>
          ClearTagRetags(w, w, c);
      }
    }
  }

  lemma CommitWorkTagsOnly(w: World, c: FiberId)
    requires c in w.fibers
    ensures TagsOnly(w, CommitWork(w, Some(c)).w)
  {
    CommitWorkFacts(w, c);
    NoTagsSet(w.fibers, c, CommitWork(w, Some(c)).w.fibers[c].effectTag);
  }

  /**
   * Lines 306-310: for a text fiber with an UPDATE tag, the node's text is
   * rewritten exactly when the fiber's text differs from its alternate's;
   * no other node changes.
   */
  lemma CommitTextWrite(w: World, c: FiberId, n: NodeId)
    requires c in w.fibers
    requires var cf := w.fibers[c];
      && cf.effectTag == Update && cf.typ == TextMarker
      && cf.alternate.Some? && cf.alternate.value in w.fibers
      && cf.stateNode == DomNode(n) && n in w.nodes
      && HostParent(w, cf.ret, Bound(w)).0 == Normal
    ensures var cf := w.fibers[c];
      var r := CommitWork(w, Some(c));
      var oldText := Get(w.fibers[cf.alternate.value].props, "text");
      var newText := Get(cf.props, "text");
      && r.outcome == Normal
      && (oldText != newText ==> r.w.nodes == w.nodes[n := w.nodes[n].(text := newText)])
      && (oldText == newText ==> r.w.nodes == w.nodes)
  {
  }

  /**
   * Lines 293-300: a placed fiber backed by a platform node, or whose first
   * child is, has that node appended last to the nearest platform parent's
   * children; no other node changes.
   */
  lemma CommitPlacementAppends(w: World, c: FiberId, target: FiberId, p: NodeId, n: NodeId)
    requires c in w.fibers && target in w.fibers
    requires var cf := w.fibers[c];
      && cf.effectTag == Placement
      && (if IsDomTag(cf.tag) then target == c else cf.child == Some(target) && IsDomTag(w.fibers[target].tag))
      && w.fibers[target].stateNode == DomNode(n)
      && p in w.nodes
      && var hp := HostParent(w, cf.ret, Bound(w));
         hp.0 == Normal && w.fibers[hp.1.value].stateNode == DomNode(p)
    ensures var r := CommitWork(w, Some(c));
      && r.outcome == Normal
      && r.w.nodes == w.nodes[p := w.nodes[p].(children := w.nodes[p].children + [n])]
  {
  }

  /**
   * Line 298 as written: a placed fiber not backed by a platform node whose
   * first child is not backed by one either keeps reading the same child,
   * and `commitWork` never returns, even when a deeper descendant has a node.
   */
  lemma CommitPlacementOfNestedComponentHangs(w: World, c: FiberId)
    requires c in w.fibers
    requires var cf := w.fibers[c];
      && cf.effectTag == Placement && !IsDomTag(cf.tag)
      && cf.child.Some? && cf.child.value in w.fibers && !IsDomTag(w.fibers[cf.child.value].tag)
      && HostParent(w, cf.ret, Bound(w)).0 == Normal
    ensures CommitWork(w, Some(c)).outcome == Hung
  {
  }

  /** The `k`-th fiber down the `child` chain from `c`. */
  function Descendant(w: World, c: Option<FiberId>, k: nat): Option<FiberId>
  {
    if k == 0 then c
    else
      var d := Descendant(w, c, k - 1);
      if d.Some? && d.value in w.fibers then w.fibers[d.value].child else None
  }

  /**
   * Deleting from `c` removed the node of its `k`-th descendant along `child`
   * links, the first one backed by a platform node, from node `p`'s children.
   */
  predicate RemovedAt(w: World, w': World, c: Option<FiberId>, k: nat, p: NodeId)
  {
    && Descendant(w, c, k).Some? && Descendant(w, c, k).value in w.fibers
    && (forall j :: 0 <= j < k ==>
          (Descendant(w, c, j).Some? && Descendant(w, c, j).value in w.fibers
           && !IsDomTag(w.fibers[Descendant(w, c, j).value].tag)))
    && var d := w.fibers[Descendant(w, c, k).value];
       && IsDomTag(d.tag) && d.stateNode.DomNode?
       && p in w.nodes
       && w' == w.(nodes := w.nodes[p := RemoveChild(w.nodes[p], d.stateNode.node)])
  }

  lemma DescendantStep(w: World, c: FiberId, k: nat)
    requires c in w.fibers
    ensures Descendant(w, w.fibers[c].child, k) == Descendant(w, Some(c), k + 1)
  {
    if k > 0 {
      DescendantStep(w, c, k - 1);
    }
  }

  /**
   * `commitDeletion` (lines 325-331) removes exactly one node: that of the
   * first fiber backed by a node along `child` links. Siblings of that
   * chain, and their nodes, are not visited.
   */
  lemma {:induction false} CommitDeletionRemovesOne(w: World, c: Option<FiberId>, p: NodeId, fuel: nat)
    ensures var r := CommitDeletion(w, c, DomNode(p), fuel);
      r.outcome == Normal ==> exists k: nat :: k <= fuel && RemovedAt(w, r.w, c, k, p)
    decreases fuel
  {
    var r := CommitDeletion(w, c, DomNode(p), fuel);
    if r.outcome == Normal {
      var cf := w.fibers[c.value];
      if IsDomTag(cf.tag) {
        assert RemovedAt(w, r.w, c, 0, p);
      } else {
        CommitDeletionRemovesOne(w, cf.child, p, fuel - 1);
        var k: nat :| k <= fuel - 1 && RemovedAt(w, r.w, cf.child, k, p);
        forall j | 0 <= j < k + 1
          ensures Descendant(w, c, j).Some? && Descendant(w, c, j).value in w.fibers
          ensures !IsDomTag(w.fibers[Descendant(w, c, j).value].tag)
        {
          if j > 0 {
            DescendantStep(w, c.value, j - 1);
          }
        }
        DescendantStep(w, c.value, k);
        assert RemovedAt(w, r.w, c, k + 1, p);
      }
    }
  }

  // ---------------------------------------------------------------------------
  // commitRoot
  // ---------------------------------------------------------------------------

  lemma {:induction false} CommitAllFacts(w: World, ds: seq<FiberId>)
    ensures var r := CommitAll(w, ds);
      TagsOnly(w, r.w) && (r.outcome == Normal ==> r.value == ds)
    decreases |ds|
  {
    if ds != [] {
      var c := CommitWork(w, Some(ds[0]));
      if ds[0] in w.fibers {
        CommitWorkTagsOnly(w, ds[0]);
      }
      if c.outcome == Normal {
        CommitAllFacts(c.w, ds[1..]);
        TagsOnlyTrans(w, c.w, CommitAll(c.w, ds[1..]).w);
      }
    }
  }

  /** A chain keeps its links when only tags and nodes change. */
  lemma ChainTagsOnly(w: World, w': World, s: seq<FiberId>)
    requires TagsOnly(w, w') && Chain(w, s)
    ensures Chain(w', s)
  {
    forall k | 0 <= k < |s|
      ensures s[k] in w'.fibers && w'.fibers[s[k]].nextEffect == w.fibers[s[k]].nextEffect
    {
      TagsOnlyAt(w, w', s[k]);
    }
  }

  /** A list ended by a `null` link. */
  predicate Terminated(w: World, s: seq<FiberId>)
  {
    s != [] ==> s[|s| - 1] in w.fibers && w.fibers[s[|s| - 1]].nextEffect.None?
  }

  lemma TerminatedTagsOnly(w: World, w': World, s: seq<FiberId>)
    requires TagsOnly(w, w') && Terminated(w, s)
    ensures Terminated(w', s)
  {
    if s != [] {
      TagsOnlyAt(w, w', s[|s| - 1]);
    }
  }

  lemma ChainTail(w: World, s: seq<FiberId>)
    requires Chain(w, s) && s != []
    ensures Chain(w, s[1..])
  {
    var t := s[1..];
    forall k | 0 <= k < |t| - 1
      ensures w.fibers[t[k]].nextEffect == Some(t[k + 1])
    {
      assert t[k] == s[k + 1] && t[k + 1] == s[k + 2];
    }
    forall k, j | 0 <= k < j < |t|
      ensures t[k] != t[j]
    {
      assert t[k] == s[k + 1] && t[j] == s[j + 1];
    }
  }

  /** Committing the head of a terminated list leaves the rest a terminated list behind it. */
  lemma CommitHead(w: World, s: seq<FiberId>)
    requires Chain(w, s) && Terminated(w, s) && s != []
    ensures var c := CommitWork(w, Some(s[0])).w;
      && Chain(c, s[1..]) && Terminated(c, s[1..])
      && s[0] in c.fibers
      && c.fibers[s[0]].nextEffect == (if |s| == 1 then None else Some(s[1]))
  {
    var c := CommitWork(w, Some(s[0])).w;
    CommitWorkTagsOnly(w, s[0]);
    TagsOnlyAt(w, c, s[0]);
    ChainTagsOnly(w, c, s);
    TerminatedTagsOnly(w, c, s);
    ChainTail(c, s);
  }

  /** One turn of the loop at lines 272-276, when `commitWork` returns. */
  lemma CommitEffectsStep(w: World, c: FiberId, fuel: nat)
    requires fuel > 0 && c in w.fibers
    ensures var k := CommitWork(w, Some(c));
      k.outcome != Normal ==> CommitEffects(w, Some(c), fuel) == Run(k.w, k.outcome, [])
    ensures var k := CommitWork(w, Some(c));
      k.outcome == Normal ==>
        && c in k.w.fibers
        && var rest := CommitEffects(k.w, k.w.fibers[c].nextEffect, fuel - 1);
           CommitEffects(w, Some(c), fuel) == Run(rest.w, rest.outcome, [c] + rest.value)
  {
  }

  /** Lines 272-276 on a terminated effect list: every fiber of the list is committed, in list order. */
  lemma {:induction false} CommitEffectsTrace(w: World, s: seq<FiberId>, fuel: nat)
    requires Chain(w, s) && Terminated(w, s) && |s| <= fuel
    ensures var r := CommitEffects(w, if s == [] then None else Some(s[0]), fuel);
      r.outcome == Normal ==> r.value == s
    decreases |s|
  {
    if s != [] {
      var c := CommitWork(w, Some(s[0]));
      CommitEffectsStep(w, s[0], fuel);
      if c.outcome == Normal {
        CommitHead(w, s);
        var t := s[1..];
        CommitEffectsTrace(c.w, t, fuel - 1);
        assert [s[0]] + t == s;
      }
    }
  }

  /** A list of distinct fibers is no longer than the arena. */
  lemma {:induction false} ChainFits(s: seq<FiberId>, keys: set<FiberId>)
    requires DistinctIds(s) && forall k :: 0 <= k < |s| ==> s[k] in keys
    ensures |s| <= |keys|
  {
    if s != [] {
      var t := s[1..];
      forall k, j | 0 <= k < j < |t| ensures t[k] != t[j] {
        assert t[k] == s[k + 1] && t[j] == s[j + 1];
      }
      forall k | 0 <= k < |t| ensures t[k] in keys - {s[0]} {
        assert t[k] == s[k + 1];
      }
      ChainFits(t, keys - {s[0]});
    }
  }

  /**
   * `commitRoot` (lines 270-280): every queued deletion is committed first,
   * in queue order, then the work-in-progress root's effect list in list
   * order; then `deletions` is emptied, the work-in-progress root becomes
   * `currentRoot` and the work-in-progress root is cleared. Deleted fibers
   * keep their DELETION tag. Nothing but platform nodes, effect tags and
   * these three variables changes.
   */
  lemma CommitRootOrder(w: World, root: FiberId, s: seq<FiberId>)
    requires w.workInProgressRoot == Some(root)
    requires EffectListIs(w, root, s) && Terminated(w, s)
    ensures var r := CommitRoot(w);
      r.outcome == Normal ==>
        && r.value == w.deletions + s
        && r.w.deletions == [] && r.w.currentRoot == Some(root) && r.w.workInProgressRoot.None?
        && TagsOnly(w, r.w.(deletions := w.deletions, currentRoot := w.currentRoot, workInProgressRoot := w.workInProgressRoot))
  {
    var r := CommitRoot(w);
    var d := CommitAll(w, w.deletions);
    CommitAllFacts(w, w.deletions);
    if r.outcome == Normal {
      TagsOnlyAt(w, d.w, root);
      ChainTagsOnly(w, d.w, s);
      TerminatedTagsOnly(w, d.w, s);
      TagsOnlyKeys(w, d.w);
      ChainFits(s, d.w.fibers.Keys);
      CommitEffectsTrace(d.w, s, Bound(d.w));
      CommitEffectsTagsOnly(d.w, d.w.fibers[root].firstEffect, Bound(d.w));
      var e := CommitEffects(d.w, d.w.fibers[root].firstEffect, Bound(d.w));
      TagsOnlyTrans(w, d.w, e.w);
    }
  }

  lemma {:induction false} CommitEffectsTagsOnly(w: World, cur: Option<FiberId>, fuel: nat)
    ensures TagsOnly(w, CommitEffects(w, cur, fuel).w)
    decreases fuel
  {
    if cur.Some? && fuel > 0 && cur.value in w.fibers {
      var c := CommitWork(w, cur);
      CommitWorkTagsOnly(w, cur.value);
      if c.outcome == Normal {
        var rest := CommitEffects(c.w, c.w.fibers[cur.value].nextEffect, fuel - 1);
        CommitEffectsTagsOnly(c.w, c.w.fibers[cur.value].nextEffect, fuel - 1);
        TagsOnlyTrans(w, c.w, rest.w);
      }
    }
  }

  /**
   * Lines 277-279: after a commit that returns, no deletion is pending, the
   * former work-in-progress root is the current root and no root is in
   * progress; the pending unit of work, fibers' links, instances and queues
   * are as before.
   */
  lemma CommitRootResets(w: World)
    ensures var r := CommitRoot(w);
      r.outcome == Normal ==>
        && w.workInProgressRoot.Some?
        && r.w.deletions == [] && r.w.currentRoot == w.workInProgressRoot && r.w.workInProgressRoot.None?
        && r.w.nextUnitOfWork == w.nextUnitOfWork
        && NoTags(r.w.fibers) == NoTags(w.fibers)
        && r.w.instances == w.instances && r.w.queues == w.queues
  {
    var d := CommitAll(w, w.deletions);
    CommitAllFacts(w, w.deletions);
    var root := d.w.workInProgressRoot;
    if d.outcome == Normal && root.Some? && root.value in d.w.fibers {
      CommitEffectsTagsOnly(d.w, d.w.fibers[root.value].firstEffect, Bound(d.w));
      TagsOnlyTrans(w, d.w, CommitEffects(d.w, d.w.fibers[root.value].firstEffect, Bound(d.w)).w);
    }
  }
}
