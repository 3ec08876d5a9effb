/**
 * What `reconcileChildren` (src/scheduler.js lines 172-251) does to the two
 * fiber generations, proved of `Reconcile.ReconcileChildren` for any old child
 * chain whose fibers, and whose own alternates, are distinct from each other
 * and from the parent.
 */
module ReconcileFacts {
  import opened Wrappers
  import opened Values
  import opened Fibers
  import opened Reconcile

  /** The fibers made, in position order, with the falsy positions dropped. */
  function Compact(made: seq<Option<FiberId>>): (r: seq<FiberId>)
    ensures forall x :: x in r <==> Some(x) in made
    ensures |r| <= |made|
  {
    if made == [] then []
    else
      var n := |made| - 1;
      assert made == made[..n] + [made[n]];
      Compact(made[..n]) + (if made[n].Some? then [made[n].value] else [])
  }

  /** The last fiber made so far: the loop's `prevSibling`. */
  function LastMade(made: seq<Option<FiberId>>): Option<FiberId>
  {
    var c := Compact(made);
    if c == [] then None else Some(c[|c| - 1])
  }

  predicate DistinctIds(s: seq<FiberId>)
  {
    forall k, j :: 0 <= k < j < |s| ==> s[k] != s[j]
  }

  /** The old fiber the loop holds at position `k`. */
  function OldAt(olds: seq<FiberId>, k: nat): Option<FiberId>
  {
    if k < |olds| then Some(olds[k]) else None
  }

  /** `olds` is the chain reached from `head` through `sibling`, ending in `null`, with no fiber twice. */
  predicate OldChain(w: World, head: Option<FiberId>, olds: seq<FiberId>)
  {
    && (head == if olds == [] then None else Some(olds[0]))
    && (forall k :: 0 <= k < |olds| ==> olds[k] in w.fibers)
    && (forall k :: 0 <= k < |olds| - 1 ==> w.fibers[olds[k]].sibling == Some(olds[k + 1]))
    && (olds != [] ==> w.fibers[olds[|olds| - 1]].sibling == None)
    && DistinctIds(olds)
  }

  /** The alternate of an old fiber is a distinct fiber of the older generation. */
  predicate AltOk(w: World, parent: FiberId, olds: seq<FiberId>, o: FiberId)
    requires o in w.fibers
  {
    var alt := w.fibers[o].alternate;
    alt.Some? ==> alt.value in w.fibers && alt.value != parent && alt.value !in olds
  }

  /**
   * The generations are apart: the parent is not an old child, the old
   * children's alternates are distinct fibers outside both, and every id in use
   * is below `serial`.
   */
  predicate Generations(w: World, parent: FiberId, olds: seq<FiberId>)
  {
    && Fresh(w)
    && parent in w.fibers
    && parent !in olds
    && (forall k :: 0 <= k < |olds| ==> olds[k] in w.fibers && AltOk(w, parent, olds, olds[k]))
    && (forall k, j :: 0 <= k < j < |olds| && w.fibers[olds[k]].alternate.Some? ==>
          w.fibers[olds[k]].alternate != w.fibers[olds[j]].alternate)
  }

  /** A child the loop gets past: not `null`/`undefined`, and not a function without a prototype. */
  predicate Accepted(child: Value)
  {
    !child.Null? && !child.Undefined? && !ClassifyTag(child).NoPrototypeError?
  }

  /** `sameType` at position `k`: an old fiber is there, the child is truthy and of the old fiber's type. */
  predicate SameAt(w0: World, kids: seq<Value>, olds: seq<FiberId>, k: nat)
  {
    k < |kids| && k < |olds| && olds[k] in w0.fibers && Truthy(kids[k])
    && w0.fibers[olds[k]].typ == TypeOf(kids[k])
  }

  /** The tag `reconcileChildren` computes for a child it gets past. */
  function TagFor(child: Value): Option<Tag>
  {
    match ClassifyTag(child)
    case Classified(t) => t
    case NoPrototypeError => None
  }

  /**
   * The fiber `n` made for `child` with fields `f` (its `sibling` aside),
   * against the state `w` before the position was handled: a same-type
   * position gives an UPDATE fiber whose alternate is the old fiber, either
   * the old fiber's own alternate recycled or a fresh clone; any other
   * truthy child gives a fresh PLACEMENT fiber with no state node.
   */
  predicate MadeFiber(w: World, parent: FiberId, child: Value, oldF: Option<FiberId>, sameType: bool,
                      tag: Option<Tag>, n: FiberId, f: Fiber)
  {
    && f.ret == Some(parent)
    && f.props == PropsOf(child)
    && (sameType ==>
          && oldF.Some? && oldF.value in w.fibers
          && var of := w.fibers[oldF.value];
          && f.effectTag == Update
          && f.alternate == oldF
          && (of.updateQueue.Some? ==> f.updateQueue == of.updateQueue)
          && (of.updateQueue.None? ==> f.updateQueue.Some? && f.updateQueue.value >= w.serial)
          && (of.alternate.Some? ==>
                && n == of.alternate.value && n in w.fibers
                && f.tag == w.fibers[n].tag && f.stateNode == w.fibers[n].stateNode)
          && (of.alternate.None? ==>
                && n >= w.serial
                && f.tag == of.tag && f.typ == of.typ && f.stateNode == of.stateNode))
    && (!sameType ==>
          && n >= w.serial
          && f.effectTag == Placement
          && f.alternate == None
          && f.stateNode == NoStateNode
          && f.tag == tag
          && f.typ == TypeOf(child)
          && f.updateQueue.Some? && f.updateQueue.value >= w.serial)
  }

  /** `MadeFiber` for position `k` of the loop started from `w0`. */
  predicate Positioned(w0: World, parent: FiberId, kids: seq<Value>, olds: seq<FiberId>,
                       k: nat, m: FiberId, f: Fiber)
    requires k < |kids|
  {
    MadeFiber(w0, parent, kids[k], OldAt(olds, k), SameAt(w0, kids, olds, k), TagFor(kids[k]), m, f)
  }

  /** The old fibers marked DELETION by positions `0 .. i-1`, in order. */
  function DeletedUpTo(w0: World, kids: seq<Value>, olds: seq<FiberId>, i: nat): seq<FiberId>
    requires i <= |kids|
  {
    if i == 0 then []
    else DeletedUpTo(w0, kids, olds, i - 1)
         + (if i - 1 < |olds| && !SameAt(w0, kids, olds, i - 1) then [olds[i - 1]] else [])
  }

  /** An old fiber once line 178 has cleared the effect links of the first one. */
  function OldBase(w0: World, olds: seq<FiberId>, k: nat): Fiber
    requires k < |olds| && olds[k] in w0.fibers
  {
    if k == 0 then ResetEffects(w0.fibers[olds[0]]) else w0.fibers[olds[k]]
  }

  /** What an old fiber looks like after positions `0 .. i-1`: marked DELETION iff its position was mismatched. */
  function OldAfter(w0: World, kids: seq<Value>, olds: seq<FiberId>, i: nat, k: nat): Fiber
    requires k < |olds| && olds[k] in w0.fibers
  {
    if k < i && k < |kids| && !SameAt(w0, kids, olds, k) then OldBase(w0, olds, k).(effectTag := Deletion)
    else OldBase(w0, olds, k)
  }

  /** The facts about the starting state the loop relies on. */
  predicate InvStatic(w0: World, parent: FiberId, olds: seq<FiberId>)
  {
    Generations(w0, parent, olds) && OldChain(w0, OldAt(olds, 0), olds)
  }

  /** The loop's own variables after positions `0 .. i-1`, and the deletions pushed. */
  predicate InvBook(w0: World, w: World, kids: seq<Value>, olds: seq<FiberId>,
                    i: nat, oldF: Option<FiberId>, prev: Option<FiberId>, made: seq<Option<FiberId>>)
  {
    && i <= |kids| && |made| == i
    && oldF == OldAt(olds, i)
    && prev == LastMade(made)
    && Fresh(w) && w0.serial <= w.serial && w0.fibers.Keys <= w.fibers.Keys
    && (forall k :: 0 <= k < i ==> Accepted(kids[k]))
    && (forall k :: 0 <= k < i ==> (made[k].Some? <==> Truthy(kids[k])))
    && w.deletions == w0.deletions + DeletedUpTo(w0, kids, olds, i)
  }

  /** Each fiber made so far, as `MadeFiber` describes it; no fiber made twice. */
  predicate InvMade(w0: World, w: World, parent: FiberId, kids: seq<Value>, olds: seq<FiberId>,
                    i: nat, made: seq<Option<FiberId>>)
    requires i <= |kids| && |made| == i
  {
    && (forall k :: 0 <= k < i && made[k].Some? ==>
          made[k].value in w.fibers && Positioned(w0, parent, kids, olds, k, made[k].value, w.fibers[made[k].value]))
    && DistinctIds(Compact(made))
  }

  /** The fibers made are `parent.child` and its `sibling` chain, in order. */
  predicate InvLinks(w0: World, w: World, parent: FiberId, made: seq<Option<FiberId>>)
    requires parent in w0.fibers && parent in w.fibers
  {
    && (forall k :: 0 <= k < |Compact(made)| - 1 ==>
          Compact(made)[k] in w.fibers && w.fibers[Compact(made)[k]].sibling == Some(Compact(made)[k + 1]))
    && w.fibers[parent] == w0.fibers[parent].(child :=
         if Compact(made) == [] then w0.fibers[parent].child else Some(Compact(made)[0]))
  }

  /** Old fibers are marked only where mismatched; no other fiber of the starting state changed. */
  predicate InvOlds(w0: World, w: World, parent: FiberId, kids: seq<Value>, olds: seq<FiberId>,
                    i: nat, made: seq<Option<FiberId>>)
    requires forall k :: 0 <= k < |olds| ==> olds[k] in w0.fibers
    requires w0.fibers.Keys <= w.fibers.Keys
  {
    && (forall k :: 0 <= k < |olds| ==> w.fibers[olds[k]] == OldAfter(w0, kids, olds, i, k))
    && (forall id :: id in w0.fibers && id != parent && id !in olds && Some(id) !in made ==>
          w.fibers[id] == w0.fibers[id])
  }

  /** The state after positions `0 .. i-1` of the loop, all of which returned normally. */
  predicate LoopInv(w0: World, w: World, parent: FiberId, kids: seq<Value>, olds: seq<FiberId>,
                    i: nat, oldF: Option<FiberId>, prev: Option<FiberId>, made: seq<Option<FiberId>>)
  {
    && InvStatic(w0, parent, olds)
    && InvBook(w0, w, kids, olds, i, oldF, prev, made)
    && InvMade(w0, w, parent, kids, olds, i, made)
    && InvLinks(w0, w, parent, made)
    && InvOlds(w0, w, parent, kids, olds, i, made)
  }

  /** One position's new fiber and deletion, against the state before it. */
  lemma NewChildFacts(w: World, parent: FiberId, child: Value, oldF: Option<FiberId>, sameType: bool, tag: Option<Tag>)
    requires Fresh(w) && parent in w.fibers
    requires oldF.Some? ==> oldF.value in w.fibers && oldF.value != parent
    requires sameType ==> oldF.Some? && Truthy(child)
    requires sameType && w.fibers[oldF.value].alternate.Some? ==>
      var a := w.fibers[oldF.value].alternate.value; a != oldF.value && a != parent
    ensures var m := NewChildFiber(w, parent, child, oldF, sameType, tag);
      m.outcome == Normal ==>
        && Fresh(m.w) && w.serial <= m.w.serial
        && m.w.deletions == w.deletions + (if !sameType && oldF.Some? then [oldF.value] else [])
        && (m.value.Some? <==> Truthy(child))
        && (forall id :: id in w.fibers && Some(id) != m.value && Some(id) != oldF ==>
              id in m.w.fibers && m.w.fibers[id] == w.fibers[id])
        && (oldF.Some? ==>
              m.w.fibers[oldF.value] == (if sameType then w.fibers[oldF.value] else w.fibers[oldF.value].(effectTag := Deletion)))
        && (m.value.Some? ==>
              var n := m.value.value;
              && n in m.w.fibers && n != parent && oldF != Some(n)
              && MadeFiber(w, parent, child, oldF, sameType, tag, n, m.w.fibers[n]))
  {
    var m := NewChildFiber(w, parent, child, oldF, sameType, tag);
    NewChildBook(w, parent, child, oldF, sameType, tag);
    NewChildMade(w, parent, child, oldF, sameType, tag);
    if oldF.Some? {
      NewChildOld(w, parent, child, oldF, sameType, tag);
    }
    forall id | id in w.fibers && Some(id) != m.value && Some(id) != oldF && m.outcome == Normal
      ensures id in m.w.fibers && m.w.fibers[id] == w.fibers[id]
    {
      NewChildKeeps(w, parent, child, oldF, sameType, tag, id);
    }
  }

  /** The bookkeeping of one position's `NewChildFiber`: ids, deletions, and whether a fiber is made. */
  lemma NewChildBook(w: World, parent: FiberId, child: Value, oldF: Option<FiberId>, sameType: bool, tag: Option<Tag>)
    requires Fresh(w)
    requires oldF.Some? ==> oldF.value in w.fibers
    requires sameType ==> oldF.Some? && Truthy(child)
    ensures var m := NewChildFiber(w, parent, child, oldF, sameType, tag);
      m.outcome == Normal ==>
        && Fresh(m.w) && w.serial <= m.w.serial
        && m.w.deletions == w.deletions + (if !sameType && oldF.Some? then [oldF.value] else [])
        && (m.value.Some? <==> Truthy(child))
  {
  }

  /** The fiber one position makes, as `MadeFiber` describes it. */
  lemma NewChildMade(w: World, parent: FiberId, child: Value, oldF: Option<FiberId>, sameType: bool, tag: Option<Tag>)
    requires Fresh(w) && parent in w.fibers
    requires oldF.Some? ==> oldF.value in w.fibers && oldF.value != parent
    requires sameType ==> oldF.Some? && Truthy(child)
    requires sameType && w.fibers[oldF.value].alternate.Some? ==>
      var a := w.fibers[oldF.value].alternate.value; a != oldF.value && a != parent
    ensures var m := NewChildFiber(w, parent, child, oldF, sameType, tag);
      m.outcome == Normal && m.value.Some? ==>
        var n := m.value.value;
        && n in m.w.fibers && n != parent && oldF != Some(n)
        && MadeFiber(w, parent, child, oldF, sameType, tag, n, m.w.fibers[n])
  {
  }

  lemma CompactSnoc(made: seq<Option<FiberId>>, x: Option<FiberId>)
    ensures Compact(made + [x]) == Compact(made) + (if x.Some? then [x.value] else [])
  {
    assert (made + [x])[..|made|] == made;
  }

  /** The old fiber's alternate, when recycled, was not touched by the earlier positions. */
  lemma AltNotMade(w0: World, w: World, parent: FiberId, kids: seq<Value>, olds: seq<FiberId>,
                   i: nat, oldF: Option<FiberId>, prev: Option<FiberId>, made: seq<Option<FiberId>>)
    requires LoopInv(w0, w, parent, kids, olds, i, oldF, prev, made)
    requires i < |olds| && w0.fibers[olds[i]].alternate.Some?
    ensures var a := w0.fibers[olds[i]].alternate.value;
      a in w0.fibers && a != parent && a !in olds && Some(a) !in made && w.fibers[a] == w0.fibers[a]
  {
    var a := w0.fibers[olds[i]].alternate.value;
    assert AltOk(w0, parent, olds, olds[i]);
    forall k | 0 <= k < i && made[k].Some?
      ensures made[k].value != a
    {
      assert Positioned(w0, parent, kids, olds, k, made[k].value, w.fibers[made[k].value]);
      if SameAt(w0, kids, olds, k) && w0.fibers[olds[k]].alternate.Some? {
        assert made[k] == w0.fibers[olds[k]].alternate;
        assert w0.fibers[olds[k]].alternate != w0.fibers[olds[i]].alternate;
      }
    }
  }

  /** `sameType` of the loop, against the state before the position. */
  predicate SameType(w: World, child: Value, oldF: Option<FiberId>)
  {
    oldF.Some? && oldF.value in w.fibers && Truthy(child) && w.fibers[oldF.value].typ == TypeOf(child)
  }

  /** What one position that returned normally did, against the state before it: its bookkeeping. */
  predicate StepPostA(w: World, w': World, child: Value, oldF: Option<FiberId>, prev: Option<FiberId>, c: Cursor)
  {
    && Accepted(child)
    && Fresh(w') && w.serial <= w'.serial && w.fibers.Keys <= w'.fibers.Keys
    && w'.deletions == w.deletions + (if !SameType(w, child, oldF) && oldF.Some? then [oldF.value] else [])
    && (c.made.Some? <==> Truthy(child))
    && (oldF.Some? ==> oldF.value in w.fibers && c.oldFiber == w.fibers[oldF.value].sibling)
    && (oldF.None? ==> c.oldFiber == None)
    && c.prev == (if c.made.Some? then c.made else prev)
  }

  /** ... the fibers it did not make: only the old fiber, the parent and the previous fiber change. */
  predicate StepPostB(w: World, w': World, parent: FiberId, child: Value, i: nat,
                      oldF: Option<FiberId>, prev: Option<FiberId>, c: Cursor)
  {
    && w.fibers.Keys <= w'.fibers.Keys
    && (i > 0 && c.made.Some? ==> prev.Some?)
    && (forall id :: id in w.fibers && Some(id) != c.made && Some(id) != oldF && id != parent && Some(id) != prev ==>
          w'.fibers[id] == w.fibers[id])
    && (oldF.Some? ==>
          oldF.value in w.fibers &&
          w'.fibers[oldF.value] ==
            (if SameType(w, child, oldF) then w.fibers[oldF.value] else w.fibers[oldF.value].(effectTag := Deletion)))
    && parent in w.fibers
    && w'.fibers[parent] == (if i == 0 && c.made.Some? then w.fibers[parent].(child := c.made) else w.fibers[parent])
    && (prev.Some? ==>
          prev.value in w.fibers &&
          w'.fibers[prev.value] ==
            (if i > 0 && c.made.Some? then w.fibers[prev.value].(sibling := c.made) else w.fibers[prev.value]))
  }

  /** ... and the fiber it made. */
  predicate StepPostC(w: World, w': World, parent: FiberId, child: Value,
                      oldF: Option<FiberId>, prev: Option<FiberId>, c: Cursor)
  {
    c.made.Some? ==>
      var n := c.made.value;
      && n in w'.fibers && n != parent && Some(n) != oldF && Some(n) != prev
      && MadeFiber(w, parent, child, oldF, SameType(w, child, oldF), TagFor(child), n, w'.fibers[n])
  }

  /** The fibers `ReconcileStep` touches are distinct. */
  predicate StepReady(w: World, parent: FiberId, kids: seq<Value>, i: nat, oldF: Option<FiberId>, prev: Option<FiberId>)
  {
    && Fresh(w) && parent in w.fibers && i < |kids|
    && (oldF.Some? ==>
          && oldF.value in w.fibers && oldF.value != parent && prev != oldF
          && var alt := w.fibers[oldF.value].alternate;
             alt.Some? ==> alt.value != oldF.value && alt.value != parent && alt != prev)
    && (prev.Some? ==> prev.value in w.fibers && prev.value != parent)
  }

  lemma StepFactsA(w: World, parent: FiberId, kids: seq<Value>, i: nat, oldF: Option<FiberId>, prev: Option<FiberId>)
    requires StepReady(w, parent, kids, i, oldF, prev)
    ensures var s := ReconcileStep(w, parent, kids, i, oldF, prev);
      s.outcome == Normal ==> StepPostA(w, s.w, kids[i], oldF, prev, s.value)
  {
    var s := ReconcileStep(w, parent, kids, i, oldF, prev);
    if s.outcome == Normal {
      var child := kids[i];
      NewChildBook(w, parent, child, oldF, SameType(w, child, oldF), ClassifyTag(child).tag);
      if oldF.Some? {
        NewChildOld(w, parent, child, oldF, SameType(w, child, oldF), ClassifyTag(child).tag);
      }
      var m := NewChildFiber(w, parent, child, oldF, SameType(w, child, oldF), ClassifyTag(child).tag);
      if m.value.Some? {
        LinkFacts(m.w, parent, i, prev, m.value.value);
      }
    }
  }

  lemma StepFactsB(w: World, parent: FiberId, kids: seq<Value>, i: nat, oldF: Option<FiberId>, prev: Option<FiberId>)
    requires StepReady(w, parent, kids, i, oldF, prev)
    ensures var s := ReconcileStep(w, parent, kids, i, oldF, prev);
      s.outcome == Normal ==> StepPostB(w, s.w, parent, kids[i], i, oldF, prev, s.value)
  {
    var s := ReconcileStep(w, parent, kids, i, oldF, prev);
    if s.outcome == Normal {
      StepTouched(w, parent, kids, i, oldF, prev);
      forall id | id in w.fibers && Some(id) != s.value.made && Some(id) != oldF && id != parent && Some(id) != prev
        ensures s.w.fibers[id] == w.fibers[id]
      {
        StepFrame(w, parent, kids, i, oldF, prev, id);
      }
    }
  }

  /** The old fiber, the parent and the previous fiber after one position. */
  lemma StepTouched(w: World, parent: FiberId, kids: seq<Value>, i: nat, oldF: Option<FiberId>, prev: Option<FiberId>)
    requires StepReady(w, parent, kids, i, oldF, prev)
    ensures var s := ReconcileStep(w, parent, kids, i, oldF, prev);
      s.outcome == Normal ==>
        && w.fibers.Keys <= s.w.fibers.Keys
        && (i > 0 && s.value.made.Some? ==> prev.Some?)
        && (oldF.Some? ==>
              s.w.fibers[oldF.value] ==
                (if SameType(w, kids[i], oldF) then w.fibers[oldF.value] else w.fibers[oldF.value].(effectTag := Deletion)))
        && s.w.fibers[parent] == (if i == 0 && s.value.made.Some? then w.fibers[parent].(child := s.value.made) else w.fibers[parent])
        && (prev.Some? ==>
              s.w.fibers[prev.value] ==
                (if i > 0 && s.value.made.Some? then w.fibers[prev.value].(sibling := s.value.made) else w.fibers[prev.value]))
  {
    StepTouchesOld(w, parent, kids, i, oldF, prev);
    StepTouchesParent(w, parent, kids, i, oldF, prev);
    StepTouchesPrev(w, parent, kids, i, oldF, prev);
  }

  /** A fiber other than the old fiber and the one recycled is left alone by `NewChildFiber`, and not made. */
  lemma NewChildKeeps(w: World, parent: FiberId, child: Value, oldF: Option<FiberId>, sameType: bool, tag: Option<Tag>,
                      id: FiberId)
    requires oldF.Some? ==> oldF.value in w.fibers
    requires sameType ==> oldF.Some?
    requires Fresh(w) && id in w.fibers && Some(id) != oldF
    requires sameType ==> w.fibers[oldF.value].alternate != Some(id)
    ensures var m := NewChildFiber(w, parent, child, oldF, sameType, tag);
      m.outcome == Normal ==> id in m.w.fibers && m.w.fibers[id] == w.fibers[id] && m.value != Some(id)
  {
  }

  /** `NewChildFiber` marks a mismatched old fiber and otherwise leaves it alone; it never returns it. */
  lemma NewChildOld(w: World, parent: FiberId, child: Value, oldF: Option<FiberId>, sameType: bool, tag: Option<Tag>)
    requires oldF.Some? && oldF.value in w.fibers && Fresh(w)
    requires sameType && w.fibers[oldF.value].alternate.Some? ==> w.fibers[oldF.value].alternate != oldF
    ensures var m := NewChildFiber(w, parent, child, oldF, sameType, tag);
      m.outcome == Normal ==>
        && oldF.value in m.w.fibers && m.value != oldF
        && m.w.fibers[oldF.value] == (if sameType then w.fibers[oldF.value] else w.fibers[oldF.value].(effectTag := Deletion))
  {
  }

  lemma StepTouchesOld(w: World, parent: FiberId, kids: seq<Value>, i: nat, oldF: Option<FiberId>, prev: Option<FiberId>)
    requires StepReady(w, parent, kids, i, oldF, prev)
    ensures var s := ReconcileStep(w, parent, kids, i, oldF, prev);
      s.outcome == Normal ==>
        && w.fibers.Keys <= s.w.fibers.Keys
        && (i > 0 && s.value.made.Some? ==> prev.Some?)
        && (oldF.Some? ==>
              s.w.fibers[oldF.value] ==
                (if SameType(w, kids[i], oldF) then w.fibers[oldF.value] else w.fibers[oldF.value].(effectTag := Deletion)))
  {
    var s := ReconcileStep(w, parent, kids, i, oldF, prev);
    if s.outcome == Normal {
      var child := kids[i];
      if oldF.Some? {
        NewChildOld(w, parent, child, oldF, SameType(w, child, oldF), ClassifyTag(child).tag);
      }
      var m := NewChildFiber(w, parent, child, oldF, SameType(w, child, oldF), ClassifyTag(child).tag);
      if m.value.Some? {
        LinkFacts(m.w, parent, i, prev, m.value.value);
      }
    }
  }

  lemma StepTouchesParent(w: World, parent: FiberId, kids: seq<Value>, i: nat, oldF: Option<FiberId>, prev: Option<FiberId>)
    requires StepReady(w, parent, kids, i, oldF, prev)
    ensures var s := ReconcileStep(w, parent, kids, i, oldF, prev);
      s.outcome == Normal ==>
        && parent in s.w.fibers
        && s.w.fibers[parent] == (if i == 0 && s.value.made.Some? then w.fibers[parent].(child := s.value.made) else w.fibers[parent])
  {
    var s := ReconcileStep(w, parent, kids, i, oldF, prev);
    if s.outcome == Normal {
      var child := kids[i];
      NewChildKeeps(w, parent, child, oldF, SameType(w, child, oldF), ClassifyTag(child).tag, parent);
      var m := NewChildFiber(w, parent, child, oldF, SameType(w, child, oldF), ClassifyTag(child).tag);
      if m.value.Some? {
        LinkFacts(m.w, parent, i, prev, m.value.value);
      }
    }
  }

  lemma StepTouchesPrev(w: World, parent: FiberId, kids: seq<Value>, i: nat, oldF: Option<FiberId>, prev: Option<FiberId>)
    requires StepReady(w, parent, kids, i, oldF, prev)
    ensures var s := ReconcileStep(w, parent, kids, i, oldF, prev);
      s.outcome == Normal && prev.Some? ==>
        && prev.value in s.w.fibers
        && s.w.fibers[prev.value] ==
             (if i > 0 && s.value.made.Some? then w.fibers[prev.value].(sibling := s.value.made) else w.fibers[prev.value])
  {
    var s := ReconcileStep(w, parent, kids, i, oldF, prev);
    if s.outcome == Normal {
      var child := kids[i];
      if prev.Some? {
        NewChildKeeps(w, parent, child, oldF, SameType(w, child, oldF), ClassifyTag(child).tag, prev.value);
      }
      var m := NewChildFiber(w, parent, child, oldF, SameType(w, child, oldF), ClassifyTag(child).tag);
      if m.value.Some? {
        LinkFacts(m.w, parent, i, prev, m.value.value);
      }
    }
  }

  /** Any other fiber is left as it was by one position. */
  lemma StepFrame(w: World, parent: FiberId, kids: seq<Value>, i: nat, oldF: Option<FiberId>, prev: Option<FiberId>,
                  id: FiberId)
    requires StepReady(w, parent, kids, i, oldF, prev)
    requires id in w.fibers && Some(id) != oldF && id != parent && Some(id) != prev
    ensures var s := ReconcileStep(w, parent, kids, i, oldF, prev);
      s.outcome == Normal && Some(id) != s.value.made ==> s.w.fibers[id] == w.fibers[id]
  {
    var s := ReconcileStep(w, parent, kids, i, oldF, prev);
    if s.outcome == Normal {
      var child := kids[i];
      if !(SameType(w, child, oldF) && w.fibers[oldF.value].alternate == Some(id)) {
        NewChildKeeps(w, parent, child, oldF, SameType(w, child, oldF), ClassifyTag(child).tag, id);
      }
      var m := NewChildFiber(w, parent, child, oldF, SameType(w, child, oldF), ClassifyTag(child).tag);
      if m.value.Some? {
        LinkFacts(m.w, parent, i, prev, m.value.value);
      }
    }
  }

  /** A position that returns normally is `NewChildFiber` followed, when a fiber is made, by `Link`. */
  lemma StepShape(w: World, parent: FiberId, kids: seq<Value>, i: nat, oldF: Option<FiberId>, prev: Option<FiberId>)
    requires StepReady(w, parent, kids, i, oldF, prev)
    ensures var s := ReconcileStep(w, parent, kids, i, oldF, prev);
      var m := NewChildFiber(w, parent, kids[i], oldF, SameType(w, kids[i], oldF), TagFor(kids[i]));
      s.outcome == Normal ==>
        && m.outcome == Normal && s.value.made == m.value
        && (m.value.None? ==> s.w == m.w)
        && (m.value.Some? ==> s.w == Link(m.w, parent, i, prev, m.value.value).w)
  {
    if !ClassifyTag(kids[i]).NoPrototypeError? {
      assert ClassifyTag(kids[i]).tag == TagFor(kids[i]);
    }
  }

  lemma StepFactsC(w: World, parent: FiberId, kids: seq<Value>, i: nat, oldF: Option<FiberId>, prev: Option<FiberId>)
    requires StepReady(w, parent, kids, i, oldF, prev)
    ensures var s := ReconcileStep(w, parent, kids, i, oldF, prev);
      s.outcome == Normal ==> StepPostC(w, s.w, parent, kids[i], oldF, prev, s.value)
  {
    if SameType(w, kids[i], oldF) {
      StepFactsSame(w, parent, kids, i, oldF, prev);
    } else {
      StepFactsOther(w, parent, kids, i, oldF, prev);
    }
  }

  lemma StepFactsSame(w: World, parent: FiberId, kids: seq<Value>, i: nat, oldF: Option<FiberId>, prev: Option<FiberId>)
    requires StepReady(w, parent, kids, i, oldF, prev) && SameType(w, kids[i], oldF)
    ensures var s := ReconcileStep(w, parent, kids, i, oldF, prev);
      s.outcome == Normal ==> StepPostC(w, s.w, parent, kids[i], oldF, prev, s.value)
  {
    var s := ReconcileStep(w, parent, kids, i, oldF, prev);
    StepShape(w, parent, kids, i, oldF, prev);
    var child := kids[i];
    var m := NewChildFiber(w, parent, child, oldF, true, TagFor(child));
    if s.outcome == Normal && m.value.Some? {
      NewChildMade(w, parent, child, oldF, true, TagFor(child));
      if prev.Some? {
        NewChildKeeps(w, parent, child, oldF, true, TagFor(child), prev.value);
      }
      LinkFacts(m.w, parent, i, prev, m.value.value);
    }
  }

  lemma StepFactsOther(w: World, parent: FiberId, kids: seq<Value>, i: nat, oldF: Option<FiberId>, prev: Option<FiberId>)
    requires StepReady(w, parent, kids, i, oldF, prev) && !SameType(w, kids[i], oldF)
    ensures var s := ReconcileStep(w, parent, kids, i, oldF, prev);
      s.outcome == Normal ==> StepPostC(w, s.w, parent, kids[i], oldF, prev, s.value)
  {
    var s := ReconcileStep(w, parent, kids, i, oldF, prev);
    StepShape(w, parent, kids, i, oldF, prev);
    var child := kids[i];
    var m := NewChildFiber(w, parent, child, oldF, false, TagFor(child));
    if s.outcome == Normal && m.value.Some? {
      NewChildMade(w, parent, child, oldF, false, TagFor(child));
      if prev.Some? {
        NewChildKeeps(w, parent, child, oldF, false, TagFor(child), prev.value);
      }
      LinkFacts(m.w, parent, i, prev, m.value.value);
    }
  }

  lemma LinkFacts(w: World, parent: FiberId, i: nat, prev: Option<FiberId>, n: FiberId)
    requires parent in w.fibers
    requires prev.Some? ==> prev.value in w.fibers && prev.value != parent
    ensures var l := Link(w, parent, i, prev, n);
      l.outcome == Normal ==>
        && (i > 0 ==> prev.Some?)
        && l.w.fibers.Keys == w.fibers.Keys
        && (Fresh(w) ==> Fresh(l.w))
        && l.w == w.(fibers := if i == 0 then w.fibers[parent := w.fibers[parent].(child := Some(n))]
                               else w.fibers[prev.value := w.fibers[prev.value].(sibling := Some(n))])
  {
  }

  /** A fiber made so far is neither an old fiber nor the parent. */
  lemma MadeApart(w0: World, w: World, parent: FiberId, kids: seq<Value>, olds: seq<FiberId>,
                  i: nat, oldF: Option<FiberId>, prev: Option<FiberId>, made: seq<Option<FiberId>>, k: nat)
    requires LoopInv(w0, w, parent, kids, olds, i, oldF, prev, made)
    requires k < i && made[k].Some?
    ensures made[k].value in w.fibers && made[k].value !in olds && made[k].value != parent
  {
    var m := made[k].value;
    assert Positioned(w0, parent, kids, olds, k, m, w.fibers[m]);
    if SameAt(w0, kids, olds, k) {
      assert AltOk(w0, parent, olds, olds[k]);
    }
  }

  /** At the position being handled, the state still agrees with the starting state. */
  lemma AtPosition(w0: World, w: World, parent: FiberId, kids: seq<Value>, olds: seq<FiberId>,
                   i: nat, oldF: Option<FiberId>, prev: Option<FiberId>, made: seq<Option<FiberId>>)
    requires LoopInv(w0, w, parent, kids, olds, i, oldF, prev, made)
    requires i < |kids|
    ensures SameType(w, kids[i], oldF) == SameAt(w0, kids, olds, i)
    ensures oldF.Some? ==> oldF.value in w.fibers && w.fibers[oldF.value] == OldBase(w0, olds, i)
    ensures StepReady(w, parent, kids, i, oldF, prev)
  {
    if oldF.Some? {
      assert w.fibers[olds[i]] == OldAfter(w0, kids, olds, i, i);
      assert AltOk(w0, parent, olds, olds[i]);
      if w0.fibers[olds[i]].alternate.Some? {
        AltNotMade(w0, w, parent, kids, olds, i, oldF, prev, made);
      }
    }
    if prev.Some? {
      var c := Compact(made);
      assert prev.value == c[|c| - 1] && prev.value in c;
      var k :| 0 <= k < |made| && made[k] == prev;
      MadeApart(w0, w, parent, kids, olds, i, oldF, prev, made, k);
    }
  }

  /** The fiber made at position `i`, described against the starting state. */
  lemma MadeRebase(w0: World, w: World, parent: FiberId, kids: seq<Value>, olds: seq<FiberId>,
                   i: nat, oldF: Option<FiberId>, prev: Option<FiberId>, made: seq<Option<FiberId>>,
                   n: FiberId, f: Fiber)
    requires LoopInv(w0, w, parent, kids, olds, i, oldF, prev, made)
    requires i < |kids|
    requires MadeFiber(w, parent, kids[i], oldF, SameType(w, kids[i], oldF), TagFor(kids[i]), n, f)
    ensures Positioned(w0, parent, kids, olds, i, n, f)
    ensures Some(n) !in made && n !in olds && n != parent
  {
    AtPosition(w0, w, parent, kids, olds, i, oldF, prev, made);
    if SameAt(w0, kids, olds, i) && w0.fibers[olds[i]].alternate.Some? {
      AltNotMade(w0, w, parent, kids, olds, i, oldF, prev, made);
    } else {
      forall k | 0 <= k < i && made[k].Some?
        ensures made[k].value != n
      {
        MadeApart(w0, w, parent, kids, olds, i, oldF, prev, made, k);
      }
    }
  }

  lemma InvStepBook(w0: World, w: World, w': World, parent: FiberId, kids: seq<Value>, olds: seq<FiberId>,
                    i: nat, oldF: Option<FiberId>, prev: Option<FiberId>, made: seq<Option<FiberId>>, c: Cursor)
    requires InvStatic(w0, parent, olds)
    requires InvBook(w0, w, kids, olds, i, oldF, prev, made)
    requires i < |kids|
    requires SameType(w, kids[i], oldF) == SameAt(w0, kids, olds, i)
    requires oldF.Some? ==> oldF.value in w.fibers && w.fibers[oldF.value] == OldBase(w0, olds, i)
    requires StepPostA(w, w', kids[i], oldF, prev, c)
    ensures InvBook(w0, w', kids, olds, i + 1, c.oldFiber, c.prev, made + [c.made])
  {
    CompactSnoc(made, c.made);
    var made' := made + [c.made];
    forall k | 0 <= k < i + 1
      ensures Accepted(kids[k]) && (made'[k].Some? <==> Truthy(kids[k]))
    {
      if k < i { assert made'[k] == made[k]; }
    }
    NextOld(w0, w, parent, kids, olds, i, oldF, c);
    DeletionsStep(w0, w, w', kids, olds, i, oldF, prev, c);
  }

  /** The loop's `oldFiber` moves one place along the old chain. */
  lemma NextOld(w0: World, w: World, parent: FiberId, kids: seq<Value>, olds: seq<FiberId>,
                i: nat, oldF: Option<FiberId>, c: Cursor)
    requires InvStatic(w0, parent, olds)
    requires oldF == OldAt(olds, i)
    requires oldF.Some? ==> oldF.value in w.fibers && w.fibers[oldF.value] == OldBase(w0, olds, i)
    requires oldF.Some? ==> c.oldFiber == w.fibers[oldF.value].sibling
    requires oldF.None? ==> c.oldFiber == None
    ensures c.oldFiber == OldAt(olds, i + 1)
  {
    if oldF.Some? {
      assert w.fibers[oldF.value].sibling == w0.fibers[olds[i]].sibling;
      if i + 1 < |olds| {
        assert w0.fibers[olds[i]].sibling == Some(olds[i + 1]);
      } else {
        assert i == |olds| - 1;
      }
    }
  }

  /** The deletions pushed grow by the position's mismatched old fiber. */
  lemma DeletionsStep(w0: World, w: World, w': World, kids: seq<Value>, olds: seq<FiberId>,
                      i: nat, oldF: Option<FiberId>, prev: Option<FiberId>, c: Cursor)
    requires i < |kids| && oldF == OldAt(olds, i)
    requires w.deletions == w0.deletions + DeletedUpTo(w0, kids, olds, i)
    requires SameType(w, kids[i], oldF) == SameAt(w0, kids, olds, i)
    requires w'.deletions == w.deletions + (if !SameType(w, kids[i], oldF) && oldF.Some? then [oldF.value] else [])
    ensures w'.deletions == w0.deletions + DeletedUpTo(w0, kids, olds, i + 1)
  {
    var extra := if i < |olds| && !SameAt(w0, kids, olds, i) then [olds[i]] else [];
    assert DeletedUpTo(w0, kids, olds, i + 1) == DeletedUpTo(w0, kids, olds, i) + extra;
    assert (w0.deletions + DeletedUpTo(w0, kids, olds, i)) + extra == w0.deletions + (DeletedUpTo(w0, kids, olds, i) + extra);
  }

  lemma InvStepMade(w0: World, w: World, w': World, parent: FiberId, kids: seq<Value>, olds: seq<FiberId>,
                    i: nat, oldF: Option<FiberId>, prev: Option<FiberId>, made: seq<Option<FiberId>>, c: Cursor)
    requires i < |kids| && |made| == i
    requires InvMade(w0, w, parent, kids, olds, i, made)
    requires forall k :: 0 <= k < i && made[k].Some? ==>
      made[k].value in w.fibers && Some(made[k].value) != oldF && made[k].value != parent
    requires c.made.Some? ==>
      && c.made.value in w'.fibers && Some(c.made.value) !in made
      && Positioned(w0, parent, kids, olds, i, c.made.value, w'.fibers[c.made.value])
    requires StepPostB(w, w', parent, kids[i], i, oldF, prev, c)
    ensures InvMade(w0, w', parent, kids, olds, i + 1, made + [c.made])
  {
    CompactSnoc(made, c.made);
    var made' := made + [c.made];
    forall k | 0 <= k < i + 1 && made'[k].Some?
      ensures made'[k].value in w'.fibers
      ensures Positioned(w0, parent, kids, olds, k, made'[k].value, w'.fibers[made'[k].value])
    {
      if k < i {
        var m := made[k].value;
        assert made'[k] == made[k];
        assert Positioned(w0, parent, kids, olds, k, m, w.fibers[m]);
        assert Some(m) != c.made;
        if Some(m) != prev {
          assert w'.fibers[m] == w.fibers[m];
        }
      }
    }
  }

  lemma InvStepLinks(w0: World, w: World, w': World, parent: FiberId, kids: seq<Value>, olds: seq<FiberId>,
                     i: nat, oldF: Option<FiberId>, prev: Option<FiberId>, made: seq<Option<FiberId>>, c: Cursor)
    requires LoopInv(w0, w, parent, kids, olds, i, oldF, prev, made)
    requires i < |kids|
    requires StepPostA(w, w', kids[i], oldF, prev, c)
    requires StepPostB(w, w', parent, kids[i], i, oldF, prev, c)
    requires StepPostC(w, w', parent, kids[i], oldF, prev, c)
    ensures InvLinks(w0, w', parent, made + [c.made])
  {
    AtPosition(w0, w, parent, kids, olds, i, oldF, prev, made);
    CompactSnoc(made, c.made);
    var cs := Compact(made);
    var cs' := Compact(made + [c.made]);
    if c.made.Some? {
      MadeRebase(w0, w, parent, kids, olds, i, oldF, prev, made, c.made.value, w'.fibers[c.made.value]);
    }
    forall k | 0 <= k < |cs'| - 1
      ensures cs'[k] in w'.fibers && w'.fibers[cs'[k]].sibling == Some(cs'[k + 1])
    {
      assert cs'[k] == cs[k] && cs[k] in cs;
      var j :| 0 <= j < |made| && made[j] == Some(cs[k]);
      MadeApart(w0, w, parent, kids, olds, i, oldF, prev, made, j);
      if k < |cs| - 1 {
        assert cs[k] != cs[|cs| - 1];
        assert w'.fibers[cs[k]] == w.fibers[cs[k]];
      } else {
        assert prev == Some(cs[k]);
      }
    }
  }

  lemma InvStepOlds(w0: World, w: World, w': World, parent: FiberId, kids: seq<Value>, olds: seq<FiberId>,
                    i: nat, oldF: Option<FiberId>, prev: Option<FiberId>, made: seq<Option<FiberId>>, c: Cursor)
    requires InvStatic(w0, parent, olds)
    requires i < |kids| && |made| == i && oldF == OldAt(olds, i) && w0.fibers.Keys <= w.fibers.Keys
    requires InvOlds(w0, w, parent, kids, olds, i, made)
    requires SameType(w, kids[i], oldF) == SameAt(w0, kids, olds, i)
    requires prev.Some? ==> prev.value !in olds && Some(prev.value) in made
    requires c.made.Some? ==> c.made.value !in olds
    requires StepPostB(w, w', parent, kids[i], i, oldF, prev, c)
    ensures InvOlds(w0, w', parent, kids, olds, i + 1, made + [c.made])
  {
    forall k | 0 <= k < |olds|
      ensures w'.fibers[olds[k]] == OldAfter(w0, kids, olds, i + 1, k)
    {
      if k != i {
        assert i >= |olds| || olds[k] != olds[i];
        assert w'.fibers[olds[k]] == w.fibers[olds[k]];
      }
    }
    forall id | id in w0.fibers && id != parent && id !in olds && Some(id) !in made + [c.made]
      ensures w'.fibers[id] == w0.fibers[id]
    {
      assert Some(id) !in made;
      assert w'.fibers[id] == w.fibers[id];
    }
  }

  /** Every fiber made so far is neither an old fiber nor the parent. */
  lemma AllMadeApart(w0: World, w: World, parent: FiberId, kids: seq<Value>, olds: seq<FiberId>,
                     i: nat, oldF: Option<FiberId>, prev: Option<FiberId>, made: seq<Option<FiberId>>)
    requires LoopInv(w0, w, parent, kids, olds, i, oldF, prev, made)
    ensures forall k :: 0 <= k < i && made[k].Some? ==>
      made[k].value in w.fibers && made[k].value !in olds && made[k].value != parent
    ensures prev.Some? ==> prev.value !in olds && Some(prev.value) in made
  {
    forall k | 0 <= k < i && made[k].Some?
      ensures made[k].value in w.fibers && made[k].value !in olds && made[k].value != parent
    {
      MadeApart(w0, w, parent, kids, olds, i, oldF, prev, made, k);
    }
    if prev.Some? {
      var cs := Compact(made);
      assert prev.value == cs[|cs| - 1] && prev.value in cs;
    }
  }

  /** One position of the loop that returns normally keeps `LoopInv`. */
  lemma StepKeepsInv(w0: World, w: World, parent: FiberId, kids: seq<Value>, olds: seq<FiberId>,
                     i: nat, oldF: Option<FiberId>, prev: Option<FiberId>, made: seq<Option<FiberId>>)
    requires LoopInv(w0, w, parent, kids, olds, i, oldF, prev, made)
    requires i < |kids|
    ensures var s := ReconcileStep(w, parent, kids, i, oldF, prev);
      s.outcome == Normal ==>
        LoopInv(w0, s.w, parent, kids, olds, i + 1, s.value.oldFiber, s.value.prev, made + [s.value.made])
  {
    var s := ReconcileStep(w, parent, kids, i, oldF, prev);
    if s.outcome == Normal {
      var w', c := s.w, s.value;
      AtPosition(w0, w, parent, kids, olds, i, oldF, prev, made);
      StepFactsA(w, parent, kids, i, oldF, prev);
      StepFactsB(w, parent, kids, i, oldF, prev);
      StepFactsC(w, parent, kids, i, oldF, prev);
      AllMadeApart(w0, w, parent, kids, olds, i, oldF, prev, made);
      if c.made.Some? {
        MadeRebase(w0, w, parent, kids, olds, i, oldF, prev, made, c.made.value, w'.fibers[c.made.value]);
      }
      InvStepBook(w0, w, w', parent, kids, olds, i, oldF, prev, made, c);
      InvStepMade(w0, w, w', parent, kids, olds, i, oldF, prev, made, c);
      InvStepLinks(w0, w, w', parent, kids, olds, i, oldF, prev, made, c);
      InvStepOlds(w0, w, w', parent, kids, olds, i, oldF, prev, made, c);
    }
  }

  /** The rest of the loop, from a state satisfying `LoopInv`, ends in one satisfying it for every position. */
  lemma {:induction false} LoopKeepsInv(w0: World, w: World, parent: FiberId, kids: seq<Value>, olds: seq<FiberId>,
                                        i: nat, oldF: Option<FiberId>, prev: Option<FiberId>, made: seq<Option<FiberId>>)
    requires LoopInv(w0, w, parent, kids, olds, i, oldF, prev, made)
    ensures var r := ReconcileLoop(w, parent, kids, i, oldF, prev);
      r.outcome == Normal ==>
        LoopInv(w0, r.w, parent, kids, olds, |kids|, OldAt(olds, |kids|), LastMade(made + r.value), made + r.value)
    decreases |kids| - i, 1
  {
    var r := ReconcileLoop(w, parent, kids, i, oldF, prev);
    if i >= |kids| {
      assert r == Run(w, Normal, []);
      assert made + r.value == made;
    } else {
      StepKeepsInv(w0, w, parent, kids, olds, i, oldF, prev, made);
      var s := ReconcileStep(w, parent, kids, i, oldF, prev);
      if s.outcome == Normal {
        LoopAfterStep(w0, w, parent, kids, olds, i, oldF, prev, made, s);
      }
    }
  }

  lemma {:induction false} LoopAfterStep(w0: World, w: World, parent: FiberId, kids: seq<Value>, olds: seq<FiberId>,
                                         i: nat, oldF: Option<FiberId>, prev: Option<FiberId>, made: seq<Option<FiberId>>,
                                         s: Run<Cursor>)
    requires i < |kids|
    requires s == ReconcileStep(w, parent, kids, i, oldF, prev) && s.outcome == Normal
    requires LoopInv(w0, s.w, parent, kids, olds, i + 1, s.value.oldFiber, s.value.prev, made + [s.value.made])
    ensures var r := ReconcileLoop(w, parent, kids, i, oldF, prev);
      r.outcome == Normal ==>
        LoopInv(w0, r.w, parent, kids, olds, |kids|, OldAt(olds, |kids|), LastMade(made + r.value), made + r.value)
    decreases |kids| - i, 0
  {
    var made' := made + [s.value.made];
    LoopKeepsInv(w0, s.w, parent, kids, olds, i + 1, s.value.oldFiber, s.value.prev, made');
    var rest := ReconcileLoop(s.w, parent, kids, i + 1, s.value.oldFiber, s.value.prev);
    LoopUnfold(w, parent, kids, i, oldF, prev);
    SnocAppend(made, s.value.made, rest.value);
  }

  lemma LoopUnfold(w: World, parent: FiberId, kids: seq<Value>, i: nat, oldF: Option<FiberId>, prev: Option<FiberId>)
    requires i < |kids|
    ensures var s := ReconcileStep(w, parent, kids, i, oldF, prev);
      s.outcome == Normal ==>
        var rest := ReconcileLoop(s.w, parent, kids, i + 1, s.value.oldFiber, s.value.prev);
        ReconcileLoop(w, parent, kids, i, oldF, prev) == Run(rest.w, rest.outcome, [s.value.made] + rest.value)
  {
  }

  /** A step that does not return normally ends the loop with its own state and outcome. */
  lemma LoopStops(w: World, parent: FiberId, kids: seq<Value>, i: nat, oldF: Option<FiberId>, prev: Option<FiberId>)
    requires i < |kids|
    ensures var s := ReconcileStep(w, parent, kids, i, oldF, prev);
      s.outcome != Normal ==> ReconcileLoop(w, parent, kids, i, oldF, prev) == Run(s.w, s.outcome, [])
  {
  }

  lemma SnocAppend<T>(a: seq<T>, x: T, b: seq<T>)
    ensures (a + [x]) + b == a + ([x] + b)
  {
  }

  /** `currentFiber.alternate && currentFiber.alternate.child`. */
  function OldHead(w: World, parent: FiberId): Option<FiberId>
    requires parent in w.fibers
  {
    var alt := w.fibers[parent].alternate;
    if alt.Some? && alt.value in w.fibers then w.fibers[alt.value].child else None
  }

  /**
   * The children handled: every child was neither `null`/`undefined` nor a
   * function type without a prototype, exactly the truthy ones got a fiber,
   * each described by `Positioned` against the state before the call, and
   * no fiber was made twice.
   */
  predicate MadeAsPositioned(w: World, parent: FiberId, kids: seq<Value>, olds: seq<FiberId>,
                             w': World, made: seq<Option<FiberId>>)
  {
    && |made| == |kids|
    && (forall k :: 0 <= k < |kids| ==> Accepted(kids[k]) && (made[k].Some? <==> Truthy(kids[k])))
    && (forall k :: 0 <= k < |kids| && made[k].Some? ==>
          made[k].value in w'.fibers && Positioned(w, parent, kids, olds, k, made[k].value, w'.fibers[made[k].value]))
    && DistinctIds(Compact(made))
  }

  /**
   * The fibers made are `parent.child` and its `sibling` chain, in child
   * order; with no fiber made, `parent.child` is left as it was.
   */
  predicate ChainedUnder(w: World, parent: FiberId, w': World, made: seq<Option<FiberId>>)
  {
    && (forall k :: 0 <= k < |Compact(made)| - 1 ==>
          Compact(made)[k] in w'.fibers && w'.fibers[Compact(made)[k]].sibling == Some(Compact(made)[k + 1]))
    && parent in w.fibers && parent in w'.fibers
    && w'.fibers[parent] == w.fibers[parent].(child :=
         if Compact(made) == [] then w.fibers[parent].child else Some(Compact(made)[0]))
  }

  /**
   * Exactly the mismatched old fibers at positions below `|kids|` were marked
   * DELETION and pushed onto `deletions`, in order; old fibers past the end
   * are untouched but for the first one's effect links; every other fiber
   * of the state before the call is unchanged.
   */
  predicate OldsSettled(w: World, parent: FiberId, kids: seq<Value>, olds: seq<FiberId>,
                        w': World, made: seq<Option<FiberId>>)
  {
    && w'.deletions == w.deletions + DeletedUpTo(w, kids, olds, |kids|)
    && (forall k :: 0 <= k < |olds| ==>
          olds[k] in w.fibers && olds[k] in w'.fibers && w'.fibers[olds[k]] == OldAfter(w, kids, olds, |kids|, k))
    && (forall id :: id in w.fibers && id != parent && id !in olds && Some(id) !in made ==>
          id in w'.fibers && w'.fibers[id] == w.fibers[id])
  }

  /**
   * `reconcileChildren` that returns normally, for an old chain apart from
   * the parent and from its own alternates, does what the three predicates
   * above say.
   */
  lemma ReconcileChildrenFacts(w: World, parent: FiberId, kids: seq<Value>, olds: seq<FiberId>)
    requires Generations(w, parent, olds)
    requires OldChain(w, OldHead(w, parent), olds)
    requires w.fibers[parent].alternate.Some? ==> w.fibers[parent].alternate.value in w.fibers
    ensures var r := ReconcileChildren(w, parent, kids);
      r.outcome == Normal ==>
        && MadeAsPositioned(w, parent, kids, olds, r.w, r.value)
        && ChainedUnder(w, parent, r.w, r.value)
        && OldsSettled(w, parent, kids, olds, r.w, r.value)
  {
    var r := ReconcileChildren(w, parent, kids);
    ChildrenInv(w, parent, kids, olds);
    if r.outcome == Normal {
      InvEndMade(w, r.w, parent, kids, olds, r.value);
      InvEndChain(w, r.w, parent, kids, olds, r.value);
      InvEndOlds(w, r.w, parent, kids, olds, r.value);
    }
  }

  lemma ChildrenInv(w: World, parent: FiberId, kids: seq<Value>, olds: seq<FiberId>)
    requires Generations(w, parent, olds)
    requires OldChain(w, OldHead(w, parent), olds)
    requires w.fibers[parent].alternate.Some? ==> w.fibers[parent].alternate.value in w.fibers
    ensures var r := ReconcileChildren(w, parent, kids);
      r.outcome == Normal ==>
        LoopInv(w, r.w, parent, kids, olds, |kids|, OldAt(olds, |kids|), LastMade(r.value), r.value)
  {
    var r := ReconcileChildren(w, parent, kids);
    ChildrenUnfold(w, parent, kids, olds);
    InitInv(w, parent, kids, olds);
    var w1 := ResetHead(w, olds);
    LoopKeepsInv(w, w1, parent, kids, olds, 0, OldAt(olds, 0), None, []);
    EmptyAppend(r.value);
  }

  lemma InvEndMade(w0: World, w: World, parent: FiberId, kids: seq<Value>, olds: seq<FiberId>, made: seq<Option<FiberId>>)
    requires LoopInv(w0, w, parent, kids, olds, |kids|, OldAt(olds, |kids|), LastMade(made), made)
    ensures MadeAsPositioned(w0, parent, kids, olds, w, made)
  {
  }

  lemma InvEndChain(w0: World, w: World, parent: FiberId, kids: seq<Value>, olds: seq<FiberId>, made: seq<Option<FiberId>>)
    requires LoopInv(w0, w, parent, kids, olds, |kids|, OldAt(olds, |kids|), LastMade(made), made)
    ensures ChainedUnder(w0, parent, w, made)
  {
  }

  lemma InvEndOlds(w0: World, w: World, parent: FiberId, kids: seq<Value>, olds: seq<FiberId>, made: seq<Option<FiberId>>)
    requires LoopInv(w0, w, parent, kids, olds, |kids|, OldAt(olds, |kids|), LastMade(made), made)
    ensures OldsSettled(w0, parent, kids, olds, w, made)
  {
  }

  /** The state after line 178. */
  function ResetHead(w: World, olds: seq<FiberId>): World
    requires olds != [] ==> olds[0] in w.fibers
  {
    if olds != [] then SetFiber(w, olds[0], ResetEffects(w.fibers[olds[0]])) else w
  }

  lemma ChildrenUnfold(w: World, parent: FiberId, kids: seq<Value>, olds: seq<FiberId>)
    requires parent in w.fibers
    requires OldChain(w, OldHead(w, parent), olds)
    requires w.fibers[parent].alternate.Some? ==> w.fibers[parent].alternate.value in w.fibers
    ensures ReconcileChildren(w, parent, kids) == ReconcileLoop(ResetHead(w, olds), parent, kids, 0, OldAt(olds, 0), None)
  {
  }

  lemma InitInv(w: World, parent: FiberId, kids: seq<Value>, olds: seq<FiberId>)
    requires Generations(w, parent, olds)
    requires OldChain(w, OldHead(w, parent), olds)
    ensures LoopInv(w, ResetHead(w, olds), parent, kids, olds, 0, OldAt(olds, 0), None, [])
  {
    assert Compact([]) == [];
    var w1 := ResetHead(w, olds);
    forall k | 0 <= k < |olds|
      ensures w1.fibers[olds[k]] == OldAfter(w, kids, olds, 0, k)
    {
      if k != 0 { assert olds[k] != olds[0]; }
    }
  }

  lemma EmptyAppend<T>(a: seq<T>)
    ensures [] + a == a
  {
  }

  /**
   * Lines 196-204 as written: a recycled alternate gets new props, links and
   * tag, but line 202 writes a field named `newEffect`, so the effect
   * links it had two renders ago survive, and so do its `child`,
   * `sibling`, tag and `stateNode`.
   */
  lemma RecycledKeepsStaleLinks(w: World, parent: FiberId, child: Value, o: FiberId, tag: Option<Tag>)
    requires o in w.fibers && w.fibers[o].alternate.Some? && w.fibers[o].alternate.value in w.fibers
    ensures var a := w.fibers[o].alternate.value;
      var r := NewChildFiber(w, parent, child, Some(o), true, tag);
      && r.outcome == Normal && r.value == Some(a)
      && var f := r.w.fibers[a];
         var before := w.fibers[a];
         && f.effectTag == Update && f.alternate == Some(o) && f.props == PropsOf(child) && f.ret == Some(parent)
         && f.nextEffect == before.nextEffect && f.firstEffect == before.firstEffect && f.lastEffect == before.lastEffect
         && f.child == before.child && f.sibling == before.sibling
         && f.tag == before.tag && f.stateNode == before.stateNode
  {
  }
}
