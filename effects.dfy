/**
 * `completeUnitOfWork` of src/scheduler.js (lines 70-95): a finished fiber
 * hands its effect list, then itself if it carries an effect, to the end of
 * its parent's effect list. A list is `firstEffect`, then `nextEffect` links,
 * up to `lastEffect`.
 */
module Effects {
  import opened Wrappers
  import opened Fibers

  /** Lines 74-76: a parent without a first effect adopts the child's. */
  function AdoptFirst(w: World, p: FiberId, c: FiberId): World
    requires p in w.fibers && c in w.fibers
  {
    if w.fibers[p].firstEffect.None? then SetFiber(w, p, w.fibers[p].(firstEffect := w.fibers[c].firstEffect))
    else w
  }

  /** Lines 77-82: a child with a non-empty list has it appended after the parent's last effect. */
  function SpliceChildList(w: World, p: FiberId, c: FiberId): Run<()>
    requires p in w.fibers && c in w.fibers
  {
    if w.fibers[c].lastEffect.None? then Run(w, Normal, ())
    else
      var last := w.fibers[p].lastEffect;
      if last.Some? && last.value !in w.fibers then Run(w, Threw, ())
      else
        var w1 := if last.Some? then SetFiber(w, last.value, w.fibers[last.value].(nextEffect := w.fibers[c].firstEffect))
                  else w;
        Run(SetFiber(w1, p, w1.fibers[p].(lastEffect := w1.fibers[c].lastEffect)), Normal, ())
  }

  /** Lines 84-93: a child with an effect tag is appended itself. */
  function AppendSelf(w: World, p: FiberId, c: FiberId): Run<()>
    requires p in w.fibers && c in w.fibers
  {
    if w.fibers[c].effectTag == NoEffect then Run(w, Normal, ())
    else
      var last := w.fibers[p].lastEffect;
      if last.Some? && last.value !in w.fibers then Run(w, Threw, ())
      else
        var w1 := if last.Some? then SetFiber(w, last.value, w.fibers[last.value].(nextEffect := Some(c)))
                  else SetFiber(w, p, w.fibers[p].(firstEffect := Some(c)));
        Run(SetFiber(w1, p, w1.fibers[p].(lastEffect := Some(c))), Normal, ())
  }

  /**
   * `completeUnitOfWork(c)`: nothing happens for a fiber whose `return` is
   * `null`; a `return` the arena lacks throws, since line 74 reads through
   * it. The parent's dangling `firstEffect` (line 74) and the child's
   * dangling `lastEffect` (line 77) are only asked for truthiness, and are kept by
   * `AdoptFirst` and `SpliceChildList`.
   */
  function CompleteUnitOfWork(w: World, c: FiberId): Run<()>
  {
    if c !in w.fibers then Run(w, Threw, ())
    else
      var ret := w.fibers[c].ret;
      if ret.None? then Run(w, Normal, ())
      else if ret.value !in w.fibers then Run(w, Threw, ())
      else
        var p := ret.value;
        var w1 := AdoptFirst(w, p, c);
        var s := SpliceChildList(w1, p, c);
        if s.outcome != Normal then s
        else AppendSelf(s.w, p, c)
  }

  predicate DistinctIds(s: seq<FiberId>)
  {
    forall k, j :: 0 <= k < j < |s| ==> s[k] != s[j]
  }

  /** The fibers of `s` exist, are distinct, and each links to the next through `nextEffect`. */
  predicate Chain(w: World, s: seq<FiberId>)
  {
    && (forall k :: 0 <= k < |s| ==> s[k] in w.fibers)
    && (forall k :: 0 <= k < |s| - 1 ==> w.fibers[s[k]].nextEffect == Some(s[k + 1]))
    && DistinctIds(s)
  }

  /** `first`, `nextEffect` links, `last` spell out `s`, with no fiber twice. */
  predicate ListIs(w: World, first: Option<FiberId>, last: Option<FiberId>, s: seq<FiberId>)
  {
    && (s == [] ==> first.None? && last.None?)
    && (s != [] ==> first == Some(s[0]) && last == Some(s[|s| - 1]))
    && Chain(w, s)
  }

  /** The effect list of fiber `f` is `s`. */
  predicate EffectListIs(w: World, f: FiberId, s: seq<FiberId>)
  {
    f in w.fibers && ListIs(w, w.fibers[f].firstEffect, w.fibers[f].lastEffect, s)
  }

  /** Fiber `x` differs from before at most in `nextEffect`. */
  predicate OnlyNextEffect(w: World, w': World, x: FiberId)
  {
    x in w.fibers && x in w'.fibers && w'.fibers[x] == w.fibers[x].(nextEffect := w'.fibers[x].nextEffect)
  }

  /**
   * From `w` to `w'` only the effect ends of `p` and the `nextEffect` links of
   * the fibers of `s` changed.
   */
  predicate EffectsOnly(w: World, w': World, p: FiberId, s: seq<FiberId>)
  {
    && w'.fibers.Keys == w.fibers.Keys
    && p in w.fibers && p in w'.fibers
    && w'.fibers[p] == w.fibers[p].(firstEffect := w'.fibers[p].firstEffect, lastEffect := w'.fibers[p].lastEffect)
    && (forall x :: x in w.fibers && x != p && x !in s ==> w'.fibers[x] == w.fibers[x])
    && (forall x :: x in s ==> OnlyNextEffect(w, w', x))
  }

  /** A chain survives any change that keeps its fibers and every link but the last one's. */
  lemma ChainFrame(w: World, w': World, s: seq<FiberId>)
    requires Chain(w, s)
    requires forall k :: 0 <= k < |s| ==> s[k] in w'.fibers
    requires forall k :: 0 <= k < |s| - 1 ==> w'.fibers[s[k]].nextEffect == w.fibers[s[k]].nextEffect
    ensures Chain(w', s)
  {
  }

  /** Two disjoint chains joined by a link from the first's last fiber to the second's first form one. */
  lemma {:induction false} ChainJoin(w: World, a: seq<FiberId>, b: seq<FiberId>)
    requires Chain(w, a) && Chain(w, b) && a != [] && b != []
    requires forall x :: x in a ==> x !in b
    requires w.fibers[a[|a| - 1]].nextEffect == Some(b[0])
    ensures Chain(w, a + b)
  {
    var s := a + b;
    forall k | 0 <= k < |s| - 1
      ensures w.fibers[s[k]].nextEffect == Some(s[k + 1])
    {
      if k < |a| - 1 {
        assert s[k] == a[k] && s[k + 1] == a[k + 1];
      } else if k == |a| - 1 {
        assert s[k] == a[|a| - 1] && s[k + 1] == b[0];
      } else {
        assert s[k] == b[k - |a|] && s[k + 1] == b[k - |a| + 1];
      }
    }
    forall k, j | 0 <= k < j < |s|
      ensures s[k] != s[j]
    {
      if j < |a| {
        assert s[k] == a[k] && s[j] == a[j];
      } else if k >= |a| {
        assert s[k] == b[k - |a|] && s[j] == b[j - |a|];
      } else {
        assert s[k] == a[k] && a[k] in a;
        assert s[j] == b[j - |a|] && b[j - |a|] in b;
      }
    }
  }

  /** A chain extended by one new fiber its last fiber links to. */
  lemma ChainSnoc(w: World, a: seq<FiberId>, c: FiberId)
    requires Chain(w, a) && a != [] && c in w.fibers && c !in a
    requires w.fibers[a[|a| - 1]].nextEffect == Some(c)
    ensures Chain(w, a + [c])
  {
    ChainJoin(w, a, [c]);
  }

  /** Hypotheses shared by the steps of `completeUnitOfWork`: disjoint, well-formed lists. */
  predicate Disjoint(w: World, p: FiberId, c: FiberId, P: seq<FiberId>, C: seq<FiberId>)
  {
    && c in w.fibers && p != c
    && EffectListIs(w, p, P) && EffectListIs(w, c, C)
    && p !in P && p !in C && c !in P && c !in C
    && (forall x :: x in P ==> x !in C)
  }

  /** Lines 74-82 when the child's list is empty: nothing changes. */
  lemma SpliceEmptyChild(w: World, p: FiberId, c: FiberId, P: seq<FiberId>)
    requires Disjoint(w, p, c, P, [])
    ensures SpliceChildList(AdoptFirst(w, p, c), p, c) == Run(w, Normal, ())
  {
    if P == [] {
      assert w.fibers[p].(firstEffect := w.fibers[c].firstEffect) == w.fibers[p];
      assert w.fibers[p := w.fibers[p]] == w.fibers;
    }
  }

  /** Lines 74-82 when only the child's list is non-empty: the parent adopts it. */
  lemma SpliceIntoEmpty(w: World, p: FiberId, c: FiberId, C: seq<FiberId>)
    requires Disjoint(w, p, c, [], C) && C != []
    ensures var s := SpliceChildList(AdoptFirst(w, p, c), p, c);
      s.outcome == Normal && EffectListIs(s.w, p, C) && EffectsOnly(w, s.w, p, [])
  {
    var s := SpliceChildList(AdoptFirst(w, p, c), p, c);
    ChainFrame(w, s.w, C);
  }

  /** Lines 74-82 when both lists are non-empty: the parent's last effect links to the child's first. */
  lemma SpliceOnto(w: World, p: FiberId, c: FiberId, P: seq<FiberId>, C: seq<FiberId>)
    requires Disjoint(w, p, c, P, C) && P != [] && C != []
    ensures var s := SpliceChildList(AdoptFirst(w, p, c), p, c);
      s.outcome == Normal && EffectListIs(s.w, p, P + C) && EffectsOnly(w, s.w, p, P)
  {
    var s := SpliceChildList(AdoptFirst(w, p, c), p, c);
    var last := P[|P| - 1];
    assert AdoptFirst(w, p, c) == w;
    assert s.w.fibers == w.fibers[last := w.fibers[last].(nextEffect := Some(C[0]))][p := w.fibers[p].(lastEffect := Some(C[|C| - 1]))];
    ChainFrame(w, s.w, P);
    forall k | 0 <= k < |C|
      ensures C[k] in s.w.fibers && s.w.fibers[C[k]] == w.fibers[C[k]]
    {
      assert P[|P| - 1] in P;
      assert C[k] in C;
    }
    ChainFrame(w, s.w, C);
    ChainJoin(s.w, P, C);
  }

  /** Lines 74-82 on well-formed, disjoint lists: the parent's list becomes `P + C`. */
  lemma SpliceFacts(w: World, p: FiberId, c: FiberId, P: seq<FiberId>, C: seq<FiberId>)
    requires Disjoint(w, p, c, P, C)
    ensures var s := SpliceChildList(AdoptFirst(w, p, c), p, c);
      s.outcome == Normal && EffectListIs(s.w, p, P + C) && EffectsOnly(w, s.w, p, P)
  {
    if C == [] {
      SpliceEmptyChild(w, p, c, P);
      assert P + C == P;
    } else if P == [] {
      SpliceIntoEmpty(w, p, c, C);
      assert P + C == C;
    } else {
      SpliceOnto(w, p, c, P, C);
    }
  }

  /** Lines 84-93 on a well-formed list: the parent's list gains the child at its end iff the child has an effect tag. */
  lemma AppendSelfFacts(w: World, p: FiberId, c: FiberId, L: seq<FiberId>)
    requires c in w.fibers && p != c
    requires EffectListIs(w, p, L)
    requires p !in L && c !in L
    ensures var s := AppendSelf(w, p, c);
      && s.outcome == Normal
      && EffectListIs(s.w, p, L + (if w.fibers[c].effectTag != NoEffect then [c] else []))
      && EffectsOnly(w, s.w, p, L)
  {
    var s := AppendSelf(w, p, c);
    if w.fibers[c].effectTag == NoEffect {
      assert L + [] == L;
    } else if L == [] {
      assert L + [c] == [c];
    } else {
      var last := L[|L| - 1];
      assert s.w.fibers == w.fibers[last := w.fibers[last].(nextEffect := Some(c))][p := w.fibers[p].(lastEffect := Some(c))];
      ChainFrame(w, s.w, L);
      ChainSnoc(s.w, L, c);
    }
  }

  /** Change confined to `s`, then to `t` with `s` inside `t`, is change confined to `t`. */
  lemma EffectsOnlyTrans(w: World, w1: World, w2: World, p: FiberId, s: seq<FiberId>, t: seq<FiberId>)
    requires EffectsOnly(w, w1, p, s) && EffectsOnly(w1, w2, p, t)
    requires p !in t && forall x :: x in s ==> x in t
    ensures EffectsOnly(w, w2, p, t)
  {
    forall x | x in t
      ensures OnlyNextEffect(w, w2, x)
    {
      assert OnlyNextEffect(w1, w2, x);
      if x in s {
        assert OnlyNextEffect(w, w1, x);
      } else {
        assert w1.fibers[x] == w.fibers[x];
      }
    }
  }

  /**
   * `completeUnitOfWork` on well-formed, disjoint lists: the parent's effect
   * list becomes its old list, then the child's list, then the child itself
   * when it carries an effect tag, so descendants precede their ancestors.
   * Only the parent's effect ends and the `nextEffect` links of the two lists'
   * fibers change.
   */
  lemma CompleteSplices(w: World, c: FiberId, P: seq<FiberId>, C: seq<FiberId>)
    requires c in w.fibers && w.fibers[c].ret.Some?
    requires Disjoint(w, w.fibers[c].ret.value, c, P, C)
    ensures var r := CompleteUnitOfWork(w, c);
      && r.outcome == Normal
      && EffectListIs(r.w, w.fibers[c].ret.value, P + C + (if w.fibers[c].effectTag != NoEffect then [c] else []))
      && EffectsOnly(w, r.w, w.fibers[c].ret.value, P + C)
  {
    var p := w.fibers[c].ret.value;
    SpliceFacts(w, p, c, P, C);
    var s := SpliceChildList(AdoptFirst(w, p, c), p, c);
    assert CompleteUnitOfWork(w, c) == AppendSelf(s.w, p, c);
    assert s.w.fibers[c] == w.fibers[c];
    AppendSelfFacts(s.w, p, c, P + C);
    EffectsOnlyTrans(w, s.w, CompleteUnitOfWork(w, c).w, p, P, P + C);
  }

  /** `completeUnitOfWork` on a fiber whose `return` is `null` changes nothing. */
  lemma CompleteWithoutReturn(w: World, c: FiberId)
    requires c in w.fibers && w.fibers[c].ret.None?
    ensures CompleteUnitOfWork(w, c) == Run(w, Normal, ())
  {
  }
}
