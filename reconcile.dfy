/**
 * `reconcileChildren` of src/scheduler.js (lines 172-251) as a function of the
 * state: a positional diff of a parent's new child elements against the old
 * fibers reached from `parent.alternate.child` through `sibling`.
 */
module Reconcile {
  import opened Wrappers
  import opened Values
  import opened Fibers

  /** The tag chosen for a new child, or the TypeError of a function type without a prototype. */
  datatype Classified = Classified(tag: Option<Tag>) | NoPrototypeError

  /** Where the loop stands after one position: the old fiber, the previous new fiber, the fiber made. */
  datatype Cursor = Cursor(oldFiber: Option<FiberId>, prev: Option<FiberId>, made: Option<FiberId>)

  /**
   * `newChild.type`: an element's type, or the type a plain object holds
   * under the key `type`; any other value has none.
   */
  function TypeOf(child: Value): ElemType
  {
    if child.Elem? then child.e.typ
    else if child.Obj? then TypeFrom(Get(child.entries, "type"))
    else NoType
  }

  /**
   * `newChild.props`: an element's props, or the keys of what a plain
   * object holds under the key `props`; any other value has none.
   */
  function PropsOf(child: Value): Entries
  {
    if child.Elem? then child.e.props
    else if child.Obj? then EnumEntries(Get(child.entries, "props"))
    else []
  }

  /** The tag of the fiber for a child that is neither `null` nor `undefined` (lines 184-194). */
  function ClassifyTag(child: Value): Classified
  {
    match TypeOf(child)
    case TextMarker => Classified(Some(TagText))
    case TagName(_) => Classified(Some(TagHost))
    case FuncType(f) =>
      if f.proto.NoPrototype? then NoPrototypeError
      else if Truthy(f.proto.isReactComponent) then Classified(Some(TagClass))
      else Classified(None)
    case NoType => Classified(None)
  }

  /**
   * A plain object `{type, props}` is reconciled as the element it spells:
   * the same type, the same props, the same tag.
   */
  lemma ObjectAsElement(e: Element)
    ensures var o := Obj([("type", TypeValue(e.typ)), ("props", Obj(e.props))]);
      && TypeOf(o) == e.typ && PropsOf(o) == e.props && ClassifyTag(o) == ClassifyTag(Elem(e))
  {
    TypeRoundTrip(e.typ);
    var es := [("type", TypeValue(e.typ)), ("props", Obj(e.props))];
    assert es[1..] == [("props", Obj(e.props))];
    assert Get(es, "props") == Obj(e.props);
  }

  /** `oldFiber.firstEffect = oldFiber.nextEffect = oldFiber.lastEffect = null`. */
  function ResetEffects(f: Fiber): Fiber
  {
    f.(firstEffect := None, nextEffect := None, lastEffect := None)
  }

  /** `oldFiber.effectTag = DELETION; deletions.push(oldFiber)`. */
  function MarkDeleted(w: World, o: FiberId): World
    requires o in w.fibers
  {
    w.(fibers := w.fibers[o := w.fibers[o].(effectTag := Deletion)], deletions := w.deletions + [o])
  }

  /** `oldFiber.updateQueue || new UpdateQueue()`. */
  function QueueFor(w: World, q: Option<QueueId>): (World, QueueId)
  {
    if q.Some? then (w, q.value) else NewQueue(w)
  }

  /** The fiber a same-type old fiber without an alternate is cloned into (lines 207-217). */
  function CloneFiber(of: Fiber, o: FiberId, parent: FiberId, props: Entries, q: QueueId): Fiber
  {
    BareFiber(of.tag, of.typ, props).(
      stateNode := of.stateNode, ret := Some(parent), alternate := Some(o),
      effectTag := Update, updateQueue := Some(q))
  }

  /** The fiber made for a new child of another type (lines 222-231). */
  function PlacedFiber(tag: Option<Tag>, child: Value, parent: FiberId, q: QueueId): Fiber
  {
    BareFiber(tag, TypeOf(child), PropsOf(child)).(
      ret := Some(parent), effectTag := Placement, updateQueue := Some(q))
  }

  /**
   * Lines 195-237: the new fiber for one position (recycled, cloned, placed, or
   * none for a falsy child) and the deletion of a mismatched old fiber.
   */
  function NewChildFiber(w: World, parent: FiberId, child: Value, oldFiber: Option<FiberId>,
                         sameType: bool, tag: Option<Tag>): (r: Run<Option<FiberId>>)
    requires oldFiber.Some? ==> oldFiber.value in w.fibers
    requires sameType ==> oldFiber.Some?
    ensures w.fibers.Keys <= r.w.fibers.Keys
  {
    if sameType then
      var o := oldFiber.value;
      var of := w.fibers[o];
      if of.alternate.Some? then
        var a := of.alternate.value;
        if a !in w.fibers then Run(w, Threw, None)
        else
          var wq := QueueFor(w, of.updateQueue);
          var nf := wq.0.fibers[a].(props := PropsOf(child), alternate := Some(o), effectTag := Update,
                                    ret := Some(parent), updateQueue := Some(wq.1));
          Run(SetFiber(wq.0, a, nf), Normal, Some(a))
      else
        var wq := QueueFor(w, of.updateQueue);
        var wf := NewFiber(wq.0, CloneFiber(of, o, parent, PropsOf(child), wq.1));
        Run(wf.0, Normal, Some(wf.1))
    else
      var placed :=
        if Truthy(child) then
          var wq := NewQueue(w);
          var wf := NewFiber(wq.0, PlacedFiber(tag, child, parent, wq.1));
          (wf.0, Some(wf.1))
        else (w, None);
      var w2 := if oldFiber.Some? then MarkDeleted(placed.0, oldFiber.value) else placed.0;
      Run(w2, Normal, placed.1)
  }

  /** Lines 238-248: link the new fiber as `parent.child` (position 0) or as the previous fiber's `sibling`. */
  function Link(w: World, parent: FiberId, i: nat, prev: Option<FiberId>, nf: FiberId): Run<()>
  {
    if i == 0 then
      if parent !in w.fibers then Run(w, Threw, ())
      else Run(SetFiber(w, parent, w.fibers[parent].(child := Some(nf))), Normal, ())
    else if prev.None? || prev.value !in w.fibers then Run(w, Threw, ())
    else Run(SetFiber(w, prev.value, w.fibers[prev.value].(sibling := Some(nf))), Normal, ())
  }

  /** One iteration of the loop at line 179, for position `i`. */
  function ReconcileStep(w: World, parent: FiberId, kids: seq<Value>, i: nat,
                         oldFiber: Option<FiberId>, prev: Option<FiberId>): Run<Cursor>
    requires i < |kids|
  {
    var child := kids[i];
    var stop := Run(w, Threw, Cursor(oldFiber, prev, None));
    if child.Null? || child.Undefined? then stop
    else if ClassifyTag(child).NoPrototypeError? then stop
    else if oldFiber.Some? && oldFiber.value !in w.fibers then stop
    else
      var sameType := oldFiber.Some? && Truthy(child) && w.fibers[oldFiber.value].typ == TypeOf(child);
      var m := NewChildFiber(w, parent, child, oldFiber, sameType, ClassifyTag(child).tag);
      if m.outcome != Normal then Run(m.w, m.outcome, Cursor(oldFiber, prev, None))
      else
        var nextOld := if oldFiber.Some? then m.w.fibers[oldFiber.value].sibling else None;
        if m.value.None? then Run(m.w, Normal, Cursor(nextOld, prev, None))
        else
          var l := Link(m.w, parent, i, prev, m.value.value);
          if l.outcome != Normal then Run(l.w, l.outcome, Cursor(nextOld, prev, None))
          else Run(l.w, Normal, Cursor(nextOld, m.value, m.value))
  }

  /** The loop from position `i` on; the value lists the fiber made at each position. */
  function ReconcileLoop(w: World, parent: FiberId, kids: seq<Value>, i: nat,
                         oldFiber: Option<FiberId>, prev: Option<FiberId>): Run<seq<Option<FiberId>>>
    decreases |kids| - i
  {
    if i >= |kids| then Run(w, Normal, [])
    else
      var s := ReconcileStep(w, parent, kids, i, oldFiber, prev);
      if s.outcome != Normal then Run(s.w, s.outcome, [])
      else
        var rest := ReconcileLoop(s.w, parent, kids, i + 1, s.value.oldFiber, s.value.prev);
        Run(rest.w, rest.outcome, [s.value.made] + rest.value)
  }

  /** `reconcileChildren(parent, kids)`: read the old chain's head, clear its effect links, run the loop. */
  function ReconcileChildren(w: World, parent: FiberId, kids: seq<Value>): Run<seq<Option<FiberId>>>
  {
    if parent !in w.fibers then Run(w, Threw, [])
    else
      var alt := w.fibers[parent].alternate;
      if alt.Some? && alt.value !in w.fibers then Run(w, Threw, [])
      else
        var oldFiber := if alt.Some? then w.fibers[alt.value].child else None;
        if oldFiber.Some? && oldFiber.value !in w.fibers then Run(w, Threw, [])
        else
          var w1 := if oldFiber.Some? then SetFiber(w, oldFiber.value, ResetEffects(w.fibers[oldFiber.value])) else w;
          ReconcileLoop(w1, parent, kids, 0, oldFiber, None)
  }
}
