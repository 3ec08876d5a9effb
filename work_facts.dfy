/**
 * Properties of `beginWork` (src/scheduler.js:105-170): the render phase
 * creates platform nodes and component instances but never changes a node
 * or an instance field other than `state`, and each kind of fiber gets the
 * work its `update*` routine does.
 */
module WorkFacts {
  import opened Wrappers
  import opened Values
  import opened Platform
  import opened Utils
  import opened Fibers
  import opened Reconcile
  import opened ReconcileFrame
  import opened Work

  lemma ValueKept(w: World, parent: FiberId, children: Value)
    requires Fresh(w)
    ensures Kept(w, ReconcileValue(w, parent, children).w)
  {
    var kids := ChildrenOf(children);
    if kids.Some? {
      ReconcileKept(w, parent, kids.value);
    } else {
      ReconcileKept(w, parent, []);
    }
  }

  /** Creating a node on a first visit allocates it fresh and touches nothing else. */
  lemma EnsureDomFacts(w: World, f: FiberId)
    requires Fresh(w) && f in w.fibers
    ensures var w1 := EnsureDom(w, f);
      && Fresh(w1) && w.serial <= w1.serial
      && w1.fibers.Keys == w.fibers.Keys
      && (forall n :: n in w.nodes ==> n in w1.nodes && w1.nodes[n] == w.nodes[n])
      && w1.instances == w.instances && w1.queues == w.queues
      && (w.fibers[f].stateNode.NoStateNode? && IsDomTag(w.fibers[f].tag) ==>
            w1.fibers[f].stateNode == DomNode(w.serial) && w.serial in w1.nodes)
      && (!w.fibers[f].stateNode.NoStateNode? ==> w1 == w)
      && w1.fibers[f] == w.fibers[f].(stateNode := w1.fibers[f].stateNode)
      && (forall x :: x in w.fibers && x != f ==> w1.fibers[x] == w.fibers[x])
  {
  }

  /**
   * The render phase never mutates a platform node that already exists:
   * nodes are only created, and updates to existing nodes wait for the
   * commit. Instances keep their class, their constructor props and their
   * fiber; only a class fiber's own instance gets a new `state`.
   */
  lemma BeginWorkLeavesNodes(w: World, h: Hooks, f: FiberId)
    requires Fresh(w)
    ensures var r := BeginWork(w, h, f);
      && Fresh(r.w)
      && (forall n :: n in w.nodes ==> n in r.w.nodes && r.w.nodes[n] == w.nodes[n])
      && (forall i :: i in w.instances ==>
            (i in r.w.instances && r.w.instances[i] == w.instances[i].(state := r.w.instances[i].state)))
  {
    if f in w.fibers {
      var fb := w.fibers[f];
      match fb.tag
      case Some(TagRoot) =>
        ValueKept(w, f, Get(fb.props, "children"));
      case Some(TagText) =>
        EnsureDomFacts(w, f);
      case Some(TagHost) =>
        EnsureDomFacts(w, f);
        var w1 := EnsureDom(w, f);
        ValueKept(w1, f, Get(w1.fibers[f].props, "children"));
      case Some(TagClass) =>
        ClassLeavesNodes(w, h, f);
      case None =>
    }
  }

  /**
   * Lines 140-145: a first visit constructs one instance, from the fiber's
   * class and props, and links fiber and instance both ways; a later visit
   * constructs nothing; a type that cannot be constructed throws.
   */
  lemma InstantiateFacts(w: World, h: Hooks, f: FiberId)
    requires Fresh(w) && f in w.fibers
    ensures var fb := w.fibers[f];
      var r := Instantiate(w, h, f);
      && (r.None? <==> fb.stateNode.NoStateNode? && (!fb.typ.FuncType? || fb.typ.f.proto.NoPrototype?))
      && (!fb.stateNode.NoStateNode? ==> r == Some(w))
      && (r.Some? && fb.stateNode.NoStateNode? ==>
            && Fresh(r.value) && w.serial < r.value.serial
            && r.value.fibers == w.fibers[f := fb.(stateNode := InstanceNode(w.serial))]
            && r.value.instances == w.instances[w.serial := Instance(fb.typ.f, fb.props, h.construct(fb.typ.f, fb.props), f)]
            && w.serial !in w.instances
            && r.value.nodes == w.nodes && r.value.queues == w.queues)
  {
  }

  /**
   * Lines 147-153: the pending updates are folded into the instance's state
   * and the queue keeps what the fold leaves; the instance keeps the props it
   * was constructed with, which are the ones `render` sees. Without an
   * instance or a queue the routine throws before changing anything.
   */
  lemma RenderClassFacts(w: World, h: Hooks, f: FiberId)
    requires Fresh(w) && f in w.fibers
    ensures var sn := w.fibers[f].stateNode;
      var q := w.fibers[f].updateQueue;
      var r := RenderClass(w, h, f);
      && (!sn.InstanceNode? || sn.inst !in w.instances || q.None? || q.value !in w.queues ==>
            r == Run(w, Threw, ()))
      && (sn.InstanceNode? && sn.inst in w.instances && q.Some? && q.value in w.queues ==>
            var inst := w.instances[sn.inst];
            var folded := h.fold(inst.state, w.queues[q.value]);
            && Fresh(r.w)
            && r.w.instances == w.instances[sn.inst := inst.(state := folded.0)]
            && q.value in r.w.queues && r.w.queues[q.value] == folded.1
            && r.w.nodes == w.nodes
            && f in r.w.fibers && r.w.fibers[f].stateNode == sn)
  {
    var sn := w.fibers[f].stateNode;
    var q := w.fibers[f].updateQueue;
    if sn.InstanceNode? && sn.inst in w.instances && q.Some? && q.value in w.queues {
      var inst := w.instances[sn.inst];
      var folded := h.fold(inst.state, w.queues[q.value]);
      var w2 := w.(instances := w.instances[sn.inst := inst.(state := folded.0)],
                   queues := w.queues[q.value := folded.1]);
      ReconcileKept(w2, f, [h.render(inst.cls, inst.props, folded.0)]);
    }
  }

  lemma ClassLeavesNodes(w: World, h: Hooks, f: FiberId)
    requires Fresh(w) && f in w.fibers
    ensures var r := UpdateClass(w, h, f);
      && Fresh(r.w)
      && (forall n :: n in w.nodes ==> n in r.w.nodes && r.w.nodes[n] == w.nodes[n])
      && (forall i :: i in w.instances ==>
            (i in r.w.instances && r.w.instances[i] == w.instances[i].(state := r.w.instances[i].state)))
  {
    InstantiateFacts(w, h, f);
    var made := Instantiate(w, h, f);
    if made.Some? {
      RenderClassFacts(made.value, h, f);
    }
  }

  /**
   * A fresh element for `props`: named `name`, no children, every plain prop
   * an attribute with the prop's value, no other plain attribute, and no
   * `children` attribute.
   */
  ghost predicate ElementFor(n: PNode, name: string, props: Entries)
  {
    && n.kind == ElementNode(name)
    && n.children == []
    && (forall k :: PlainKey(k) ==>
          (k in n.attrs <==> Has(props, k)) && (Has(props, k) ==> n.attrs[k] == Get(props, k)))
    && "children" !in n.attrs
  }

  /** Lines 160-161: `createElement` then `updateDOM(node, {}, props)`. */
  lemma CreatedElement(name: string, props: Entries)
    requires DistinctKeys(props)
    ensures ElementFor(UpdateDom(NewElement(name), [], props), name, props)
  {
    var dom := NewElement(name);
    var ops := DiffOps([], props);
    forall k | PlainKey(k)
      ensures (k in ApplyOps(dom, ops).attrs <==> Has(props, k))
      ensures Has(props, k) ==> ApplyOps(dom, ops).attrs[k] == Get(props, k)
    {
      SetPropsPlainKey(dom, [], props, k);
    }
    DiffOpsSpec([], props);
    AttrFrame(dom, ops, "children");
    ChildrenKept(dom, ops);
  }

  lemma {:induction false} ChildrenKept(dom: PNode, ops: seq<PropOp>)
    ensures ApplyOps(dom, ops).children == dom.children && ApplyOps(dom, ops).kind == dom.kind
  {
    if ops != [] {
      ChildrenKept(dom, ops[..|ops| - 1]);
    }
  }

  /**
   * Lines 130-134 with 156-163: a host fiber's first visit creates one
   * element, named by its type and carrying its props, which is the fiber's
   * `stateNode` once the children have been reconciled.
   */
  lemma BeginHostCreatesElement(w: World, h: Hooks, f: FiberId)
    requires Fresh(w) && f in w.fibers
    requires w.fibers[f].tag == Some(TagHost) && w.fibers[f].stateNode.NoStateNode?
    requires DistinctKeys(w.fibers[f].props)
    ensures var r := BeginWork(w, h, f);
      && w.serial !in w.nodes && w.serial in r.w.nodes
      && f in r.w.fibers && r.w.fibers[f].stateNode == DomNode(w.serial)
      && ElementFor(r.w.nodes[w.serial], TypeName(w.fibers[f].typ), w.fibers[f].props)
  {
    var fb := w.fibers[f];
    EnsureDomFacts(w, f);
    var w1 := EnsureDom(w, f);
    assert w1.nodes[w.serial] == UpdateDom(NewElement(TypeName(fb.typ)), [], fb.props);
    ValueKept(w1, f, Get(w1.fibers[f].props, "children"));
    CreatedElement(TypeName(fb.typ), fb.props);
  }
}
