/**
 * The prop diff of src/utils.js: `setProp` applies one prop to a platform
 * node, `setProps` walks the old props and then the new props and applies
 * each difference. A platform node is a value here; each method returns the
 * node as it stands after the mutations.
 */
module Utils {
  import opened Values
  import opened Platform

  /** One call made on the node by `setProps`: `setProp(key, value)` or `removeAttribute(key)`. */
  datatype PropOp = SetOp(key: string, value: Value) | RemoveOp(key: string)

  /** `dom.style[name] = value` for each entry, in order. */
  function AssignStyle(style: map<string, Value>, es: Entries): map<string, Value>
  {
    if es == [] then style
    else AssignStyle(style, es[..|es| - 1])[es[|es| - 1].0 := es[|es| - 1].1]
  }

  /** The effect of `setProp(dom, key, value)` on the node. */
  function SetPropEffect(dom: PNode, key: string, value: Value): PNode
  {
    if IsEventKey(key) then dom.(properties := dom.properties[ToLower(key) := value])
    else if key == "style" then
      if Truthy(value) then dom.(style := AssignStyle(dom.style, EnumEntries(value))) else dom
    else dom.(attrs := dom.attrs[key := value])
  }

  function ApplyOp(dom: PNode, op: PropOp): PNode
  {
    match op
    case SetOp(k, v) => SetPropEffect(dom, k, v)
    case RemoveOp(k) => dom.(attrs := dom.attrs - {k})
  }

  /** The calls of `ops`, made in order. */
  function ApplyOps(dom: PNode, ops: seq<PropOp>): PNode
  {
    if ops == [] then dom else ApplyOp(ApplyOps(dom, ops[..|ops| - 1]), ops[|ops| - 1])
  }

  /** What the first loop of `setProps` does for one old key. */
  function OldKeyOps(k: string, newProps: Entries): seq<PropOp>
  {
    if k == "children" then []
    else if Has(newProps, k) then [SetOp(k, Get(newProps, k))]
    else [RemoveOp(k)]
  }

  /** What the second loop of `setProps` does for one new entry. */
  function NewKeyOps(oldProps: Entries, e: (string, Value)): seq<PropOp>
  {
    if e.0 == "children" || Has(oldProps, e.0) then [] else [SetOp(e.0, e.1)]
  }

  /** The calls of the first loop over a prefix of the old props. */
  function OldPass(olds: Entries, newProps: Entries): seq<PropOp>
  {
    if olds == [] then []
    else OldPass(olds[..|olds| - 1], newProps) + OldKeyOps(olds[|olds| - 1].0, newProps)
  }

  /** The calls of the second loop over a prefix of the new props. */
  function NewPass(oldProps: Entries, news: Entries): seq<PropOp>
  {
    if news == [] then []
    else NewPass(oldProps, news[..|news| - 1]) + NewKeyOps(oldProps, news[|news| - 1])
  }

  /** Every call `setProps(dom, oldProps, newProps)` makes, in order. */
  function DiffOps(oldProps: Entries, newProps: Entries): seq<PropOp>
  {
    OldPass(oldProps, newProps) + NewPass(oldProps, newProps)
  }

  function OpKeys(ops: seq<PropOp>): (ks: seq<string>)
    ensures |ks| == |ops| && forall i :: 0 <= i < |ops| ==> ks[i] == ops[i].key
  {
    seq(|ops|, i requires 0 <= i < |ops| => ops[i].key)
  }

  /** A key that `setProp` stores with `setAttribute`. */
  predicate PlainKey(k: string)
  {
    !IsEventKey(k) && k != "style" && k != "children"
  }

  /** `setProp`: the loop over the style object is the one of the source. */
  method SetProp(dom: PNode, key: string, value: Value) returns (r: PNode)
    ensures r == SetPropEffect(dom, key, value)
  {
    if IsEventKey(key) {
      r := dom.(properties := dom.properties[ToLower(key) := value]);
    } else if key == "style" {
      r := dom;
      if Truthy(value) {
        var es := EnumEntries(value);
        var i := 0;
        while i < |es|
          invariant 0 <= i <= |es|
          invariant r == dom.(style := AssignStyle(dom.style, es[..i]))
        {
          assert es[..i + 1][..i] == es[..i];
          r := r.(style := r.style[es[i].0 := es[i].1]);
          i := i + 1;
        }
        assert es[..i] == es;
      }
    } else {
      r := dom.(attrs := dom.attrs[key := value]);
    }
  }

  lemma ApplyOpsSnoc(dom: PNode, ops: seq<PropOp>, op: PropOp)
    ensures ApplyOps(dom, ops + [op]) == ApplyOp(ApplyOps(dom, ops), op)
  {
    assert (ops + [op])[..|ops|] == ops;
  }

  lemma OldPassStep(olds: Entries, i: nat, newProps: Entries)
    requires i < |olds|
    ensures OldPass(olds[..i + 1], newProps) == OldPass(olds[..i], newProps) + OldKeyOps(olds[i].0, newProps)
  {
    assert olds[..i + 1][..i] == olds[..i];
  }

  lemma NewPassStep(oldProps: Entries, news: Entries, j: nat)
    requires j < |news|
    ensures NewPass(oldProps, news[..j + 1]) == NewPass(oldProps, news[..j]) + NewKeyOps(oldProps, news[j])
  {
    assert news[..j + 1][..j] == news[..j];
  }

  /** `setProps`: first every old key, then every new key the old props lack. */
  method SetProps(dom: PNode, oldProps: Entries, newProps: Entries) returns (r: PNode)
    ensures r == ApplyOps(dom, DiffOps(oldProps, newProps))
  {
    r := SetPropsOldPass(dom, oldProps, newProps);
    r := SetPropsNewPass(dom, OldPass(oldProps, newProps), r, oldProps, newProps);
  }

  /** The first loop of `setProps`: each old key is updated from the new props, or removed. */
  method SetPropsOldPass(dom: PNode, oldProps: Entries, newProps: Entries) returns (r: PNode)
    ensures r == ApplyOps(dom, OldPass(oldProps, newProps))
  {
    r := dom;
    var i := 0;
    while i < |oldProps|
      invariant 0 <= i <= |oldProps|
      invariant r == ApplyOps(dom, OldPass(oldProps[..i], newProps))
    {
      var key := oldProps[i].0;
      ghost var before := OldPass(oldProps[..i], newProps);
      OldPassStep(oldProps, i, newProps);
      if key != "children" {
        if Has(newProps, key) {
          ApplyOpsSnoc(dom, before, SetOp(key, Get(newProps, key)));
          r := SetProp(r, key, Get(newProps, key));
        } else {
          ApplyOpsSnoc(dom, before, RemoveOp(key));
          r := r.(attrs := r.attrs - {key});
        }
      } else {
        assert before + OldKeyOps(key, newProps) == before;
      }
      i := i + 1;
    }
    assert oldProps[..i] == oldProps;
  }

  /**
   * The second loop of `setProps`: each new key the old props lack is set,
   * on a node `start` that the operations `done` already produced.
   */
  method SetPropsNewPass(dom: PNode, ghost done: seq<PropOp>, start: PNode, oldProps: Entries, newProps: Entries)
    returns (r: PNode)
    requires start == ApplyOps(dom, done)
    ensures r == ApplyOps(dom, done + NewPass(oldProps, newProps))
  {
    r := start;
    var j := 0;
    assert newProps[..0] == [] && done + [] == done;
    while j < |newProps|
      invariant 0 <= j <= |newProps|
      invariant r == ApplyOps(dom, done + NewPass(oldProps, newProps[..j]))
    {
      var key := newProps[j].0;
      ghost var before := done + NewPass(oldProps, newProps[..j]);
      NewPassStep(oldProps, newProps, j);
      assert done + NewPass(oldProps, newProps[..j + 1]) == before + NewKeyOps(oldProps, newProps[j]);
      if key != "children" && !Has(oldProps, key) {
        ApplyOpsSnoc(dom, before, SetOp(key, newProps[j].1));
        r := SetProp(r, key, newProps[j].1);
      } else {
        assert before + NewKeyOps(oldProps, newProps[j]) == before;
      }
      j := j + 1;
    }
    assert newProps[..j] == newProps;
  }

  // ---------------------------------------------------------------------------
  // What setProps does, key by key

  predicate Distinct(ks: seq<string>)
  {
    forall i, j :: 0 <= i < j < |ks| ==> ks[i] != ks[j]
  }

  /** Whether `op` writes the attribute named `k`. */
  predicate WritesAttr(op: PropOp, k: string)
  {
    op.key == k && (op.RemoveOp? || (!IsEventKey(k) && k != "style"))
  }

  /** Whether `op` writes the node property named `p` (an event handler). */
  predicate WritesProperty(op: PropOp, p: string)
  {
    op.SetOp? && IsEventKey(op.key) && ToLower(op.key) == p
  }

  lemma HasPrefix(es: Entries, m: nat, k: string)
    requires m <= |es| && Has(es[..m], k)
    ensures Has(es, k)
  {
    var i :| 0 <= i < m && KeysOf(es[..m])[i] == k;
    assert KeysOf(es)[i] == k;
  }

  lemma HasLast(es: Entries)
    requires es != []
    ensures Has(es, es[|es| - 1].0)
  {
    assert KeysOf(es)[|es| - 1] == es[|es| - 1].0;
  }

  lemma HasSplit(es: Entries, k: string)
    requires es != [] && Has(es, k)
    ensures Has(es[..|es| - 1], k) || es[|es| - 1].0 == k
  {
    var i :| 0 <= i < |es| && KeysOf(es)[i] == k;
    if i < |es| - 1 {
      assert KeysOf(es[..|es| - 1])[i] == k;
    }
  }

  lemma DistinctPrefix(es: Entries, m: nat)
    requires DistinctKeys(es) && m <= |es|
    ensures DistinctKeys(es[..m])
    ensures forall i :: m <= i < |es| ==> !Has(es[..m], es[i].0)
  {
    forall i | m <= i < |es| ensures !Has(es[..m], es[i].0) {
      forall a | 0 <= a < m ensures KeysOf(es[..m])[a] != es[i].0 {
        assert KeysOf(es[..m])[a] == es[a].0;
      }
    }
  }

  /** The first loop: one call per non-children old key, `setProp` when the new props have it. */
  lemma {:induction false} OldPassFacts(olds: Entries, newProps: Entries)
    requires DistinctKeys(olds)
    ensures var ops := OldPass(olds, newProps);
      && Distinct(OpKeys(ops))
      && (forall op :: op in ops ==>
            op.key != "children" && Has(olds, op.key)
            && op == (if Has(newProps, op.key) then SetOp(op.key, Get(newProps, op.key)) else RemoveOp(op.key)))
      && (forall k :: Has(olds, k) && k != "children" ==> k in OpKeys(ops))
  {
    if olds != [] {
      var n := |olds| - 1;
      var pre := olds[..n];
      DistinctPrefix(olds, n);
      OldPassFacts(pre, newProps);
      var a := OldPass(pre, newProps);
      var b := OldKeyOps(olds[n].0, newProps);
      var ops := a + b;
      assert ops == OldPass(olds, newProps);
      forall op | op in a ensures Has(olds, op.key) {
        HasPrefix(olds, n, op.key);
      }
      HasLast(olds);
      forall i, j | 0 <= i < j < |ops| ensures OpKeys(ops)[i] != OpKeys(ops)[j] {
        if j >= |a| {
          assert ops[j].key == olds[n].0;
          if i < |a| {
            assert ops[i] in a;
            assert !Has(pre, olds[n].0);
          }
        } else {
          assert OpKeys(a)[i] != OpKeys(a)[j];
        }
      }
      forall k | Has(olds, k) && k != "children" ensures k in OpKeys(ops) {
        HasSplit(olds, k);
        if k == olds[n].0 {
          assert OpKeys(ops)[|a|] == k;
        } else {
          var i :| 0 <= i < |a| && OpKeys(a)[i] == k;
          assert OpKeys(ops)[i] == k;
        }
      }
    }
  }

  /** The second loop: one `setProp` per non-children new key the old props lack. */
  lemma {:induction false} NewPassFacts(oldProps: Entries, newProps: Entries, m: nat)
    requires DistinctKeys(newProps) && m <= |newProps|
    ensures var ops := NewPass(oldProps, newProps[..m]);
      && Distinct(OpKeys(ops))
      && (forall op :: op in ops ==>
            op.key != "children" && !Has(oldProps, op.key) && Has(newProps[..m], op.key)
            && op == SetOp(op.key, Get(newProps, op.key)))
      && (forall k :: Has(newProps[..m], k) && k != "children" && !Has(oldProps, k) ==> k in OpKeys(ops))
  {
    if m > 0 {
      var news := newProps[..m];
      var n := m - 1;
      assert news[..n] == newProps[..n];
      NewPassFacts(oldProps, newProps, n);
      DistinctPrefix(newProps, n);
      var a := NewPass(oldProps, newProps[..n]);
      var b := NewKeyOps(oldProps, newProps[n]);
      var ops := a + b;
      assert ops == NewPass(oldProps, news);
      GetAt(newProps, n);
      HasLast(news);
      assert news[|news| - 1] == newProps[n];
      forall op | op in a ensures Has(news, op.key) {
        assert newProps[..m][..n] == newProps[..n];
        HasPrefix(news, n, op.key);
      }
      forall i, j | 0 <= i < j < |ops| ensures OpKeys(ops)[i] != OpKeys(ops)[j] {
        if j >= |a| {
          assert ops[j].key == newProps[n].0;
          if i < |a| {
            assert ops[i] in a;
          }
        } else {
          assert OpKeys(a)[i] != OpKeys(a)[j];
        }
      }
      forall k | Has(news, k) && k != "children" && !Has(oldProps, k) ensures k in OpKeys(ops) {
        HasSplit(news, k);
        if k == newProps[n].0 {
          assert OpKeys(ops)[|a|] == k;
        } else {
          var i :| 0 <= i < |a| && OpKeys(a)[i] == k;
          assert OpKeys(ops)[i] == k;
        }
      }
    }
  }

  /**
   * setProps acts once on each key of the union of the old and new props except
   * `children`: a key the new props hold is set to its new value (also when it is
   * unchanged), a key only the old props hold gets `removeAttribute`.
   */
  lemma DiffOpsSpec(oldProps: Entries, newProps: Entries)
    requires DistinctKeys(oldProps) && DistinctKeys(newProps)
    ensures var ops := DiffOps(oldProps, newProps);
      && Distinct(OpKeys(ops))
      && (forall op :: op in ops ==>
            op.key != "children" && (Has(oldProps, op.key) || Has(newProps, op.key))
            && op == (if Has(newProps, op.key) then SetOp(op.key, Get(newProps, op.key)) else RemoveOp(op.key)))
      && (forall k :: (Has(oldProps, k) || Has(newProps, k)) && k != "children" ==> k in OpKeys(ops))
  {
    OldPassFacts(oldProps, newProps);
    NewPassFacts(oldProps, newProps, |newProps|);
    assert newProps[..|newProps|] == newProps;
    var a := OldPass(oldProps, newProps);
    var b := NewPass(oldProps, newProps);
    var ops := a + b;
    forall i, j | 0 <= i < j < |ops| ensures OpKeys(ops)[i] != OpKeys(ops)[j] {
      if i < |a| && j >= |a| {
        assert ops[i] in a && ops[j] in b;
      } else if j < |a| {
        assert OpKeys(a)[i] != OpKeys(a)[j];
      } else {
        assert OpKeys(b)[i - |a|] != OpKeys(b)[j - |a|];
      }
    }
    forall k | (Has(oldProps, k) || Has(newProps, k)) && k != "children" ensures k in OpKeys(ops) {
      if Has(oldProps, k) {
        var i :| 0 <= i < |a| && OpKeys(a)[i] == k;
        assert OpKeys(ops)[i] == k;
      } else {
        var i :| 0 <= i < |b| && OpKeys(b)[i] == k;
        assert OpKeys(ops)[|a| + i] == k;
      }
    }
  }

  /** Calls that do not write attribute `k` leave it as it was. */
  lemma {:induction false} AttrFrame(dom: PNode, ops: seq<PropOp>, k: string)
    requires forall op :: op in ops ==> !WritesAttr(op, k)
    ensures var r := ApplyOps(dom, ops);
      (k in r.attrs <==> k in dom.attrs) && (k in dom.attrs ==> r.attrs[k] == dom.attrs[k])
  {
    if ops != [] {
      AttrFrame(dom, ops[..|ops| - 1], k);
      assert ops[|ops| - 1] in ops;
    }
  }

  /** When exactly one call writes attribute `k`, that call decides it. */
  lemma {:induction false} AttrDecided(dom: PNode, ops: seq<PropOp>, j: nat, k: string)
    requires j < |ops| && WritesAttr(ops[j], k)
    requires forall i :: 0 <= i < |ops| && i != j ==> !WritesAttr(ops[i], k)
    ensures var r := ApplyOps(dom, ops);
      (ops[j].SetOp? ==> k in r.attrs && r.attrs[k] == ops[j].value)
      && (ops[j].RemoveOp? ==> k !in r.attrs)
  {
    var n := |ops| - 1;
    if j < n {
      AttrDecided(dom, ops[..n], j, k);
    } else {
      assert ops[..n] == ops[..j];
    }
  }

  /** Calls that do not write property `p` leave it as it was. */
  lemma {:induction false} PropertyFrame(dom: PNode, ops: seq<PropOp>, p: string)
    requires forall op :: op in ops ==> !WritesProperty(op, p)
    ensures var r := ApplyOps(dom, ops);
      (p in r.properties <==> p in dom.properties)
      && (p in dom.properties ==> r.properties[p] == dom.properties[p])
  {
    if ops != [] {
      PropertyFrame(dom, ops[..|ops| - 1], p);
      assert ops[|ops| - 1] in ops;
    }
  }

  /** When exactly one call writes property `p`, that call decides it. */
  lemma {:induction false} PropertyDecided(dom: PNode, ops: seq<PropOp>, j: nat, p: string)
    requires j < |ops| && WritesProperty(ops[j], p)
    requires forall i :: 0 <= i < |ops| && i != j ==> !WritesProperty(ops[i], p)
    ensures var r := ApplyOps(dom, ops);
      p in r.properties && r.properties[p] == ops[j].value
  {
    var n := |ops| - 1;
    if j < n {
      PropertyDecided(dom, ops[..n], j, p);
    } else {
      assert ops[..n] == ops[..j];
    }
  }

  /** Calls that do not `setProp("style", ..)` leave the style map as it was. */
  lemma {:induction false} StyleFrame(dom: PNode, ops: seq<PropOp>)
    requires forall op :: op in ops ==> !(op.SetOp? && op.key == "style")
    ensures ApplyOps(dom, ops).style == dom.style
  {
    if ops != [] {
      StyleFrame(dom, ops[..|ops| - 1]);
      assert ops[|ops| - 1] in ops;
    }
  }

  lemma FindOp(ops: seq<PropOp>, k: string) returns (j: nat)
    requires k in OpKeys(ops) && Distinct(OpKeys(ops))
    ensures j < |ops| && ops[j].key == k
    ensures forall i :: 0 <= i < |ops| && i != j ==> ops[i].key != k
  {
    j :| 0 <= j < |ops| && OpKeys(ops)[j] == k;
    forall i | 0 <= i < |ops| && i != j ensures ops[i].key != k {
      if i < j { assert OpKeys(ops)[i] != OpKeys(ops)[j]; }
      else { assert OpKeys(ops)[j] != OpKeys(ops)[i]; }
    }
  }

  /** Lines 3 and 14: the `children` key is skipped by both loops, so the node's `children` attribute is left as it was. */
  lemma SetPropsSkipsChildren(dom: PNode, oldProps: Entries, newProps: Entries)
    requires DistinctKeys(oldProps) && DistinctKeys(newProps)
    ensures var r := ApplyOps(dom, DiffOps(oldProps, newProps));
      && ("children" in r.attrs <==> "children" in dom.attrs)
      && ("children" in dom.attrs ==> r.attrs["children"] == dom.attrs["children"])
  {
    DiffOpsSpec(oldProps, newProps);
    AttrFrame(dom, DiffOps(oldProps, newProps), "children");
  }

  /**
   * The attribute named by a plain key (not `on..`, not `style`, not `children`)
   * ends up as the new props say: set to the new value, removed when only the old
   * props had it, untouched when neither had it.
   */
  lemma SetPropsPlainKey(dom: PNode, oldProps: Entries, newProps: Entries, k: string)
    requires DistinctKeys(oldProps) && DistinctKeys(newProps) && PlainKey(k)
    ensures var r := ApplyOps(dom, DiffOps(oldProps, newProps));
      && (Has(newProps, k) ==> k in r.attrs && r.attrs[k] == Get(newProps, k))
      && (Has(oldProps, k) && !Has(newProps, k) ==> k !in r.attrs)
      && (!Has(oldProps, k) && !Has(newProps, k) ==>
            (k in r.attrs <==> k in dom.attrs) && (k in dom.attrs ==> r.attrs[k] == dom.attrs[k]))
  {
    var ops := DiffOps(oldProps, newProps);
    DiffOpsSpec(oldProps, newProps);
    if Has(oldProps, k) || Has(newProps, k) {
      var j := FindOp(ops, k);
      assert ops[j] in ops;
      AttrDecided(dom, ops, j, k);
    } else {
      forall op | op in ops ensures !WritesAttr(op, k) {
        assert Has(oldProps, op.key) || Has(newProps, op.key);
      }
      AttrFrame(dom, ops, k);
    }
  }

  /**
   * An event key dropped from the props gets `removeAttribute`, which does not
   * clear the handler stored under its lowercased name: the handler stays
   * unless another new key lowercases to the same name.
   */
  lemma SetPropsRemovedHandlerKept(dom: PNode, oldProps: Entries, newProps: Entries, k: string)
    requires DistinctKeys(oldProps) && DistinctKeys(newProps)
    requires IsEventKey(k) && Has(oldProps, k) && !Has(newProps, k)
    requires forall q :: Has(newProps, q) && IsEventKey(q) ==> ToLower(q) != ToLower(k)
    ensures var r := ApplyOps(dom, DiffOps(oldProps, newProps));
      && k !in r.attrs
      && (ToLower(k) in r.properties <==> ToLower(k) in dom.properties)
      && (ToLower(k) in dom.properties ==> r.properties[ToLower(k)] == dom.properties[ToLower(k)])
  {
    var ops := DiffOps(oldProps, newProps);
    DiffOpsSpec(oldProps, newProps);
    var j := FindOp(ops, k);
    assert ops[j] in ops;
    forall i | 0 <= i < |ops| && i != j ensures !WritesAttr(ops[i], k) {
    }
    AttrDecided(dom, ops, j, k);
    forall op | op in ops ensures !WritesProperty(op, ToLower(k)) {
      assert op.SetOp? ==> Has(newProps, op.key);
    }
    PropertyFrame(dom, ops, ToLower(k));
  }

  /**
   * A new event key is stored as the node property named by its lowercased key,
   * never as an attribute, when no other new key lowercases to the same name.
   */
  lemma SetPropsHandlerStored(dom: PNode, oldProps: Entries, newProps: Entries, k: string)
    requires DistinctKeys(oldProps) && DistinctKeys(newProps)
    requires IsEventKey(k) && Has(newProps, k)
    requires forall q :: Has(newProps, q) && IsEventKey(q) && q != k ==> ToLower(q) != ToLower(k)
    ensures var r := ApplyOps(dom, DiffOps(oldProps, newProps));
      && ToLower(k) in r.properties && r.properties[ToLower(k)] == Get(newProps, k)
      && (k in r.attrs <==> k in dom.attrs)
      && (k in dom.attrs ==> r.attrs[k] == dom.attrs[k])
  {
    var ops := DiffOps(oldProps, newProps);
    DiffOpsSpec(oldProps, newProps);
    var j := FindOp(ops, k);
    assert ops[j] in ops;
    forall i | 0 <= i < |ops| && i != j ensures !WritesProperty(ops[i], ToLower(k)) {
      assert ops[i] in ops;
      assert ops[i].SetOp? ==> Has(newProps, ops[i].key);
    }
    PropertyDecided(dom, ops, j, ToLower(k));
    forall op | op in ops ensures !WritesAttr(op, k) {
      if op.key == k {
        assert op.SetOp?;
      }
    }
    AttrFrame(dom, ops, k);
  }

  /** A `style` key dropped from the props gets `removeAttribute("style")`; the style map is left as it was. */
  lemma SetPropsRemovedStyleKept(dom: PNode, oldProps: Entries, newProps: Entries)
    requires DistinctKeys(oldProps) && DistinctKeys(newProps)
    requires Has(oldProps, "style") && !Has(newProps, "style")
    ensures var r := ApplyOps(dom, DiffOps(oldProps, newProps));
      "style" !in r.attrs && r.style == dom.style
  {
    var ops := DiffOps(oldProps, newProps);
    DiffOpsSpec(oldProps, newProps);
    var j := FindOp(ops, "style");
    assert ops[j] in ops;
    AttrDecided(dom, ops, j, "style");
    forall op | op in ops ensures !(op.SetOp? && op.key == "style") {
      if op.key == "style" { assert !Has(newProps, op.key); }
    }
    StyleFrame(dom, ops);
  }

  /**
   * Assigning a style object: every entry is written, and a style entry the
   * object does not mention is left in place.
   */
  lemma {:induction false} AssignStyleSpec(style: map<string, Value>, es: Entries)
    requires DistinctKeys(es)
    ensures var r := AssignStyle(style, es);
      && (forall k :: Has(es, k) ==> k in r && r[k] == Get(es, k))
      && (forall k :: !Has(es, k) ==> (k in r <==> k in style) && (k in style ==> r[k] == style[k]))
  {
    if es != [] {
      var n := |es| - 1;
      DistinctPrefix(es, n);
      AssignStyleSpec(style, es[..n]);
      forall k | Has(es, k) ensures k in AssignStyle(style, es) && AssignStyle(style, es)[k] == Get(es, k) {
        HasSplit(es, k);
        if k == es[n].0 {
          GetAt(es, n);
        } else {
          var i :| 0 <= i < n && KeysOf(es[..n])[i] == k;
          GetAt(es, i);
          GetAt(es[..n], i);
        }
      }
      forall k | !Has(es, k) ensures !Has(es[..n], k) && k != es[n].0 {
        HasLast(es);
        if Has(es[..n], k) { HasPrefix(es, n, k); }
      }
    }
  }

  /**
   * A truthy string or an array as `style`: the loop at line 28 walks its
   * indices, so each index key gets the character (the item) at that index.
   * Style entries under other keys, attributes and properties stay.
   */
  lemma SetPropStyleIndexed(dom: PNode, value: Value)
    requires value.Arr? || (value.Str? && value.s != "")
    ensures var r := SetPropEffect(dom, "style", value);
      && r.attrs == dom.attrs && r.properties == dom.properties
      && (value.Arr? ==> forall i :: 0 <= i < |value.items| ==>
            IndexKey(i) in r.style && r.style[IndexKey(i)] == value.items[i])
      && (value.Str? ==> forall i :: 0 <= i < |value.s| ==>
            IndexKey(i) in r.style && r.style[IndexKey(i)] == Str([value.s[i]]))
      && (forall k :: !Has(EnumEntries(value), k) ==>
            (k in r.style <==> k in dom.style) && (k in dom.style ==> r.style[k] == dom.style[k]))
  {
    EnumEntriesFacts(value);
    AssignStyleSpec(dom.style, EnumEntries(value));
  }
}
