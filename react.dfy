/**
 * The element factory and the component marker of src/react.js.
 * `Component.setState` changes scheduler state and is a method of
 * `Scheduler.Scheduler`.
 */
module React {
  import opened Values

  /** The value stored at `Component.prototype.isReactComponent`: an empty object. */
  const ComponentMarker: Value := Obj([])

  /** A class declared with `extends Component`: its prototype inherits the marker. */
  function ComponentClass(id: nat): (f: FuncRef)
    ensures f.proto.Prototype? && Truthy(f.proto.isReactComponent)
  {
    FuncRef(id, Prototype(ComponentMarker))
  }

  /** The element a primitive child is wrapped in. */
  function TextElement(child: Value): Element
  {
    Element(TextMarker, [("text", child), ("children", Arr([]))])
  }

  /** One step of `children.map(...)`: objects (null included) pass, anything else is wrapped. */
  function NormalizeChild(child: Value): Value
  {
    if IsObject(child) then child else Elem(TextElement(child))
  }

  /** `children.map(...)`: objects keep their place, every other child becomes a text element holding it. */
  function NormalizeChildren(children: seq<Value>): (r: seq<Value>)
    ensures |r| == |children|
    ensures forall i :: 0 <= i < |children| && IsObject(children[i]) ==> r[i] == children[i]
    ensures forall i :: 0 <= i < |children| && !IsObject(children[i]) ==>
      r[i].Elem? && r[i].e.typ == TextMarker && Get(r[i].e.props, "text") == children[i]
      && Get(r[i].e.props, "children") == Arr([]) && KeysOf(r[i].e.props) == ["text", "children"]
  {
    seq(|children|, i requires 0 <= i < |children| => NormalizeChild(children[i]))
  }

  /** The result of `createElement`: the element and the caller's config after the two deletes. */
  datatype Created = Created(elem: Element, config: Value) | ConfigTypeError

  /** `config` after `delete config.__self; delete config.__source`. */
  function StripConfig(config: Value): Value
  {
    if config.Obj? then Obj(Without(Without(config.entries, "__self"), "__source")) else config
  }

  /**
   * `createElement(type, config, ...children)`. A `null` or `undefined` config
   * makes the first `delete` throw.
   */
  function CreateElement(typ: ElemType, config: Value, children: seq<Value>): (r: Created)
    ensures r.ConfigTypeError? <==> config.Null? || config.Undefined?
    ensures r.Created? ==> r.elem.typ == typ
    // every config key except the two bookkeeping keys and `children` is copied
    ensures r.Created? ==> forall k :: k != "__self" && k != "__source" && k != "children" ==>
      Get(r.elem.props, k) == Get(EnumEntries(config), k)
      && (Has(r.elem.props, k) <==> Has(EnumEntries(config), k))
    ensures r.Created? ==> !Has(r.elem.props, "__self") && !Has(r.elem.props, "__source")
    // `children` is always the mapped rest arguments, same length, same order
    ensures r.Created? ==> Has(r.elem.props, "children")
    ensures r.Created? ==> Get(r.elem.props, "children").Arr?
    ensures r.Created? ==> var kids := Get(r.elem.props, "children").items;
      |kids| == |children|
      && forall i :: 0 <= i < |children| ==>
           (IsObject(children[i]) ==> kids[i] == children[i])
           && (!IsObject(children[i]) ==> kids[i] == Elem(TextElement(children[i])))
    // the caller's config loses `__self` and `__source` in place and keeps the rest
    ensures r.Created? && config.Obj? ==>
      && r.config.Obj?
      && !Has(r.config.entries, "__self") && !Has(r.config.entries, "__source")
      && forall k :: k != "__self" && k != "__source" ==>
           Get(r.config.entries, k) == Get(config.entries, k)
           && (Has(r.config.entries, k) <==> Has(config.entries, k))
    ensures r.Created? && !config.Obj? ==> r.config == config
  {
    if config.Null? || config.Undefined? then ConfigTypeError
    else
      var stripped := StripConfig(config);
      var kept := Without(Without(EnumEntries(config), "__self"), "__source");
      Created(Element(typ, Put(kept, "children", Arr(NormalizeChildren(children)))), stripped)
  }

  /**
   * Spreading a config that is not a plain object: an array's items and a
   * string's characters land under their index keys, an element's `type`
   * and `props` under those names.
   */
  lemma CreateElementSpreads(typ: ElemType, config: Value, children: seq<Value>)
    requires config.Arr? || config.Str? || config.Elem?
    ensures var r := CreateElement(typ, config, children);
      && r.Created?
      && (config.Arr? ==> forall i :: 0 <= i < |config.items| ==>
            Has(r.elem.props, IndexKey(i)) && Get(r.elem.props, IndexKey(i)) == config.items[i])
      && (config.Str? ==> forall i :: 0 <= i < |config.s| ==>
            Has(r.elem.props, IndexKey(i)) && Get(r.elem.props, IndexKey(i)) == Str([config.s[i]]))
      && (config.Elem? ==>
            && Has(r.elem.props, "type") && Get(r.elem.props, "type") == TypeValue(config.e.typ)
            && Has(r.elem.props, "props") && Get(r.elem.props, "props") == Obj(config.e.props))
  {
    EnumEntriesFacts(config);
    var r := CreateElement(typ, config, children);
    forall i: nat | true ensures IndexKey(i) != "__self" && IndexKey(i) != "__source" && IndexKey(i) != "children" {
      assert IndexKey(i)[0] != '_' && IndexKey(i)[0] != 'c';
    }
    if config.Elem? {
      assert KeysOf(EnumEntries(config))[0] == "type";
      assert KeysOf(EnumEntries(config))[1] == "props";
    }
  }
}
