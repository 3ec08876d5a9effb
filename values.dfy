/**
 * JavaScript values as the reconciler sees them: element objects, props
 * objects, functions and primitives. An object is an ordered key/value list,
 * taken to be in the order `for..in` and spread visit its keys (integer-like
 * keys first, ascending, then the others in insertion order).
 */
module Values {

  /** A function's `prototype`: arrow functions have none. */
  datatype Proto = NoPrototype | Prototype(isReactComponent: Value)

  /** A function value; two references are `===` exactly when they are equal here. */
  datatype FuncRef = FuncRef(id: nat, proto: Proto)

  /** The `type` field of an element. `TextMarker` is the ELEMENT_TEXT constant. */
  datatype ElemType = TextMarker | TagName(name: string) | FuncType(f: FuncRef) | NoType

  /** Numbers are integers here (no fractions, no NaN). */
  datatype Value =
    | Undefined
    | Null
    | Bool(b: bool)
    | Num(n: int)
    | Str(s: string)
    | Obj(entries: Entries)
    | Arr(items: seq<Value>)
    | Func(f: FuncRef)
    | Elem(e: Element)
    | ElementText

  // `ElementText` is the value of the ELEMENT_TEXT constant, the `type` of a
  // text element; it is not an object and differs from every other value.

  /** An element object `{type, props}`. */
  datatype Element = Element(typ: ElemType, props: Entries)

  /** An object's own enumerable properties, in enumeration order. */
  type Entries = seq<(string, Value)>

  /** JavaScript truthiness. */
  predicate Truthy(v: Value)
  {
    match v
    case Undefined => false
    case Null => false
    case Bool(b) => b
    case Num(n) => n != 0
    case Str(s) => s != ""
    case _ => true
  }

  /** `typeof v === "object"` (true of `null`, false of functions). */
  predicate IsObject(v: Value)
  {
    v.Null? || v.Obj? || v.Arr? || v.Elem?
  }

  /** The keys of an entry list, in order. */
  function KeysOf(es: Entries): (ks: seq<string>)
    ensures |ks| == |es|
    ensures forall i :: 0 <= i < |es| ==> ks[i] == es[i].0
  {
    seq(|es|, i requires 0 <= i < |es| => es[i].0)
  }

  /** `obj.hasOwnProperty(k)`. */
  predicate Has(es: Entries, k: string)
  {
    k in KeysOf(es)
  }

  /** `obj[k]`: the value of the first entry with key `k`, `undefined` if none. */
  function Get(es: Entries, k: string): Value
  {
    if es == [] then Undefined
    else if es[0].0 == k then es[0].1
    else Get(es[1..], k)
  }

  /** A JavaScript object never holds a key twice. */
  predicate DistinctKeys(es: Entries)
  {
    forall i, j :: 0 <= i < j < |es| ==> es[i].0 != es[j].0
  }

  /** The keys of a list with `e` in front. */
  lemma KeysCons(e: (string, Value), rest: Entries)
    ensures forall q :: Has([e] + rest, q) <==> q == e.0 || Has(rest, q)
    ensures forall q :: Get([e] + rest, q) == if q == e.0 then e.1 else Get(rest, q)
  {
    var l := [e] + rest;
    assert l[1..] == rest;
    var ks := KeysOf(l);
    assert ks == [e.0] + KeysOf(rest) by {
      forall i | 0 < i < |ks| ensures ks[i] == ([e.0] + KeysOf(rest))[i] {
        assert l[i] == rest[i - 1];
      }
    }
  }

  /** `delete obj[k]`: every other entry keeps its place. */
  function Without(es: Entries, k: string): (r: Entries)
    ensures !Has(r, k)
    ensures forall q :: q != k ==> Get(r, q) == Get(es, q) && (Has(r, q) <==> Has(es, q))
  {
    if es == [] then []
    else
      var rest := Without(es[1..], k);
      assert es == [es[0]] + es[1..];
      KeysCons(es[0], es[1..]);
      if es[0].0 == k then rest
      else
        KeysCons(es[0], rest);
        [es[0]] + rest
  }

  /** `obj[k] = v` on an object: an existing key keeps its place, a new key goes last. */
  function Put(es: Entries, k: string, v: Value): (r: Entries)
    ensures Has(r, k) && Get(r, k) == v
    ensures forall q :: q != k ==> Get(r, q) == Get(es, q) && (Has(r, q) <==> Has(es, q))
  {
    if es == [] then
      KeysCons((k, v), []);
      assert [(k, v)] + [] == [(k, v)];
      assert KeysOf([]) == [];
      [(k, v)]
    else
      assert es == [es[0]] + es[1..];
      KeysCons(es[0], es[1..]);
      if es[0].0 == k then
        KeysCons((k, v), es[1..]);
        [(k, v)] + es[1..]
      else
        var rest := Put(es[1..], k, v);
        KeysCons(es[0], rest);
        [es[0]] + rest
  }

  /** The character of a decimal digit. */
  function DigitChar(d: nat): (c: char)
    requires d < 10
    ensures '0' <= c <= '9' && c as int - '0' as int == d
  {
    ('0' as int + d) as char
  }

  predicate AllDigits(s: string)
  {
    forall i :: 0 <= i < |s| ==> '0' <= s[i] <= '9'
  }

  /** `String(n)` for a natural number: its decimal digits, most significant first. */
  function IndexKey(n: nat): (s: string)
    ensures |s| >= 1 && AllDigits(s)
    ensures n >= 10 ==> s[0] != '0'
  {
    if n < 10 then [DigitChar(n)] else IndexKey(n / 10) + [DigitChar(n % 10)]
  }

  /** The number a string of decimal digits denotes. */
  function DecimalValue(s: string): nat
    requires AllDigits(s)
  {
    if s == [] then 0 else DecimalValue(s[..|s| - 1]) * 10 + (s[|s| - 1] as int - '0' as int)
  }

  /** Reading the key of an index back gives the index, so distinct indices have distinct keys. */
  lemma {:induction false} IndexKeyRoundTrip(n: nat)
    ensures DecimalValue(IndexKey(n)) == n
  {
    if n >= 10 {
      IndexKeyRoundTrip(n / 10);
      var s := IndexKey(n);
      assert s[..|s| - 1] == IndexKey(n / 10);
    }
  }

  lemma IndexKeyInjective(a: nat, b: nat)
    requires a != b
    ensures IndexKey(a) != IndexKey(b)
  {
    IndexKeyRoundTrip(a);
    IndexKeyRoundTrip(b);
  }

  /** The value an element object holds under `type`. */
  function TypeValue(t: ElemType): Value
  {
    match t
    case TextMarker => ElementText
    case TagName(name) => Str(name)
    case FuncType(f) => Func(f)
    case NoType => Undefined
  }

  /**
   * The element type a `type` value stands for in the tests at
   * src/scheduler.js:184-194: a string names a tag, a function is a
   * component, ELEMENT_TEXT marks text; any other value is no type.
   */
  function TypeFrom(v: Value): (t: ElemType)
    ensures v.Str? || v.Func? || v.ElementText? || v.Undefined? ==> TypeValue(t) == v
    ensures t.NoType? <==> !(v.Str? || v.Func? || v.ElementText?)
  {
    match v
    case Str(name) => TagName(name)
    case Func(f) => FuncType(f)
    case ElementText => TextMarker
    case _ => NoType
  }

  /** Reading back the `type` an element object holds gives its type. */
  lemma TypeRoundTrip(t: ElemType)
    ensures TypeFrom(TypeValue(t)) == t
  {
  }

  /**
   * The keys and values `for (k in v)` and `{...v}` visit: an object's
   * entries, an array's or a string's indices (a string's one-character
   * strings), an element's `type` and `props`, and nothing for other
   * primitives and for functions.
   */
  function EnumEntries(v: Value): Entries
  {
    match v
    case Obj(es) => es
    case Arr(items) => seq(|items|, i requires 0 <= i < |items| => (IndexKey(i), items[i]))
    case Str(s) => seq(|s|, i requires 0 <= i < |s| => (IndexKey(i), Str([s[i]])))
    case Elem(e) => [("type", TypeValue(e.typ)), ("props", Obj(e.props))]
    case _ => []
  }

  /**
   * What the visit of a value that is not a plain object finds: an array
   * or a string yields exactly its indices, each once and in ascending
   * order, with the item (the character) at that index; an element yields
   * `type` and `props`; anything else yields nothing.
   */
  lemma EnumEntriesFacts(v: Value)
    ensures !v.Obj? ==> DistinctKeys(EnumEntries(v))
    ensures v.Arr? ==>
      && |EnumEntries(v)| == |v.items|
      && forall i :: 0 <= i < |v.items| ==>
           Has(EnumEntries(v), IndexKey(i)) && Get(EnumEntries(v), IndexKey(i)) == v.items[i]
    ensures v.Str? ==>
      && |EnumEntries(v)| == |v.s|
      && forall i :: 0 <= i < |v.s| ==>
           Has(EnumEntries(v), IndexKey(i)) && Get(EnumEntries(v), IndexKey(i)) == Str([v.s[i]])
    ensures v.Elem? ==>
      && KeysOf(EnumEntries(v)) == ["type", "props"]
      && Get(EnumEntries(v), "type") == TypeValue(v.e.typ)
      && Get(EnumEntries(v), "props") == Obj(v.e.props)
    ensures !v.Obj? && !v.Arr? && !v.Str? && !v.Elem? ==> EnumEntries(v) == []
  {
    var es := EnumEntries(v);
    if v.Arr? || v.Str? {
      forall i, j | 0 <= i < j < |es| ensures es[i].0 != es[j].0 {
        IndexKeyInjective(i, j);
      }
      forall i | 0 <= i < |es| ensures Has(es, IndexKey(i)) && Get(es, IndexKey(i)) == es[i].1 {
        GetAt(es, i);
      }
    } else if v.Elem? {
      assert es[1..] == [("props", Obj(v.e.props))];
    }
  }

  /** ASCII case folding of one character. */
  function LowerChar(c: char): char
  {
    if 'A' <= c <= 'Z' then (c as int + 32) as char else c
  }

  predicate IsUpper(c: char)
  {
    'A' <= c <= 'Z'
  }

  /** `s.toLowerCase()`, for ASCII letters: no capital is left, and nothing else changes. */
  function ToLower(s: string): (r: string)
    ensures |r| == |s|
    ensures forall i :: 0 <= i < |r| ==> !IsUpper(r[i])
    ensures forall i :: 0 <= i < |s| && !IsUpper(s[i]) ==> r[i] == s[i]
    ensures forall i :: 0 <= i < |s| && IsUpper(s[i]) ==> r[i] as int - s[i] as int == 'a' as int - 'A' as int
  {
    seq(|s|, i requires 0 <= i < |s| => LowerChar(s[i]))
  }

  /** Lowercasing twice is lowercasing once. */
  lemma ToLowerIdempotent(s: string)
    ensures ToLower(ToLower(s)) == ToLower(s)
  {
    var once := ToLower(s);
    assert forall i :: 0 <= i < |once| ==> ToLower(once)[i] == once[i];
  }

  /** `/^on/.test(key)`: the key names an event handler. */
  predicate IsEventKey(key: string)
  {
    |key| >= 2 && key[0] == 'o' && key[1] == 'n'
  }

  /** The entry at position `i` of a key-distinct list is what `Get` finds. */
  lemma {:induction false} GetAt(es: Entries, i: nat)
    requires DistinctKeys(es) && i < |es|
    ensures Has(es, es[i].0) && Get(es, es[i].0) == es[i].1
  {
    assert KeysOf(es)[i] == es[i].0;
    if i > 0 {
      assert DistinctKeys(es[1..]) by {
        forall a, b | 0 <= a < b < |es[1..]| ensures es[1..][a].0 != es[1..][b].0 {
          assert es[1..][a] == es[a + 1] && es[1..][b] == es[b + 1];
        }
      }
      GetAt(es[1..], i - 1);
      assert es[1..][i - 1] == es[i];
      assert es[0].0 != es[i].0;
    }
  }
}
