/** Values shared by the whole adapter model: the scalar attribute values the
    cloud service reports, the attribute maps that carry them, and the state
    records of the local store. */
module Values {

  datatype Option<+T> = None | Some(value: T)

  /** A scalar attribute value. The tag stands for what JavaScript's `typeof`
      reports at run time; the service never sends nested objects. */
  datatype Value = Bool(b: bool) | Number(n: real) | Str(s: string)

  /** The `typeof` name of a value, which becomes the declared type of its state. */
  function TypeOf(v: Value): (t: string)
    ensures t == "boolean" <==> v.Bool?
    ensures t == "number" <==> v.Number?
    ensures t == "string" <==> v.Str?
  {
    match v
    case Bool(_) => "boolean"
    case Number(_) => "number"
    case Str(_) => "string"
  }

  /** One own property of a JavaScript object, as `Object.entries` yields it. */
  datatype Attr = Attr(key: string, val: Value)

  /** A JavaScript object as the sequence of its entries, in the order
      `Object.entries` yields them. */
  type Attrs = seq<Attr>

  /** Property lookup `obj[key]`; `None` stands for `undefined`. */
  function Get(attrs: Attrs, key: string): (r: Option<Value>)
    ensures r.None? <==> forall i :: 0 <= i < |attrs| ==> attrs[i].key != key
    ensures r.Some? ==> Attr(key, r.value) in attrs
  {
    if attrs == [] then None
    else if attrs[0].key == key then Some(attrs[0].val)
    else Get(attrs[1..], key)
  }

  /** The object has a string-valued `name` property. */
  predicate HasName(attrs: Attrs) {
    Get(attrs, "name").Some? && Get(attrs, "name").value.Str?
  }

  /** `obj.name` for an object that has a string name. */
  function NameOf(attrs: Attrs): (name: string)
    requires HasName(attrs)
    ensures Attr("name", Str(name)) in attrs
  {
    Get(attrs, "name").value.s
  }

  /** A state record of the store: its value (`None` is `null`) and whether
      the write was acknowledged, i.e. reflects the remote side. */
  datatype State = State(val: Option<Value>, ack: bool)
}
