/**
 * The values `json.loads` produces, and what Python's subscript
 * `container[key]` does with them.
 */
module Json {
  import opened Wrappers

  /** A decoded JSON document: None, bool, int, float, str, list or dict. */
  datatype Value =
    | Null
    | Bool(b: bool)
    | Int(i: int)
    | Float(x: real)
    | Str(s: string)
    | Array(items: seq<Value>)
    | Object(fields: map<string, Value>)

  /** The three ways `container[key]` can end: a value, a `KeyError`
      (which only a dict raises), or any other exception (`TypeError`
      for an unsubscriptable container or an unusable key, `IndexError`
      for an index out of range). */
  datatype Lookup = Found(value: Value) | MissingKey | Fault

  /** Python's name for the type of a value, as it appears in its messages. */
  function TypeName(v: Value): string {
    match v
    case Null => "NoneType"
    case Bool(_) => "bool"
    case Int(_) => "int"
    case Float(_) => "float"
    case Str(_) => "str"
    case Array(_) => "list"
    case Object(_) => "dict"
  }

  /** A key usable as a list or string index: an int, or a bool (True is 1). */
  function AsIndex(key: Value): Option<int> {
    match key
    case Int(i) => Some(i)
    case Bool(b) => Some(if b then 1 else 0)
    case _ => None
  }

  /** Python's `container[key]`.  A dict finds exactly its string keys
      (every other hashable key is missing, since JSON keys are strings;
      a list or dict key is unhashable); a list or string accepts an index
      in `-n .. n-1`, counting negative ones from the end. */
  function Subscript(container: Value, key: Value): (r: Lookup)
    ensures container.Object? && key.Str? ==>
              r == if key.s in container.fields then Found(container.fields[key.s]) else MissingKey
    ensures r.MissingKey? ==> container.Object? && !key.Array? && !key.Object?
    ensures container.Object? ==>
              (r.MissingKey? <==> !key.Array? && !key.Object? && !(key.Str? && key.s in container.fields))
    ensures container.Object? && (key.Array? || key.Object?) ==> r == Fault
    ensures container.Array? ==>
              (r.Found? <==> AsIndex(key).Some? && -|container.items| <= AsIndex(key).value < |container.items|)
    ensures r.Found? && container.Array? ==>
              var i := AsIndex(key).value;
              r.value == container.items[if i < 0 then |container.items| + i else i]
    ensures container.Str? ==>
              (r.Found? <==> AsIndex(key).Some? && -|container.s| <= AsIndex(key).value < |container.s|)
    ensures r.Found? && container.Str? ==>
              var i := AsIndex(key).value;
              r.value == Str([container.s[if i < 0 then |container.s| + i else i]])
    ensures !container.Object? && !container.Array? && !container.Str? ==> r == Fault
  {
    match container
    case Object(fields) =>
      (match key
       case Str(k) => if k in fields then Found(fields[k]) else MissingKey
       case Array(_) => Fault
       case Object(_) => Fault
       case _ => MissingKey)
    case Array(items) =>
      (match AsIndex(key)
       case Some(i) =>
         if -|items| <= i < |items| then Found(items[if i < 0 then i + |items| else i]) else Fault
       case None => Fault)
    case Str(s) =>
      (match AsIndex(key)
       case Some(i) =>
         if -|s| <= i < |s| then Found(Str([s[if i < 0 then i + |s| else i]])) else Fault
       case None => Fault)
    case _ => Fault
  }
}
