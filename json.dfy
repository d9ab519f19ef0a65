/**
 * JavaScript values as they travel through request bodies, headers of
 * decoded JSON and response envelopes. Numbers are integers here.
 */
module Json {
  import opened Strings

  datatype Value =
    | Undefined
    | Null
    | Bool(b: bool)
    | Num(n: int)
    | Str(s: string)
    | Arr(items: seq<Value>)
    | Obj(fields: map<string, Value>)

  /** JavaScript truthiness (`if (v)`, `v || w`, `!v`). */
  predicate Truthy(v: Value)
  {
    match v
    case Undefined => false
    case Null => false
    case Bool(b) => b
    case Num(n) => n != 0
    case Str(s) => s != ""
    case Arr(_) => true
    case Obj(_) => true
  }

  /** `typeof v === 'object'`: null, arrays and plain objects. */
  predicate IsObjectType(v: Value)
  {
    v.Null? || v.Arr? || v.Obj?
  }

  /** `String(v)` as `Array.prototype.join` renders an element (null and undefined become ""). */
  function ToText(v: Value): string
    decreases v
  {
    match v
    case Undefined => ""
    case Null => ""
    case Bool(b) => if b then "true" else "false"
    case Num(n) => IntToString(n)
    case Str(s) => s
    case Arr(items) => Join(seq(|items|, i requires 0 <= i < |items| => ToText(items[i])), ",")
    case Obj(_) => "[object Object]"
  }

  /** `items.join(sep)`. */
  function JoinValues(items: seq<Value>, sep: string): string
  {
    Join(seq(|items|, i requires 0 <= i < |items| => ToText(items[i])), sep)
  }

  /** The elements of a list of strings. */
  function Strs(texts: seq<string>): (items: seq<Value>)
    ensures |items| == |texts| && forall i :: 0 <= i < |texts| ==> items[i] == Str(texts[i])
  {
    seq(|texts|, i requires 0 <= i < |texts| => Str(texts[i]))
  }

  /** Joining a list of strings renders each as itself. */
  lemma JoinStrs(texts: seq<string>, sep: string)
    ensures JoinValues(Strs(texts), sep) == Join(texts, sep)
  {
    var items := Strs(texts);
    var rendered := seq(|items|, i requires 0 <= i < |items| => ToText(items[i]));
    assert rendered == texts;
  }
}
