/** JavaScript values as they reach the application from JSON bodies, database
    rows and component props, with the three operations the source applies to
    them everywhere: truthiness (`if (x)`, `x || d`), conversion to a string
    (`String(x)`, `x.toString()`, `x?.toString()`) and property access. */
module JsValues {
  import opened Options
  import opened JsStrings

  /** Numbers are integers here (no fractions, no NaN). Objects are maps from
      property names to values. */
  datatype Js =
    | Undefined
    | Null
    | Bool(b: bool)
    | Num(n: int)
    | Str(s: string)
    | Arr(items: seq<Js>)
    | Obj(fields: map<string, Js>)
  {
    predicate Nullish() {
      Undefined? || Null?
    }
  }

  /** JavaScript truthiness: `undefined`, `null`, `false`, `0` and `""` are falsy. */
  predicate Truthy(v: Js)
  {
    match v
    case Undefined => false
    case Null => false
    case Bool(b) => b
    case Num(n) => n != 0
    case Str(s) => s != ""
    case Arr(_) => true
    case Obj(_) => true
  }

  /** `x || d`. */
  function Or(x: Js, d: Js): (r: Js)
    ensures Truthy(x) ==> r == x
    ensures !Truthy(x) ==> r == d
  {
    if Truthy(x) then x else d
  }

  /** `String(v)`; for an array the elements are joined with "," and
      `null`/`undefined` elements print as the empty string. */
  function ToStr(v: Js): string
    decreases v, 1
  {
    match v
    case Undefined => "undefined"
    case Null => "null"
    case Bool(b) => if b then "true" else "false"
    case Num(n) => IntToString(n)
    case Str(s) => s
    case Arr(items) => ItemsStr(v, 0)
    case Obj(_) => "[object Object]"
  }

  function ItemsStr(v: Js, i: nat): string
    requires v.Arr? && i <= |v.items|
    decreases v, 0, |v.items| - i
  {
    if i == |v.items| then ""
    else
      var e := v.items[i];
      (if i > 0 then "," else "") + (if e.Nullish() then "" else ToStr(e)) + ItemsStr(v, i + 1)
  }

  /** `v?.toString()`: absent for `null` and `undefined`. */
  function OptToStr(v: Js): (r: Option<string>)
    ensures r.None? <==> v.Nullish()
  {
    if v.Nullish() then None else Some(ToStr(v))
  }

  /** `v[k]` on a value that is not `null`/`undefined`: an own property of an
      object, `undefined` for everything else. */
  function Prop(v: Js, k: string): Js
  {
    if v.Obj? && k in v.fields then v.fields[k] else Undefined
  }
}
