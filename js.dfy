/**
 * The slice of JavaScript semantics that the Lux supervisor relies on:
 * values as they arrive from a parsed JSON file or over a process channel,
 * truthiness, property access (which raises a TypeError on null and
 * undefined) and the string coercion used by template literals and by
 * object keys.
 */
module Js {

  datatype Option<T> = None | Some(value: T)

  /** A JavaScript value. Numbers are modelled as integers. An object lists
      its own enumerable properties in their enumeration order; in a parsed
      object no key repeats. The datatype does not enforce that: for a
      repeated key `Lookup` reads the first occurrence and `Entries` visits
      all of them. */
  datatype Value =
    | Undefined
    | Null
    | Bool(b: bool)
    | Num(n: int)
    | Str(s: string)
    | Arr(elems: seq<Value>)
    | Obj(props: seq<(string, Value)>)

  /** The completion of an evaluation that may raise a TypeError. */
  datatype Completion<T> = Return(value: T) | Throw

  /** What a message handler did with one inbound message. */
  datatype Outcome = Handled | Dropped | Threw

  /** `typeof v === 'object'` (true of null, as in JavaScript) */
  predicate IsObject(v: Value) {
    v.Null? || v.Arr? || v.Obj?
  }

  /** `Boolean(v)` */
  predicate Truthy(v: Value) {
    match v
    case Undefined => false
    case Null => false
    case Bool(b) => b
    case Num(n) => n != 0
    case Str(s) => s != ""
    case Arr(_) => true
    case Obj(_) => true
  }

  /** The value of the first property named `key`, `undefined` if there is none */
  function Lookup(props: seq<(string, Value)>, key: string): (r: Value)
    ensures r != Undefined ==> exists i :: 0 <= i < |props| && props[i] == (key, r)
  {
    if props == [] then Undefined
    else if props[0].0 == key then props[0].1
    else Lookup(props[1..], key)
  }

  /** `v[key]` for a key that is neither `length` nor an array index:
      raises on null and undefined, reads own properties of objects and is
      `undefined` on every other value. */
  function Get(v: Value, key: string): (r: Completion<Value>)
    ensures r.Throw? <==> v.Undefined? || v.Null?
  {
    match v
    case Undefined => Throw
    case Null => Throw
    case Obj(props) => Return(Lookup(props, key))
    case _ => Return(Undefined)
  }

  /** A property that is read from a value known not to be null or undefined */
  function Prop(v: Value, key: string): Value
    requires !v.Undefined? && !v.Null?
  {
    Get(v, key).value
  }

  /** The keys and values `for (const k in v)` visits, in order */
  function Entries(v: Value): seq<(string, Value)> {
    match v
    case Obj(props) => props
    case Arr(elems) => seq(|elems|, i requires 0 <= i < |elems| => (NatToString(i), elems[i]))
    case _ => []
  }

  function DigitChar(d: nat): char
    requires d < 10
  {
    "0123456789"[d]
  }

  /** Decimal rendering of a natural number, as `String(n)` gives it */
  function NatToString(n: nat): (s: string)
    ensures |s| > 0
    decreases n
  {
    if n < 10 then [DigitChar(n)] else NatToString(n / 10) + [DigitChar(n % 10)]
  }

  function IntToString(i: int): string {
    if i < 0 then "-" + NatToString(-i) else NatToString(i)
  }

  /** `ss.join(sep)` */
  function Join(ss: seq<string>, sep: string): string {
    if ss == [] then ""
    else if |ss| == 1 then ss[0]
    else ss[0] + sep + Join(ss[1..], sep)
  }

  /** `String(v)`: what a template literal or an object key makes of `v` */
  function ToString(v: Value): string {
    match v
    case Undefined => "undefined"
    case Null => "null"
    case Bool(b) => if b then "true" else "false"
    case Num(n) => IntToString(n)
    case Str(s) => s
    case Arr(elems) => Join(ElementStrings(elems), ",")
    case Obj(_) => "[object Object]"
  }

  /** The strings `Array.prototype.join` gives the elements: empty for null and undefined */
  function ElementStrings(elems: seq<Value>): seq<string>
    decreases elems
  {
    if elems == [] then []
    else
      [if elems[0].Undefined? || elems[0].Null? then "" else ToString(elems[0])]
      + ElementStrings(elems[1..])
  }

  /** Checking a message as both message handlers do: `typeof msg !== 'object'
      || typeof msg.action !== 'string'` drops it, and reading `action` of
      null raises. `Return(None)` means the message is dropped. */
  function Action(msg: Value): (r: Completion<Option<string>>)
    ensures r.Throw? <==> msg.Null?
    ensures r.Return? && r.value.Some? ==> msg.Obj? && Lookup(msg.props, "action") == Str(r.value.value)
    ensures !IsObject(msg) || msg.Arr? ==> r == Return(None)
    ensures msg.Obj? ==> r.Return? && (r.value.Some? <==> Lookup(msg.props, "action").Str?)
  {
    if !IsObject(msg) then Return(None)
    else if msg.Null? then Throw
    else match Prop(msg, "action")
      case Str(a) => Return(Some(a))
      case _ => Return(None)
  }
}
