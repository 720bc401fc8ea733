/**
 * The Python values that travel through the toolkit's arguments, keyword
 * arguments, configuration entries and replies, with the three built-ins the
 * code applies to them: truthiness (`if x:`), `len(x)` and `str(x)`.
 */
module PyValues {
  import opened Wrappers
  import opened Strings

  datatype Value =
    | NoneValue
    | Bool(b: bool)
    | Int(i: int)
    | Str(s: string)
    | List(items: seq<Value>)
    | Tuple(items: seq<Value>)
    | Dict(entries: seq<(string, Value)>)

  /** `bool(v)`: None, False, zero and empty containers are false. */
  predicate Truthy(v: Value) {
    match v
    case NoneValue => false
    case Bool(b) => b
    case Int(i) => i != 0
    case Str(s) => s != []
    case List(xs) => xs != []
    case Tuple(xs) => xs != []
    case Dict(es) => es != []
  }

  /** `len(v)`, or None where Python raises a TypeError. */
  function Len(v: Value): (r: Option<nat>)
    ensures r.Some? ==> (r.value == 0 <==> !Truthy(v))
  {
    match v
    case Str(s) => Some(|s|)
    case List(xs) => Some(|xs|)
    case Tuple(xs) => Some(|xs|)
    case Dict(es) => Some(|es|)
    case _ => None
  }

  /** The name Python gives the type of `v` in its error messages. */
  function TypeName(v: Value): string {
    match v
    case NoneValue => "NoneType"
    case Bool(_) => "bool"
    case Int(_) => "int"
    case Str(_) => "str"
    case List(_) => "list"
    case Tuple(_) => "tuple"
    case Dict(_) => "dict"
  }

  /** The text of the TypeError that `len(v)` raises. */
  function NoLenError(v: Value): string {
    "object of type '" + TypeName(v) + "' has no len()"
  }

  /** Whether `v` can be a dict key; a list or a dict raises TypeError. */
  predicate Hashable(v: Value)
    decreases v
  {
    match v
    case List(_) => false
    case Dict(_) => false
    case Tuple(xs) => forall i :: 0 <= i < |xs| ==> Hashable(xs[i])
    case _ => true
  }

  /** `d.get(key)`: the entry for `key` (keys of a dict are distinct). */
  function Get(entries: seq<(string, Value)>, key: string): (r: Option<Value>)
    ensures r.Some? <==> exists i :: 0 <= i < |entries| && entries[i].0 == key
  {
    if entries == [] then None
    else if entries[0].0 == key then Some(entries[0].1)
    else Get(entries[1..], key)
  }

  /** Looking a key up past entries with other keys. */
  lemma {:induction false} GetAppend(front: seq<(string, Value)>, back: seq<(string, Value)>, key: string)
    requires forall i :: 0 <= i < |front| ==> front[i].0 != key
    ensures Get(front + back, key) == Get(back, key)
  {
    if front != [] {
      assert (front + back)[1..] == front[1..] + back;
      GetAppend(front[1..], back, key);
    } else {
      assert front + back == back;
    }
  }

  /** `str(v)`: a string is itself, everything else is its `repr`. */
  function ToStr(v: Value): string {
    if v.Str? then v.s else Repr(v)
  }

  /** `repr(v)` (strings are quoted with `'` and not escaped). */
  function Repr(v: Value): string
    decreases v
  {
    match v
    case NoneValue => "None"
    case Bool(b) => if b then "True" else "False"
    case Int(i) => IntToString(i)
    case Str(s) => "'" + s + "'"
    case List(xs) =>
      "[" + Join(seq(|xs|, k requires 0 <= k < |xs| => Repr(xs[k])), ", ") + "]"
    case Tuple(xs) =>
      if |xs| == 1 then "(" + Repr(xs[0]) + ",)"
      else "(" + Join(seq(|xs|, k requires 0 <= k < |xs| => Repr(xs[k])), ", ") + ")"
    case Dict(es) =>
      "{" + Join(seq(|es|, k requires 0 <= k < |es| => "'" + es[k].0 + "': " + Repr(es[k].1)), ", ") + "}"
  }
}
