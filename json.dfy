/** JSON values as `JSON.parse` produces them, with JavaScript's truthiness. */
module JsonValues {
  import opened Dicts

  /**
    * A parsed JSON value. Objects keep their fields in insertion order and,
    * as after `JSON.parse`, are expected to hold each field name once.
    * Numbers are kept abstract as integers: nothing in the core computes
    * with them, only their truthiness (0 is falsy) matters.
    */
  datatype Json =
    | Str(s: string)
    | Num(n: int)
    | Bool(b: bool)
    | Null
    | Arr(elems: seq<Json>)
    | Obj(fields: Dict<Json>)

  /** JavaScript truthiness: "", 0, false and null are falsy; every array and object is truthy. */
  predicate Truthy(v: Json) {
    match v
    case Str(s) => s != ""
    case Num(n) => n != 0
    case Bool(b) => b
    case Null => false
    case Arr(_) => true
    case Obj(_) => true
  }

  /** `typeof v === "object"`, which holds for null as well as for arrays and objects. */
  predicate TypeofObject(v: Json) {
    v.Null? || v.Arr? || v.Obj?
  }

  /** The test `v && typeof v === "object"` that decides whether flattening descends into `v`. */
  predicate IsContainer(v: Json)
    ensures IsContainer(v) <==> v.Arr? || v.Obj?
  {
    Truthy(v) && TypeofObject(v)
  }

  /**
    * The members every plain object inherits from Object.prototype. Reading
    * `o[k]` or testing `k in o` finds them (all truthy) even when `o` has no
    * own field `k`.
    */
  const InheritedNames: seq<string> :=
    ["constructor", "hasOwnProperty", "isPrototypeOf", "propertyIsEnumerable",
     "toLocaleString", "toString", "valueOf", "__proto__",
     "__defineGetter__", "__defineSetter__", "__lookupGetter__", "__lookupSetter__"]

  predicate InheritedName(k: string) {
    InheritedFrom(k, 0)
  }

  /** Whether `k` is one of InheritedNames from position `i` on. */
  predicate InheritedFrom(k: string, i: nat)
    ensures InheritedFrom(k, i) <==> exists j :: i <= j < |InheritedNames| && InheritedNames[j] == k
    decreases |InheritedNames| - i
  {
    i < |InheritedNames| && (InheritedNames[i] == k || InheritedFrom(k, i + 1))
  }

  /** The empty name is not inherited: every inherited member has a non-empty name. */
  lemma EmptyNameNotInherited()
    ensures !InheritedName("")
  {
    assert forall j :: 0 <= j < |InheritedNames| ==> |InheritedNames[j]| > 0;
  }
}
