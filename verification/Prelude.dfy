/** Shared vocabulary: optional values, results and the JSON values that cross the SDK's boundary. */
module Prelude {

  datatype Option<+T> = None | Some(value: T)

  datatype Result<+T, +E> = Ok(value: T) | Err(error: E)

  /** A JSON value. Python's `None` is `Null`; an absent dictionary field is modelled by `Option`. */
  datatype Json =
    | Null
    | Bool(b: bool)
    | Num(n: int)
    | Str(s: string)
    | Arr(items: seq<Json>)
    | Obj(fields: map<string, Json>)
  {
    /** Python truthiness. */
    predicate Truthy() {
      match this
      case Null => false
      case Bool(b) => b
      case Num(n) => n != 0
      case Str(s) => s != ""
      case Arr(items) => items != []
      case Obj(fields) => fields != map[]
    }

    /** `d.get(k)` on a dictionary; `Null` on anything else. */
    function Get(k: string): Json {
      if Obj? && k in fields then fields[k] else Null
    }
  }

  function Min(a: nat, b: nat): nat { if a < b then a else b }

  function Max(a: int, b: int): int { if a < b then b else a }

  /** `d.get(k)`: the value at a key, if there is one. */
  function Find<K, V>(m: map<K, V>, k: K): Option<V> {
    if k in m then Some(m[k]) else None
  }

  /** `s` without position `i`: what `list.pop(i)` leaves behind. */
  function Without<T>(s: seq<T>, i: nat): seq<T>
    requires i < |s|
  {
    s[..i] + s[i + 1..]
  }

  lemma WithoutMultiset<T>(s: seq<T>, i: nat)
    requires i < |s|
    ensures multiset(s) == multiset(Without(s, i)) + multiset{s[i]}
  {
    assert s == s[..i] + [s[i]] + s[i + 1..];
  }

  lemma {:induction false} CardSubset<T>(a: set<T>, b: set<T>)
    requires a <= b
    ensures |a| <= |b|
  {
    if a != {} {
      var x :| x in a;
      CardSubset(a - {x}, b - {x});
    }
  }
}
