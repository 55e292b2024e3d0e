/** The few pieces of PHP's semantics that the comment handlers depend on. */
module Php {

  datatype Option<+T> = None | Some(value: T)

  /** What a PHP function call ends in: it returns a value, or it throws an Exception carrying a message. */
  datatype Outcome<+T> = Returned(value: T) | Raised(message: string)

  /**
   * PHP's `empty($a[$k])` for an array whose values are strings: a missing key,
   * the empty string and the string "0" are empty. Nothing is trimmed, so " " is not empty.
   */
  predicate Empty(a: map<string, string>, k: string)
  {
    k !in a || a[k] == "" || a[k] == "0"
  }

  /** PHP's truthiness of an integer: only 0 is falsy. */
  predicate Truthy(i: int)
  {
    i != 0
  }

  /** `array_merge` of two arrays with (non-numeric) string keys: every key of both, the later array wins. */
  function ArrayMerge<V>(a: map<string, V>, b: map<string, V>): (r: map<string, V>)
    ensures r.Keys == a.Keys + b.Keys
    ensures forall k :: k in b ==> r[k] == b[k]
    ensures forall k :: k in a && k !in b ==> r[k] == a[k]
  {
    a + b
  }

  /** `array_keys` of an array given in its insertion order as a sequence of (key, value) pairs. */
  function ArrayKeys<K, V>(a: seq<(K, V)>): seq<K>
  {
    seq(|a|, i requires 0 <= i < |a| => a[i].0)
  }
}
