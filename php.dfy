/** The few PHP value semantics the plugin relies on. */
module Php {

  datatype Option<T> = None | Some(value: T)

  /** A PHP value as far as the plugin inspects it: `null`, a string, or
      anything else (an int, an array, an object). */
  datatype Value = Null | Str(s: string) | NonString

  /** PHP's `empty()` on a string: true for "" and for "0". */
  predicate Empty(s: string)
    ensures s == [] ==> Empty(s)
    ensures Empty(s) ==> |s| <= 1
    ensures |s| == 1 ==> (Empty(s) <==> s[0] == '0')
  {
    s == "" || s == "0"
  }

  /** PHP's `isset($m[$key])`: the key is present and its value is not null. */
  predicate IsSet(m: map<string, Value>, key: string)
    ensures key !in m ==> !IsSet(m, key)
    ensures key in m ==> (IsSet(m, key) <==> !m[key].Null?)
  {
    key in m && m[key] != Null
  }
}
