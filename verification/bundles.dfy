/**
  The platform's string-keyed argument bag (`android.os.Bundle`), reduced to the
  three kinds of value the dialog fragment stores in it, together with the
  typed getters the fragment reads it back with.
 */
module Bundles {
  import opened Wrappers

  /** A Java `int`: resource ids and style constants are 32-bit values. */
  type Int32 = x: int | -0x8000_0000 <= x < 0x8000_0000

  /** A Java `String` reference: `None` is `null`. */
  type JString = Option<string>

  /** What `putInt`, `putString` and `putBoolean` store under a key. */
  datatype Value = IntV(i: Int32) | StrV(s: JString) | BoolV(b: bool)

  type Bundle = map<string, Value>

  /** The value stored under `key`, if any. */
  function Get(m: Bundle, key: string): Option<Value> {
    if key in m then Some(m[key]) else None
  }

  /** `getInt(key)`: the stored int, or 0 when the key is missing or holds another kind of value. */
  function GetInt(m: Bundle, key: string): Int32 {
    if key in m && m[key].IntV? then m[key].i else 0
  }

  /** `getString(key)`: the stored string, or `null` when the key is missing or holds another kind of value. */
  function GetString(m: Bundle, key: string): JString {
    if key in m && m[key].StrV? then m[key].s else None
  }

  /** `getBoolean(key)`: the stored boolean, or `false` when the key is missing or holds another kind of value. */
  function GetBoolean(m: Bundle, key: string): bool {
    if key in m && m[key].BoolV? then m[key].b else false
  }
}
