/** Result types shared by every component. */
module Prelude {

  datatype Option<+T> = None | Some(value: T)

  /** The outcome of an operation that may raise: its value, or the class of error raised. */
  datatype Result<+T, +E> = Ok(value: T) | Err(error: E)

  /** `dict.get`: the value stored under `key`, if any. */
  function Lookup<K, V>(m: map<K, V>, key: K): Option<V> {
    if key in m then Some(m[key]) else None
  }
}
