/** Definitions shared by several components. */
module Common {

  datatype Option<T> = None | Some(value: T)

  // s without its element at position k.
  ghost function Without<T>(s: seq<T>, k: int): seq<T>
    requires 0 <= k < |s|
  {
    s[..k] + s[k + 1..]
  }
}
