/** Values of the PHP runtime that the store-credit code relies on. */
module PhpValues {

  /** A value that may be absent: an unset array key, a `false` lookup result, `null`. */
  datatype Option<+T> = None | Some(value: T)

  /** PHP's truthiness of a string: only "" and "0" are falsy. */
  predicate Truthy(s: string) {
    s != "" && s != "0"
  }

  /** `empty($x)` for an integer that may be unset: unset or 0. */
  predicate EmptyInt(x: Option<int>) {
    x.None? || x.value == 0
  }
}
