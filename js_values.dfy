/**
 * Untyped JavaScript values, as they reach the configuration coercions.
 * Numbers are reduced to what the coercions observe of them: whether
 * `Number(...)` of them is NaN, zero (0 or -0) or any other number, and the
 * text their `toString()` produces.
 */
module JsValues {
  import opened Wrappers

  /** The outcome of JavaScript's `Number(value)`, reduced to NaN, zero or non-zero. */
  datatype NumKind = NaN | Zero | NonZero

  /**
   * A JavaScript value.
   * - `Num(kind, text)`: a number; `text` is what `Number.prototype.toString` gives for it.
   * - `Obj(id, toStringResult, numeric)`: a non-null object, by identity `id`;
   *   `toStringResult` is `Some(t)` when `value.toString` is a function returning `t`
   *   and `None` when it is not a function; `numeric` is the outcome of `Number(value)`
   *   (which goes through the object's `valueOf` / `toString`).
   */
  datatype JsValue =
    | Undefined
    | Null
    | Bool(b: bool)
    | Num(kind: NumKind, text: string)
    | Str(s: string)
    | Obj(id: nat, toStringResult: Option<string>, numeric: NumKind)
}
