/** The types shared by several modules. */
module Wrappers {

  datatype Option<+T> = None | Some(value: T)

  /**
   A JavaScript value as far as the models look at it: `Nothing` is `null`, the value of
   a cancelled call, and `ErrResult` an error payload handed on as an ordinary result.
   */
  datatype JsValue = Nothing | Undefined | Value(id: nat) | ErrResult(payload: JsValue)

  /** `Err` stands for a thrown JavaScript exception or a returned Rust error. */
  datatype Result<+T, +E> = Ok(value: T) | Err(error: E)
}
