/** Small value types shared by every module: an optional value (Python's
    `None`, JavaScript's `null`/`undefined`) and a success-or-error result
    (a raised exception or an error response). */
module Base {

  datatype Option<+T> = None | Some(value: T)

  datatype Result<+T> = Ok(value: T) | Err(error: string)

  function Min(a: int, b: int): int { if a <= b then a else b }

  function Max(a: int, b: int): int { if a >= b then a else b }

  /** `x or ""` / `x || ''` on an optional string. */
  function OrEmpty(x: Option<string>): string
  {
    match x
    case Some(s) => s
    case None => ""
  }
}
