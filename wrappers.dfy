/** Optional values and results shared by every module of the renderer. */
module Wrappers {

  datatype Option<+T> = None | Some(value: T)
  {
    predicate IsFailure() { None? }

    function PropagateFailure<U>(): Option<U>
      requires None?
    {
      None
    }

    function Extract(): T
      requires Some?
    {
      value
    }
  }

  /** The outcome of an operation that may throw: `Err` carries what was thrown. */
  datatype Result<+T, +E> = Ok(value: T) | Err(error: E)
  {
    predicate IsFailure() { Err? }

    function PropagateFailure<U>(): Result<U, E>
      requires Err?
    {
      Err(error)
    }

    function Extract(): T
      requires Ok?
    {
      value
    }
  }

  /**
   * What the renderer throws. `UnknownTheme` is the `Error` raised for a theme name that
   * does not resolve; `MissingList` stands for the TypeError of calling `.map` on a required
   * list field that is absent (the path names the field, e.g. "left.items").
   */
  datatype Failure = UnknownTheme(name: string) | MissingList(path: string)
  {
    /** The message of the thrown `Error` for an unknown theme. */
    function Message(): (m: string)
      requires UnknownTheme?
      ensures |m| == 15 + |name| && m[..15] == "Unknown theme: " && m[15..] == name
    {
      "Unknown theme: " + name
    }
  }
}
