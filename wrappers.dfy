/** The two small sum types every other module uses: a value that may be
    absent (Python's `None`), and the outcome of a call that may raise. */
module Wrappers {

  /** An optional value; `None` stands for Python's `None`. */
  datatype Option<+T> = None | Some(value: T)

  /** The outcome of a library call: its value, or the text of the exception
      it raised (`str(e)`). */
  datatype Result<+R, +E> = Success(value: R) | Failure(error: E)

  /** The list `[v]` for `Some(v)` and `[]` for `None`: what an optional
      `append` contributes to a list. */
  function ToSeq<T>(o: Option<T>): (r: seq<T>)
    ensures |r| <= 1
    ensures o.Some? <==> |r| == 1
    ensures o.Some? ==> r[0] == o.value
  {
    match o
    case None => []
    case Some(v) => [v]
  }
}
