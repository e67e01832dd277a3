/** An optional value: stands for JavaScript's `undefined` where the dashboard
    code relies on a value being absent. */
module Options {

  datatype Option<T> = None | Some(value: T) {

    /** The value, or `default` when there is none (a JavaScript default parameter). */
    function GetOr(default: T): T
    {
      match this
      case Some(v) => v
      case None => default
    }
  }
}
