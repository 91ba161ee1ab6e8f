/** The optional value used for absent storage fields and for state that may not exist yet. */
module Maybe {

  datatype Option<T> = None | Some(value: T) {

    /** The held value, or `default` when there is none: JavaScript's `x || default`
        for the fields this model reads. */
    function GetOr(default: T): T {
      match this
      case Some(v) => v
      case None => default
    }
  }
}
