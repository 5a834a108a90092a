/** A value that may be missing. In this model `None` stands for a JavaScript
    `NaN` or `undefined` that the source lets flow through its arithmetic. */
module Options {

  datatype Option<+T> = None | Some(value: T)

}
