/// The optional value that the pipeline's Python code writes as `None`.
module Options {

  datatype Option<+T> = None | Some(value: T)
}
