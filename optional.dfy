/** The value-or-nothing wrapper used wherever the application reads a request
    parameter that may be absent (Ruby's `nil`). */
module Optional {

  datatype Option<+T> = None | Some(value: T)
}
