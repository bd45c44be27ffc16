/** An optional value: `None` stands for JavaScript's `null` result of a failed match. */
module Optional {

  datatype Option<+T> = None | Some(value: T)
}
