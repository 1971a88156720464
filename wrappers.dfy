/** An optional value: `None` stands for a Java `null` (or an absent lookup result). */
module Wrappers {

  datatype Option<+T> = None | Some(value: T)
}
