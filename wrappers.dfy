/** An optional value, used for the attributes the source only creates on
    first use (a generator's coefficients, the sketch's last query result). */
module Wrappers {

  datatype Option<+T> = None | Some(value: T)
}
