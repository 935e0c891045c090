/** The usual Option datatype: `None` stands for a value the dashboard
    cannot compute (pandas yields NaN there). */
module Wrappers {
  datatype Option<+T> = None | Some(value: T)
}
