/** Option, used for the window's unpopulated (nil) slots and for values a collaborator may not produce. */
module Wrappers {
  datatype Option<+T> = None | Some(value: T)
}
