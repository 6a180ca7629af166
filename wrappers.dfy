/** Small value wrappers shared by the model.
    Option doubles as the model of a JavaScript number that may be NaN:
    None stands for NaN. Nullable models a field that may hold `null`. */
module Wrappers {

  datatype Option<+T> = None | Some(value: T)

  datatype Nullable<+T> = Null | NotNull(value: T)
}
