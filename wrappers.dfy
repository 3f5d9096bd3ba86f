/** The optional-value type of the model: what the source expresses with a
    nullable return (`MacroEventType?`, `HookEventArgs?`, `Macro?`). */
module Wrappers {

  datatype Option<+T> = None | Some(value: T)
}
