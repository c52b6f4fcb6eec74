/** The keys the tools' text fields react to. */
module Keyboard {
  datatype Key = Enter | Escape | OtherKey
}
