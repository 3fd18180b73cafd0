/** Stand-ins for the two cursor types the UI state borrows from the terminal
    widget library: a list cursor and a table cursor. Of their internals only
    the optional selected row is modelled; `select`/`selected` are the only
    operations the UI state uses on them. */
module Tui {

  datatype Option<T> = None | Some(value: T)

  /** Cursor of a list widget: the selected row, if any. */
  datatype ListState = ListState(selected: Option<nat>) {
    function Select(id: Option<nat>): ListState {
      this.(selected := id)
    }
  }

  /** Cursor of a table widget: the selected row, if any. */
  datatype TableState = TableState(selected: Option<nat>) {
    function Select(id: Option<nat>): TableState {
      this.(selected := id)
    }
  }
}
