/**
 * The key events the terminal delivers (crossterm's `KeyEvent`), reduced to what
 * the dispatch core looks at: the components test for Esc and Enter, and the
 * keybinding tables compare whole events for equality.
 */
module Keys {

  datatype KeyCode =
    | Char(c: char)
    | Enter
    | Esc
    | OtherKey(code: nat)  // every other crossterm key code, told apart by number

  datatype KeyModifiers = KeyModifiers(shift: bool, control: bool, alt: bool)

  datatype KeyEvent = KeyEvent(code: KeyCode, modifiers: KeyModifiers)
}

/** `app::Mode`: which keybinding table is active. */
module Modes {

  datatype Mode = MainMenu | Home

  /** The `{:?}` rendering of a mode. */
  function ModeName(m: Mode): (r: string)
    ensures r != []
  {
    match m
    case MainMenu => "MainMenu"
    case Home => "Home"
  }
}
