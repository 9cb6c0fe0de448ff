/**
 * The keyboard event that ink hands to every `useInput` handler: the typed
 * text `input` together with a record of flags. Only the flags the core
 * reads are kept.
 */
module Ink {

  datatype Key = Key(
    upArrow: bool,
    downArrow: bool,
    leftArrow: bool,
    rightArrow: bool,
    returnKey: bool,
    escape: bool,
    ctrl: bool,
    shift: bool,
    tab: bool,
    backspace: bool,
    delete: bool)

  /** A key event with no flag set: plain typed text. */
  const Plain := Key(false, false, false, false, false, false, false, false, false, false, false)
}
