/** The transient status message `showToast` displays. */
module Toasts {
  /** Message, error styling and the delay before the toast removes itself. */
  datatype Toast = Toast(message: string, isError: bool, durationMs: nat)

  const DefaultDurationMs: nat := 4000

  /** `showToast(message)` with its defaults: not an error, four seconds. */
  function Info(message: string): Toast {
    Toast(message, false, DefaultDurationMs)
  }
}
