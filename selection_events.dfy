/** The values that cross from the native view to JavaScript. */
module SelectionEvents {

  /** The process-wide device-event name the Android view broadcasts on. */
  const CHANNEL := "SelectableTextSelection"

  /** The broadcast map `{viewTag, chosenOption, highlightedText}`. */
  datatype SelectionPayload = SelectionPayload(viewTag: int, chosenOption: string, highlightedText: string)

  /** What the application's `onSelection` callback receives. */
  datatype SelectionEvent = SelectionEvent(chosenOption: string, highlightedText: string)

  /** One call of `emit(eventName, params)` on the device-event emitter. */
  datatype Emission = Emission(eventName: string, params: SelectionPayload)
}
