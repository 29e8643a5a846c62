# Selectable text: a Dafny model

This project models `react-native-selectable-text`. The component makes a block of text
selectable and adds caller-defined entries to the selection menu. When the user picks an
entry, the application's `onSelection` callback receives the chosen option and the selected
text.

The model covers three pieces of logic:

- **The Android host view** (`TextSelectionHost`). `SelectableTextView` is a class with the
  fields the Kotlin view updates: `menuOptions`, `textView`, and `children` (the view
  hierarchy, kept by the framework).
  - It binds to its first `TextView` child and arms it: the child becomes selectable and gets
    an action-mode callback.
  - The callback is a class of its own, `SelectionCallback`. It holds the host and the
    `TextView` it was installed on, as the Kotlin closure does.
  - Preparing the menu clears it and adds one entry per option. Entry `i` has id `i`.
  - A click reads the selection and the *current* option list. It then appends one
    broadcast `{viewTag, chosenOption, highlightedText}` on `"SelectableTextSelection"` to
    an event log.
  - The two exceptions a click can raise (`substring` bounds, array index) are results
    (`CallbackOutcome.Threw`), not preconditions.
  - The platform's `Menu`, `ActionMode` and `TextView` are small classes that hold only the
    data the view touches.
- **The view manager** (`ViewManager`): the prop conversion from a nullable array of
  nullable strings, the prop setter, the registered name, and the direct-event table.
- **The React wrapper** (`ReactWrapper`).
  - It has two routing decisions. On Android it filters each broadcast by the wrapper's node
    handle and keeps only the two payload fields. On iOS it forwards the direct event.
  - It has a listener registry (`DeviceEventEmitter`) and a class for one wrapper instance.
    That class has the effect, its cleanup, and a re-render that re-runs the effect when
    `onSelection` changes.
  - `Deliveries` is the model of one broadcast to every registered listener.
- **`EndToEnd`** connects the layers. A click on host `h` reaches exactly the wrapper whose
  handle is `h`. `HelloWorldShare` computes the "Hello world" / "share" click, and
  `NativeHelloWorld` and `WrapperHelloWorld` run that scenario through the native objects and
  through the JavaScript listener registry.

## Model

| member | source | states |
|---|---|---|
| TextSelectionHost.SelectableTextView.constructor | android/src/main/java/com/selectabletext/SelectableTextView.kt:16-17 | a new view has no options and no bound TextView |
| TextSelectionHost.SelectableTextView.SetMenuOptions | android/src/main/java/com/selectabletext/SelectableTextView.kt:27-30 | the option list is replaced wholesale by the argument; then the children are rescanned: the first TextView child is bound and armed, or the old binding is kept when there is none; child text and selections are untouched |
| TextSelectionHost.SelectableTextView.SetupTextView | android/src/main/java/com/selectabletext/SelectableTextView.kt:32-42 | binds to the child at `FirstTextIndex` and arms it; with no TextView child, nothing changes (the field is not reset to null); only that one child may be modified |
| TextSelectionHost.FirstTextIndex | android/src/main/java/com/selectabletext/SelectableTextView.kt:34-41 | the index the scan stops at is in range and is a TextView |
| TextSelectionHost.FirstTextIndexIsLowest | android/src/main/java/com/selectabletext/SelectableTextView.kt:34-41 | no earlier child is a TextView, so later TextViews are never bound; no index is found only when no child is a TextView |
| TextSelectionHost.SelectableTextView.SetupSelectionCallback | android/src/main/java/com/selectabletext/SelectableTextView.kt:44-46 | the TextView becomes selectable and carries a fresh callback bound to this host and to that TextView; its text and selection are unchanged |
| TextSelectionHost.SelectionCallback.OnCreateActionMode | android/src/main/java/com/selectabletext/SelectableTextView.kt:47-49 | always returns true |
| TextSelectionHost.SelectionCallback.OnPrepareActionMode | android/src/main/java/com/selectabletext/SelectableTextView.kt:51-57 | returns true; a non-null menu then holds exactly `MenuEntries(host.menuOptions)`, with nothing left from before; a null menu is untouched |
| TextSelectionHost.MenuEntriesAt | android/src/main/java/com/selectabletext/SelectableTextView.kt:51-57 | the prepared menu has one entry per option, in order; entry `i` has id `i` and title `options[i]` |
| TextSelectionHost.MenuEntries | android/src/main/java/com/selectabletext/SelectableTextView.kt:52-55 | the menu built from the options has exactly one entry per option |
| TextSelectionHost.SelectionCallback.OnActionItemClicked | android/src/main/java/com/selectabletext/SelectableTextView.kt:59-70 | reads the selection and the current option list at click time; on success it appends exactly the one broadcast `Activate` gives, finishes the mode and returns true; on either exception it emits nothing and leaves the mode open |
| TextSelectionHost.ItemIndex | android/src/main/java/com/selectabletext/SelectableTextView.kt:63 | the clicked item's id, or 0 for a null item |
| TextSelectionHost.Activate | android/src/main/java/com/selectabletext/SelectableTextView.kt:60-63 | a click throws from `substring` exactly when the bounds are bad; a success carries the view's tag, one of the configured options, and text as long as the selection |
| TextSelectionHost.ActivateSucceedsIff | android/src/main/java/com/selectabletext/SelectableTextView.kt:60-63 | a click succeeds exactly when `0 <= start <= end <= |text|` and the resolved id indexes the option list |
| TextSelectionHost.ActivatePayload | android/src/main/java/com/selectabletext/SelectableTextView.kt:60-63 | a successful click reports the view's tag and `options[id]`, which is one of the configured options; the highlighted text has length `end - start` and the text splits around it at the selection bounds |
| TextSelectionHost.ActivateFailures | android/src/main/java/com/selectabletext/SelectableTextView.kt:62-63 | bad bounds throw from `substring` whatever the item; in-range bounds with an id outside the list throw an index error, including a null item on an empty list; there is no fallback |
| TextSelectionHost.ZeroWidthSelectionIsReported | android/src/main/java/com/selectabletext/SelectableTextView.kt:62-63 | a zero-width selection is reported with empty text, not suppressed |
| TextSelectionHost.PreparedEntryResolvesToItsTitle | android/src/main/java/com/selectabletext/SelectableTextView.kt:51-63 | clicking entry `k` of the prepared menu reports that entry's title, if the options have not changed |
| TextSelectionHost.SelectionCallback.OnDestroyActionMode | android/src/main/java/com/selectabletext/SelectableTextView.kt:72-74 | changes no state |
| TextSelectionHost.SelectableTextView.OnSelectionEvent | android/src/main/java/com/selectabletext/SelectableTextView.kt:78-89 | appends exactly one emission `{viewTag: id, chosenOption, highlightedText}` on `"SelectableTextSelection"` to the log |
| TextSelectionHost.SelectableTextView.OnLayout | android/src/main/java/com/selectabletext/SelectableTextView.kt:91-96 | rescans only when `changed` holds and nothing is bound; otherwise nothing changes, so a bound view is never rebound by layout |
| ViewManager.GetName | android/src/main/java/com/selectabletext/SelectableTextViewManager.kt:26-28 | the manager is registered as `"SelectableTextView"` |
| ViewManager.ExportedCustomDirectEventTypeConstants | android/src/main/java/com/selectabletext/SelectableTextViewManager.kt:44-48 | the only direct event is `topSelection`, and its registration name is `onSelection` |
| ViewManager.ConvertMenuOptions | android/src/main/java/com/selectabletext/SelectableTextViewManager.kt:37-39 | same length; each entry is the source string at the same index, or `""` where that element is null |
| ViewManager.ConvertRoundTrip | android/src/main/java/com/selectabletext/SelectableTextViewManager.kt:37-39 | an array without nulls converts back to the same strings, in order |
| ViewManager.ConvertEmptyOnlyFromNullOrEmpty | android/src/main/java/com/selectabletext/SelectableTextViewManager.kt:37-39 | an entry is `""` exactly when the source element was null or was itself `""` |
| ViewManager.SetMenuOptions | android/src/main/java/com/selectabletext/SelectableTextViewManager.kt:35-42 | a null array leaves the view unchanged; otherwise the view is configured exactly once with the converted array and rebinds per its scan |
| ReactWrapper.ShouldSubscribe | src/SelectableTextView.tsx:25 | the effect subscribes exactly on Android and only with a callback |
| ReactWrapper.FilterBroadcast | src/SelectableTextView.tsx:33-39 | forwards exactly when the wrapper's handle equals the broadcast `viewTag` (a null handle never matches); the forwarded event carries the broadcast's two fields |
| ReactWrapper.FilterUndoesTagging | src/SelectableTextView.tsx:33-39 | filtering gives back the tagged event for the wrapper whose handle is the tag, and drops it for every other wrapper |
| ReactWrapper.BroadcastOutcome | src/SelectableTextView.tsx:25-41 | a broadcast reaches a wrapper's callback exactly on Android, with a callback, and with a matching handle; it then carries the filtered event |
| ReactWrapper.HandleSelection | src/SelectableTextView.tsx:49-57 | forwards the native event unchanged, exactly on iOS with a callback |
| ReactWrapper.RenderNative | src/SelectableTextView.tsx:59-68 | style, menu options and children pass through unchanged; the native `onSelection` prop is set exactly on iOS |
| ReactWrapper.DirectDelivery | src/SelectableTextView.tsx:49-64 | a direct event reaches the callback exactly on iOS with a callback, unchanged; Android never delivers through it |
| ReactWrapper.AtMostOnePath | src/SelectableTextView.tsx:24-64 | on no platform can both the broadcast path and the direct path reach the callback |
| ReactWrapper.ListenerDeliveries | src/SelectableTextView.tsx:28-40 | one listener calls its callback at most once: exactly when it is on the broadcast's channel and its wrapper's handle, read at that moment, equals the tag; the call carries only the two payload fields |
| ReactWrapper.Hearing | src/SelectableTextView.tsx:26-41 | the listeners that pass a broadcast on are registered listeners that hear it, and every registered listener that hears it is among them |
| ReactWrapper.Deliveries | src/SelectableTextView.tsx:26-41 | a broadcast makes one call per listener that hears it, in registration order, with that listener's wrapper and callback and the two payload fields, and no other call |
| ReactWrapper.DeliveriesExactlyToHearing | src/SelectableTextView.tsx:26-41 | every listener on the channel whose wrapper's handle equals the tag is called; every call comes from such a listener; there are no more calls than listeners |
| ReactWrapper.DeliveredToOwn | src/SelectableTextView.tsx:26-41 | the calls made for a wrapper are exactly those of the broadcast restricted to its own subscriptions |
| ReactWrapper.OwnedByWithoutKey | src/SelectableTextView.tsx:43 | removing one subscription commutes with taking one wrapper's subscriptions |
| ReactWrapper.DeviceEventEmitter.AddListener | src/SelectableTextView.tsx:26-41 | appends one subscription with a fresh key, the channel, the wrapper and its callback |
| ReactWrapper.DeviceEventEmitter.Remove | src/SelectableTextView.tsx:43 | keys stay distinct; removing a registered key drops exactly that one registration and keeps the rest in order; an absent key changes nothing |
| ReactWrapper.RemoveDropsOne | src/SelectableTextView.tsx:43 | with distinct keys, removing the key of registration `i` leaves the registry without position `i` and otherwise as it was |
| ReactWrapper.WithoutKeyDistinct | src/SelectableTextView.tsx:43 | removal keeps keys distinct |
| ReactWrapper.RemovingOthersKeyKeepsOwn | src/SelectableTextView.tsx:43 | removing another wrapper's registration leaves a wrapper's own registrations as they were |
| ReactWrapper.CleanupKeepsOthers | src/SelectableTextView.tsx:43 | removing the key of a wrapper's only registration leaves every other wrapper's registrations as they were |
| ReactWrapper.SelectableTextView.RunEffect | src/SelectableTextView.tsx:24-46 | on Android with a callback, registers exactly one subscription on `"SelectableTextSelection"` and records it for cleanup; otherwise the registry is untouched; every other wrapper's registrations are as before |
| ReactWrapper.SelectableTextView.RunCleanup | src/SelectableTextView.tsx:43-45 | removes the wrapper's subscription, or does nothing when there is none; afterwards the wrapper owns no subscription, and every other wrapper's registrations are as before |
| ReactWrapper.SelectableTextView.Rerender | src/SelectableTextView.tsx:24-46 | the same `onSelection` leaves the registry alone; a new one removes the wrapper's old subscription, keeps every other subscription in order, and appends one for the new callback exactly on Android with a callback; every other wrapper's registrations are as before |
| ReactWrapper.ActiveWrapperReceives | src/SelectableTextView.tsx:24-46 | once its effect has run, a wrapper receives from a broadcast exactly what `BroadcastOutcome` gives for it, at most once |
| ReactWrapper.TornDownWrapperReceivesNothing | src/SelectableTextView.tsx:43 | after cleanup, no broadcast reaches the wrapper's callback, whatever its tag |
| EndToEnd.ManagerMatchesComponent | android/src/main/java/com/selectabletext/SelectableTextViewManager.kt:44-51 | the manager's name and direct-event registration name are the ones the JavaScript side uses |
| EndToEnd.ClickReachesOnlyItsOwnWrapper | android/src/main/java/com/selectabletext/SelectableTextView.kt:78-88 | a successful click on host `h` is forwarded by a wrapper exactly when its handle is `h`, as the chosen option and the selected slice |
| EndToEnd.HelloWorldShare | android/src/main/java/com/selectabletext/SelectableTextView.kt:60-66 | `"Hello world"`, range `[6, 11)`, entry 2 of `["look up", "copy", "share"]` reports `("share", "world")` |
| EndToEnd.WrapperHelloWorld | src/SelectableTextView.tsx:24-46 | an Android wrapper with handle 42 receives the "share" / "world" broadcast exactly once while its effect is active, and nothing after its cleanup |
| EndToEnd.SecondWrapperSurvivesRerender | src/SelectableTextView.tsx:24-46 | with two Android wrappers, re-rendering the first with a new callback leaves the second subscribed, and a broadcast tagged with the second's handle still reaches its callback once |
| EndToEnd.NativeHelloWorld | android/src/main/java/com/selectabletext/SelectableTextView.kt:27-69 | the same scenario run through the view, the manager, the menu and the click emits exactly that one broadcast |

## Left out

- Framework calls are data or no-ops: `setTextIsSelectable` is a flag, `mode.finish()` a flag, and `Menu.add`/`clear` a list of entries. `super.onLayout` is not part of this model, nor are the layout coordinates, which only it uses.
- The React Native bridge (`ReactContext`, `Arguments.createMap`, `getJSModule(...).emit`) becomes an append to `NativeEventLog.sent`. `MapBuilder` becomes a Dafny map.
- The constructors and the `ViewManagerDelegate` setup are framework plumbing. The Dafny constructors only set the initial field values.
- `findNodeHandle(viewRef.current)` is the field `nodeHandle`, which the environment may update. `useRef`, effect scheduling and `console.log` are not modelled. The effect, its cleanup and re-renders are methods that the caller invokes in React's order.
- React Native's own dispatch loop is not modelled. `Deliveries` states what one broadcast does to the registered listeners.
- The compiled copy `lib/module/SelectableTextView.js`, the type declarations, the iOS view (only its header is available) and the example app are not part of this model.
- Behaviours the code does not have, where a reader might expect them:
  - An unknown item id throws an index error. There is no fallback to option 0 and no silent suppression. Only a null item defaults to index 0.
  - A broadcast missing fields is not discarded by a check; the listener's parameter type is trusted. The payload type here always has all three fields.
  - A selection whose start lies after its end throws from `substring`, like any other bad bounds.
- Activate: each `char` of the text stands for one UTF-16 code unit, although a Dafny `char` is a Unicode scalar value. Kotlin's `selectionStart`, `selectionEnd`, `length` and `substring` count code units, so `TextWidget.text`, `ValidRange` and `Activate` match the source only when every character of the text is a single code unit. A character outside the Basic Multilingual Plane (an emoji) is one `char` here but two code units in Kotlin. Offsets after it are shifted, and a selection that splits its surrogate pair cannot be represented.
- A stale click is not modelled as a race. The option list is read when the click arrives, so options changed after the menu was prepared can resolve an entry's id to a different option. `PreparedEntryResolvesToItsTitle` assumes the list is unchanged.
