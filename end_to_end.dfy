/** How the native view and the React wrapper fit together. */
module EndToEnd {
  import opened Wrappers
  import opened SelectionEvents
  import opened TextSelectionHost
  import ViewManager
  import ReactWrapper

  /** The manager registers the name the component looks up, and routes `topSelection` to its prop. */
  lemma ManagerMatchesComponent()
    ensures ViewManager.GetName() == ReactWrapper.NATIVE_COMPONENT_NAME
    ensures ViewManager.ExportedCustomDirectEventTypeConstants()["topSelection"]["registrationName"]
         == ReactWrapper.DIRECT_EVENT_PROP
  {
  }

  /**
   * A successful click on host `hostId` reaches a listening wrapper exactly when the
   * wrapper's handle is `hostId`, and then as the chosen option and the selected slice.
   */
  lemma ClickReachesOnlyItsOwnWrapper(text: string, selectionStart: int, selectionEnd: int, options: seq<string>,
                                      index: int, hostId: int, ownHandle: Option<int>)
    requires Activate(text, selectionStart, selectionEnd, options, index, hostId).Success?
    ensures ReactWrapper.FilterBroadcast(ownHandle, Activate(text, selectionStart, selectionEnd, options, index, hostId).value)
         == if ownHandle == Some(hostId)
            then Some(SelectionEvent(options[index], text[selectionStart..selectionEnd]))
            else None
  {
  }

  /** "Hello world", range [6, 11), third of three options: the wrapper gets ("share", "world"). */
  lemma HelloWorldShare(hostId: int)
    ensures Activate("Hello world", 6, 11, ["look up", "copy", "share"], 2, hostId)
         == Success(SelectionPayload(hostId, "share", "world"))
  {
    assert "Hello world"[6..11] == "world";
  }

  /** The scenario on the native side: bind, configure, prepare the menu, click the third entry. */
  method NativeHelloWorld() returns (sent: seq<Emission>)
    ensures sent == [Emission(CHANNEL, SelectionPayload(42, "share", "world"))]
  {
    var tv := new TextWidget("Hello world", 6, 11);
    var log := new NativeEventLog();
    var host := new SelectableTextView(42, [OtherChild, TextChild(tv)], log);
    assert [OtherChild, TextChild(tv)][1..] == [TextChild(tv)];
    assert FirstTextIndex(host.children) == Some(1);
    ViewManager.SetMenuOptions(host, Some(ViewManager.FromStrings(["look up", "copy", "share"])));
    ViewManager.ConvertRoundTrip(["look up", "copy", "share"]);
    assert host.textView == tv && host.menuOptions == ["look up", "copy", "share"];
    assert tv.text == "Hello world" && tv.selectionStart == 6 && tv.selectionEnd == 11;
    assert log.sent == [];

    var callback := tv.customSelectionActionModeCallback;
    var menu := new Menu([MenuItem(1, 99, 0, "Copy")]);
    var prepared := callback.OnPrepareActionMode(null, menu);
    MenuEntriesAt(host.menuOptions);
    var item := menu.items[2];
    assert item == MenuItem(0, 2, 0, "share");

    var mode := new ActionMode();
    HelloWorldShare(42);
    var outcome := callback.OnActionItemClicked(mode, Some(item));
    assert outcome == Returned(true) && mode.finished;
    sent := log.sent;
  }

  /** The callbacks a broadcast's deliveries invoke, with their arguments, in order. */
  function Calls(ds: seq<ReactWrapper.Delivery>): (calls: seq<(ReactWrapper.CallbackId, SelectionEvent)>)
    ensures |calls| == |ds|
  {
    seq(|ds|, i requires 0 <= i < |ds| => (ds[i].callback, ds[i].event))
  }

  /**
   * The scenario on the JavaScript side: the Android wrapper with handle 42 and callback 7
   * receives the broadcast once while mounted, and nothing after its cleanup.
   */
  method WrapperHelloWorld() returns (whileMounted: seq<(ReactWrapper.CallbackId, SelectionEvent)>,
                                      afterCleanup: seq<(ReactWrapper.CallbackId, SelectionEvent)>)
    ensures whileMounted == [(7, SelectionEvent("share", "world"))]
    ensures afterCleanup == []
  {
    var payload := SelectionPayload(42, "share", "world");
    var emitter := new ReactWrapper.DeviceEventEmitter();
    var wrapper := new ReactWrapper.SelectableTextView(ReactWrapper.Android, Some(7), Some(42));
    wrapper.RunEffect(emitter);
    whileMounted := Received(wrapper, emitter, payload);
    wrapper.RunCleanup(emitter);
    afterCleanup := Received(wrapper, emitter, payload);
  }

  /** The calls a broadcast of `payload` makes to `wrapper`'s callback, as its filter decides. */
  method Received(wrapper: ReactWrapper.SelectableTextView, emitter: ReactWrapper.DeviceEventEmitter,
                  payload: SelectionPayload) returns (calls: seq<(ReactWrapper.CallbackId, SelectionEvent)>)
    requires wrapper.Subscribed(emitter)
    requires wrapper.cleanupKey.None? || wrapper.Active(emitter)
    ensures wrapper.cleanupKey.None? ==> calls == []
    ensures wrapper.cleanupKey.Some? ==>
      calls == match ReactWrapper.BroadcastOutcome(wrapper.platform, wrapper.onSelection, wrapper.nodeHandle, payload)
               case Some(call) => [call]
               case None => []
  {
    var delivered := ReactWrapper.DeliveredTo(ReactWrapper.Deliveries(emitter.subscriptions, CHANNEL, payload), wrapper);
    if wrapper.cleanupKey.None? {
      ReactWrapper.TornDownWrapperReceivesNothing(wrapper, emitter, CHANNEL, payload);
    } else {
      ReactWrapper.ActiveWrapperReceives(wrapper, emitter, payload);
    }
    calls := Calls(delivered);
  }

  /**
   * Two Android wrappers, handles 42 and 43: re-rendering the first with a new callback
   * leaves the second subscribed, so a broadcast tagged 43 still reaches it.
   */
  method SecondWrapperSurvivesRerender() returns (received: seq<(ReactWrapper.CallbackId, SelectionEvent)>)
    ensures received == [(8, SelectionEvent("copy", "Hello"))]
  {
    var emitter := new ReactWrapper.DeviceEventEmitter();
    var first := new ReactWrapper.SelectableTextView(ReactWrapper.Android, Some(7), Some(42));
    var second := new ReactWrapper.SelectableTextView(ReactWrapper.Android, Some(8), Some(43));
    assert ReactWrapper.OwnedBy(emitter.subscriptions, second) == [];
    first.RunEffect(emitter);
    ghost var firstOwns := ReactWrapper.OwnedBy(emitter.subscriptions, first);
    second.RunEffect(emitter);
    assert ReactWrapper.OwnedBy(emitter.subscriptions, first) == firstOwns;
    ghost var secondOwns := ReactWrapper.OwnedBy(emitter.subscriptions, second);
    first.Rerender(Some(9), emitter);
    assert ReactWrapper.OwnedBy(emitter.subscriptions, second) == secondOwns;
    received := Received(second, emitter, SelectionPayload(43, "copy", "Hello"));
  }
}
