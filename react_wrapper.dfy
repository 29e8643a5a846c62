/**
 * The React component around the native view. On Android it listens to the broadcast
 * channel and keeps only events tagged with its own node handle; on iOS it receives
 * the native view's direct event and forwards it.
 */
module ReactWrapper {
  import opened Wrappers
  import opened SelectionEvents

  /** The name `codegenNativeComponent` looks the native view up by (SelectableTextViewNativeComponent.ts). */
  const NATIVE_COMPONENT_NAME := "SelectableTextView"

  /** The native component's direct-event prop (SelectableTextViewNativeComponent.ts). */
  const DIRECT_EVENT_PROP := "onSelection"

  /** `Platform.OS`, reduced to the two values the component tests for. */
  datatype Platform = Android | Ios | OtherPlatform

  /** The identity of an `onSelection` function value, as React compares dependencies. */
  type CallbackId = nat

  /** The effect subscribes exactly on Android with a callback. */
  predicate ShouldSubscribe(platform: Platform, onSelection: Option<CallbackId>): (subscribes: bool)
    ensures subscribes <==> platform == Android && onSelection.Some?
  {
    platform == Android && onSelection.Some?
  }

  /** The broadcast listener's body: forward `{chosenOption, highlightedText}` iff the tags match. */
  function FilterBroadcast(ownHandle: Option<int>, eventData: SelectionPayload): (forwarded: Option<SelectionEvent>)
    ensures forwarded.Some? <==> ownHandle == Some(eventData.viewTag)
    ensures forwarded.Some? ==>
      forwarded.value.chosenOption == eventData.chosenOption && forwarded.value.highlightedText == eventData.highlightedText
  {
    if ownHandle == Some(eventData.viewTag)
    then Some(SelectionEvent(eventData.chosenOption, eventData.highlightedText))
    else None
  }

  /** The broadcast a view with tag `viewTag` sends for `event`. */
  function Tagged(viewTag: int, event: SelectionEvent): SelectionPayload
  {
    SelectionPayload(viewTag, event.chosenOption, event.highlightedText)
  }

  /** Filtering undoes tagging for the wrapper whose handle is the tag, and drops it for any other. */
  lemma FilterUndoesTagging(ownHandle: Option<int>, viewTag: int, event: SelectionEvent)
    ensures FilterBroadcast(ownHandle, Tagged(viewTag, event)) == if ownHandle == Some(viewTag) then Some(event) else None
  {
  }

  /** What one wrapper does with one broadcast: which callback it calls, with what. */
  function BroadcastOutcome(platform: Platform, onSelection: Option<CallbackId>, ownHandle: Option<int>,
                            eventData: SelectionPayload): (call: Option<(CallbackId, SelectionEvent)>)
    ensures call.Some? <==> ShouldSubscribe(platform, onSelection) && ownHandle == Some(eventData.viewTag)
    ensures call.Some? ==> call.value.0 == onSelection.value && Some(call.value.1) == FilterBroadcast(ownHandle, eventData)
  {
    if !ShouldSubscribe(platform, onSelection) then None
    else match FilterBroadcast(ownHandle, eventData)
      case Some(e) => Some((onSelection.value, e))
      case None => None
  }

  /** `handleSelection`: forward the native event unchanged, only on iOS with a callback. */
  function HandleSelection(platform: Platform, onSelection: Option<CallbackId>, nativeEvent: SelectionEvent)
    : (call: Option<(CallbackId, SelectionEvent)>)
    ensures call.Some? <==> platform == Ios && onSelection.Some?
    ensures call.Some? ==> call.value == (onSelection.value, nativeEvent)
  {
    if platform == Ios && onSelection.Some? then Some((onSelection.value, nativeEvent)) else None
  }

  /** The wrapper's props; `Style` and `Child` are opaque to the component. */
  datatype WrapperProps<Style, Child> =
    WrapperProps(children: Child, menuOptions: seq<string>, onSelection: Option<CallbackId>, style: Option<Style>)

  /** The native component's props; `directHandler` says whether `onSelection` is set. */
  datatype NativeProps<Style, Child> =
    NativeProps(style: Option<Style>, menuOptions: seq<string>, directHandler: bool, children: Child)

  /** The rendered native element: everything passed through, the direct handler only on iOS. */
  function RenderNative<Style, Child>(props: WrapperProps<Style, Child>, platform: Platform)
    : (native: NativeProps<Style, Child>)
    ensures native.style == props.style && native.menuOptions == props.menuOptions
    ensures native.children == props.children
    ensures native.directHandler <==> platform == Ios
  {
    NativeProps(props.style, props.menuOptions, platform == Ios, props.children)
  }

  /** A direct event from the native view reaches the callback only through the attached handler. */
  function DirectDelivery<Style, Child>(props: WrapperProps<Style, Child>, platform: Platform,
                                        nativeEvent: SelectionEvent): (call: Option<(CallbackId, SelectionEvent)>)
    ensures call.Some? <==> platform == Ios && props.onSelection.Some?
    ensures call.Some? ==> call.value == (props.onSelection.value, nativeEvent)
  {
    if RenderNative(props, platform).directHandler then HandleSelection(platform, props.onSelection, nativeEvent)
    else None
  }

  /** On every platform at most one of the two paths can reach the callback. */
  lemma AtMostOnePath<Style, Child>(props: WrapperProps<Style, Child>, platform: Platform, ownHandle: Option<int>,
                                    eventData: SelectionPayload, nativeEvent: SelectionEvent)
    ensures !(BroadcastOutcome(platform, props.onSelection, ownHandle, eventData).Some?
              && DirectDelivery(props, platform, nativeEvent).Some?)
  {
  }

  /** One `addListener` registration: its key, event name, owning wrapper and captured callback. */
  datatype Subscription = Subscription(key: nat, eventType: string, owner: SelectableTextView, callback: CallbackId)

  /** One listener invocation: which wrapper's listener called which callback with what. */
  datatype Delivery = Delivery(owner: SelectableTextView, callback: CallbackId, event: SelectionEvent)

  /** The subscriptions registered by `w`, in order. */
  function OwnedBy(subs: seq<Subscription>, w: SelectableTextView): seq<Subscription>
  {
    if subs == [] then []
    else OwnedBy(subs[..|subs| - 1], w) + (if subs[|subs| - 1].owner == w then [subs[|subs| - 1]] else [])
  }

  /** The subscriptions left after `remove()` on the one with `key`. */
  function WithoutKey(subs: seq<Subscription>, key: nat): seq<Subscription>
  {
    if subs == [] then []
    else WithoutKey(subs[..|subs| - 1], key) + (if subs[|subs| - 1].key != key then [subs[|subs| - 1]] else [])
  }

  /** The deliveries made to `w`, in order. */
  function DeliveredTo(ds: seq<Delivery>, w: SelectableTextView): seq<Delivery>
  {
    if ds == [] then []
    else DeliveredTo(ds[..|ds| - 1], w) + (if ds[|ds| - 1].owner == w then [ds[|ds| - 1]] else [])
  }

  /** Listener `s` passes a broadcast on: it listens to `eventType` and its wrapper's handle, read now, is the tag. */
  predicate Hears(s: Subscription, eventType: string, viewTag: int)
    reads s.owner
  {
    s.eventType == eventType && s.owner.nodeHandle == Some(viewTag)
  }

  /** The listeners that pass a broadcast tagged `viewTag` on, in registration order. */
  function Hearing(subs: seq<Subscription>, eventType: string, viewTag: int): (hs: seq<Subscription>)
    reads set i | 0 <= i < |subs| :: subs[i].owner
    ensures |hs| <= |subs|
    ensures forall k :: 0 <= k < |hs| ==> hs[k] in subs && Hears(hs[k], eventType, viewTag)
    ensures forall j :: 0 <= j < |subs| && Hears(subs[j], eventType, viewTag) ==> subs[j] in hs
  {
    if subs == [] then []
    else
      var prefix := subs[..|subs| - 1];
      var s := subs[|subs| - 1];
      assert forall j :: 0 <= j < |prefix| ==> prefix[j] == subs[j];
      Hearing(prefix, eventType, viewTag) + (if Hears(s, eventType, viewTag) then [s] else [])
  }

  /**
   * Broadcasting `eventData` on `eventType`: every listener on that name runs, in
   * registration order, resolving its wrapper's node handle at that moment.
   */
  function Deliveries(subs: seq<Subscription>, eventType: string, eventData: SelectionPayload): (ds: seq<Delivery>)
    reads set i | 0 <= i < |subs| :: subs[i].owner
    ensures |ds| == |Hearing(subs, eventType, eventData.viewTag)|
    ensures forall k :: 0 <= k < |ds| ==>
      ds[k] == Delivery(Hearing(subs, eventType, eventData.viewTag)[k].owner,
                        Hearing(subs, eventType, eventData.viewTag)[k].callback,
                        SelectionEvent(eventData.chosenOption, eventData.highlightedText))
  {
    if subs == [] then []
    else
      var prefix := subs[..|subs| - 1];
      var s := subs[|subs| - 1];
      var earlier := Deliveries(prefix, eventType, eventData);
      assert forall j :: 0 <= j < |prefix| ==> prefix[j] == subs[j];
      earlier + ListenerDeliveries(s, eventType, eventData)
  }

  /**
   * Every listener that hears the broadcast calls its callback once, and every call comes
   * from such a listener, with the two payload fields.
   */
  lemma DeliveriesExactlyToHearing(subs: seq<Subscription>, eventType: string, eventData: SelectionPayload)
    ensures var ds := Deliveries(subs, eventType, eventData);
      && |ds| <= |subs|
      && (forall j :: 0 <= j < |subs| && Hears(subs[j], eventType, eventData.viewTag) ==>
            Delivery(subs[j].owner, subs[j].callback, SelectionEvent(eventData.chosenOption, eventData.highlightedText)) in ds)
      && (forall k :: 0 <= k < |ds| ==>
            exists j :: 0 <= j < |subs| && Hears(subs[j], eventType, eventData.viewTag)
              && ds[k] == Delivery(subs[j].owner, subs[j].callback,
                                   SelectionEvent(eventData.chosenOption, eventData.highlightedText)))
  {
    var ds := Deliveries(subs, eventType, eventData);
    var hs := Hearing(subs, eventType, eventData.viewTag);
    forall j | 0 <= j < |subs| && Hears(subs[j], eventType, eventData.viewTag)
      ensures Delivery(subs[j].owner, subs[j].callback, SelectionEvent(eventData.chosenOption, eventData.highlightedText)) in ds
    {
      var k :| 0 <= k < |hs| && hs[k] == subs[j];
      assert ds[k] == Delivery(subs[j].owner, subs[j].callback, SelectionEvent(eventData.chosenOption, eventData.highlightedText));
    }
    forall k | 0 <= k < |ds|
      ensures exists j :: 0 <= j < |subs| && Hears(subs[j], eventType, eventData.viewTag)
                         && ds[k] == Delivery(subs[j].owner, subs[j].callback,
                                              SelectionEvent(eventData.chosenOption, eventData.highlightedText))
    {
      assert hs[k] in subs;
      var j :| 0 <= j < |subs| && subs[j] == hs[k];
    }
  }

  /** What one listener does with one broadcast: one call exactly when it hears it, with the two payload fields. */
  function ListenerDeliveries(s: Subscription, eventType: string, eventData: SelectionPayload): (ds: seq<Delivery>)
    reads s.owner
    ensures |ds| <= 1
    ensures ds != [] <==> Hears(s, eventType, eventData.viewTag)
    ensures ds != [] ==> ds[0] == Delivery(s.owner, s.callback, SelectionEvent(eventData.chosenOption, eventData.highlightedText))
  {
    if s.eventType != eventType then []
    else match FilterBroadcast(s.owner.nodeHandle, eventData)
      case Some(e) => [Delivery(s.owner, s.callback, e)]
      case None => []
  }

  lemma OwnedByAppend(subs: seq<Subscription>, s: Subscription, w: SelectableTextView)
    ensures OwnedBy(subs + [s], w) == OwnedBy(subs, w) + (if s.owner == w then [s] else [])
  {
    assert (subs + [s])[..|subs|] == subs;
  }

  lemma DeliveredToAppend(ds: seq<Delivery>, d: Delivery, w: SelectableTextView)
    ensures DeliveredTo(ds + [d], w) == DeliveredTo(ds, w) + (if d.owner == w then [d] else [])
  {
    assert (ds + [d])[..|ds|] == ds;
  }

  lemma WithoutKeyAppend(subs: seq<Subscription>, s: Subscription, key: nat)
    ensures WithoutKey(subs + [s], key) == WithoutKey(subs, key) + (if s.key != key then [s] else [])
  {
    assert (subs + [s])[..|subs|] == subs;
  }

  /** Broadcasting to one more listener adds at most that listener's delivery, at the end. */
  lemma DeliveriesAppend(subs: seq<Subscription>, s: Subscription, eventType: string, eventData: SelectionPayload)
    ensures Deliveries(subs + [s], eventType, eventData) ==
      Deliveries(subs, eventType, eventData) + ListenerDeliveries(s, eventType, eventData)
  {
    assert (subs + [s])[..|subs|] == subs;
  }

  /** Removing a key and keeping one wrapper's subscriptions commute. */
  lemma {:induction false} OwnedByWithoutKey(subs: seq<Subscription>, key: nat, w: SelectableTextView)
    ensures OwnedBy(WithoutKey(subs, key), w) == WithoutKey(OwnedBy(subs, w), key)
  {
    if subs != [] {
      var prefix, s := subs[..|subs| - 1], subs[|subs| - 1];
      assert subs == prefix + [s];
      OwnedByWithoutKey(prefix, key, w);
      WithoutKeyAppend(prefix, s, key);
      OwnedByAppend(prefix, s, w);
      if s.key != key {
        OwnedByAppend(WithoutKey(prefix, key), s, w);
      } else {
        assert WithoutKey(subs, key) == WithoutKey(prefix, key);
      }
      if s.owner == w {
        WithoutKeyAppend(OwnedBy(prefix, w), s, key);
      } else {
        assert OwnedBy(subs, w) == OwnedBy(prefix, w);
      }
    }
  }

  /** A listener's delivery, if any, goes to that listener's wrapper. */
  lemma DeliveredToListener(earlier: seq<Delivery>, s: Subscription, eventType: string, eventData: SelectionPayload,
                            w: SelectableTextView)
    ensures DeliveredTo(earlier + ListenerDeliveries(s, eventType, eventData), w) ==
      DeliveredTo(earlier, w) + (if s.owner == w then ListenerDeliveries(s, eventType, eventData) else [])
  {
    var own := ListenerDeliveries(s, eventType, eventData);
    if own != [] {
      DeliveredToAppend(earlier, own[0], w);
      assert own == [own[0]];
    } else {
      assert earlier + own == earlier;
    }
  }

  /** The deliveries a wrapper receives are those of its own subscriptions. */
  lemma {:induction false} DeliveredToOwn(subs: seq<Subscription>, eventType: string, eventData: SelectionPayload,
                                          w: SelectableTextView)
    ensures DeliveredTo(Deliveries(subs, eventType, eventData), w) == Deliveries(OwnedBy(subs, w), eventType, eventData)
  {
    if subs != [] {
      var prefix, s := subs[..|subs| - 1], subs[|subs| - 1];
      assert subs == prefix + [s];
      DeliveredToOwn(prefix, eventType, eventData, w);
      DeliveriesAppend(prefix, s, eventType, eventData);
      DeliveredToListener(Deliveries(prefix, eventType, eventData), s, eventType, eventData, w);
      OwnedByAppend(prefix, s, w);
      if s.owner == w {
        DeliveriesAppend(OwnedBy(prefix, w), s, eventType, eventData);
      } else {
        assert OwnedBy(subs, w) == OwnedBy(prefix, w);
      }
    }
  }

  /** The global `DeviceEventEmitter`: an ordered registry of listeners with fresh keys. */
  class DeviceEventEmitter {
    var subscriptions: seq<Subscription>
    var nextKey: nat

    /** Every key is below the next one handed out, and no two subscriptions share a key. */
    ghost predicate Valid()
      reads this
    {
      && (forall i :: 0 <= i < |subscriptions| ==> subscriptions[i].key < nextKey)
      && DistinctKeys(subscriptions)
    }

    constructor ()
      ensures Valid() && subscriptions == []
    {
      subscriptions := [];
      nextKey := 0;
    }

    method AddListener(eventType: string, owner: SelectableTextView, callback: CallbackId) returns (key: nat)
      requires Valid()
      modifies this
      ensures Valid()
      ensures key == old(nextKey)
      ensures subscriptions == old(subscriptions) + [Subscription(key, eventType, owner, callback)]
    {
      key := nextKey;
      subscriptions := subscriptions + [Subscription(key, eventType, owner, callback)];
      nextKey := nextKey + 1;
    }

    /** `subscription.remove()`: drops the one registration with that key, if it is still there. */
    method Remove(key: nat)
      requires Valid()
      modifies this
      ensures Valid() && nextKey == old(nextKey)
      ensures subscriptions == WithoutKey(old(subscriptions), key)
      ensures forall i :: 0 <= i < |old(subscriptions)| && old(subscriptions)[i].key == key ==>
        subscriptions == old(subscriptions)[..i] + old(subscriptions)[i + 1..]
      ensures (forall i :: 0 <= i < |old(subscriptions)| ==> old(subscriptions)[i].key != key) ==>
        subscriptions == old(subscriptions)
    {
      WithoutKeyKeeps(subscriptions, key);
      WithoutKeyDistinct(subscriptions, key);
      forall i | 0 <= i < |subscriptions| && subscriptions[i].key == key
        ensures WithoutKey(subscriptions, key) == subscriptions[..i] + subscriptions[i + 1..]
      {
        RemoveDropsOne(subscriptions, i);
      }
      if forall i :: 0 <= i < |subscriptions| ==> subscriptions[i].key != key {
        WithoutAbsentKey(subscriptions, key);
      }
      subscriptions := WithoutKey(subscriptions, key);
    }
  }

  /** No two subscriptions share a key. */
  predicate DistinctKeys(subs: seq<Subscription>)
  {
    forall i, j :: 0 <= i < j < |subs| ==> subs[i].key != subs[j].key
  }

  /** Removing a key nobody holds changes nothing. */
  lemma {:induction false} WithoutAbsentKey(subs: seq<Subscription>, key: nat)
    requires forall i :: 0 <= i < |subs| ==> subs[i].key != key
    ensures WithoutKey(subs, key) == subs
  {
    if subs != [] {
      WithoutAbsentKey(subs[..|subs| - 1], key);
      assert subs[..|subs| - 1] + [subs[|subs| - 1]] == subs;
    }
  }

  /** Removal keeps keys distinct. */
  lemma {:induction false} WithoutKeyDistinct(subs: seq<Subscription>, key: nat)
    requires DistinctKeys(subs)
    ensures DistinctKeys(WithoutKey(subs, key))
  {
    if subs != [] {
      var prefix, s := subs[..|subs| - 1], subs[|subs| - 1];
      WithoutKeyDistinct(prefix, key);
      WithoutKeyKeeps(prefix, key);
      var kept := WithoutKey(prefix, key);
      assert forall t :: t in kept ==> t in prefix;
      assert forall i :: 0 <= i < |kept| ==> kept[i].key != s.key by {
        forall i | 0 <= i < |kept|
          ensures kept[i].key != s.key
        {
          assert kept[i] in prefix;
          var j :| 0 <= j < |prefix| && prefix[j] == kept[i];
          assert subs[j] == kept[i];
        }
      }
    }
  }

  /** With distinct keys, removing the key of `subs[i]` drops exactly that registration. */
  lemma {:induction false} RemoveDropsOne(subs: seq<Subscription>, i: nat)
    requires DistinctKeys(subs) && i < |subs|
    ensures WithoutKey(subs, subs[i].key) == subs[..i] + subs[i + 1..]
  {
    var prefix, s := subs[..|subs| - 1], subs[|subs| - 1];
    if i == |subs| - 1 {
      WithoutAbsentKey(prefix, s.key);
      assert subs[i + 1..] == [];
    } else {
      assert prefix[i] == subs[i];
      RemoveDropsOne(prefix, i);
      assert s.key != subs[i].key;
      assert prefix[..i] == subs[..i];
      assert prefix[i + 1..] + [s] == subs[i + 1..];
    }
  }

  /** Removing the key of `me`'s only registration leaves every other wrapper's registrations as they were. */
  lemma CleanupKeepsOthers(subs: seq<Subscription>, key: nat, me: SelectableTextView, w: SelectableTextView)
    requires DistinctKeys(subs) && |OwnedBy(subs, me)| == 1 && OwnedBy(subs, me)[0].key == key
    requires w != me
    ensures OwnedBy(WithoutKey(subs, key), w) == OwnedBy(subs, w)
  {
    OwnedByKeeps(subs, me);
    assert OwnedBy(subs, me)[0] in subs;
    var i :| 0 <= i < |subs| && subs[i] == OwnedBy(subs, me)[0];
    RemovingOthersKeyKeepsOwn(subs, i, w);
  }

  /** Every subscription a wrapper owns is a registered one. */
  lemma {:induction false} OwnedByKeeps(subs: seq<Subscription>, w: SelectableTextView)
    ensures forall t :: t in OwnedBy(subs, w) ==> t in subs && t.owner == w
  {
    if subs != [] {
      OwnedByKeeps(subs[..|subs| - 1], w);
    }
  }

  /** Removing a registration owned by another wrapper leaves `w`'s registrations as they were. */
  lemma RemovingOthersKeyKeepsOwn(subs: seq<Subscription>, i: nat, w: SelectableTextView)
    requires DistinctKeys(subs) && i < |subs| && subs[i].owner != w
    ensures OwnedBy(WithoutKey(subs, subs[i].key), w) == OwnedBy(subs, w)
  {
    var own := OwnedBy(subs, w);
    OwnedByWithoutKey(subs, subs[i].key, w);
    OwnedByKeeps(subs, w);
    forall k | 0 <= k < |own|
      ensures own[k].key != subs[i].key
    {
      assert own[k] in subs;
      var j :| 0 <= j < |subs| && subs[j] == own[k];
      assert j != i;
    }
    WithoutAbsentKey(own, subs[i].key);
  }

  lemma {:induction false} WithoutKeyKeeps(subs: seq<Subscription>, key: nat)
    ensures forall s :: s in WithoutKey(subs, key) ==> s in subs && s.key != key
  {
    if subs != [] {
      WithoutKeyKeeps(subs[..|subs| - 1], key);
    }
  }

  /**
   * One mounted instance of the component. `nodeHandle` is what `findNodeHandle(viewRef.current)`
   * returns; `cleanupKey` is the subscription the current effect's cleanup removes, if any.
   */
  class SelectableTextView {
    const platform: Platform
    var onSelection: Option<CallbackId>
    var nodeHandle: Option<int>
    var cleanupKey: Option<nat>

    /** The registry holds exactly the subscription the pending cleanup will remove, and no other of ours. */
    ghost predicate Subscribed(emitter: DeviceEventEmitter)
      reads this, emitter
    {
      match cleanupKey
      case None => OwnedBy(emitter.subscriptions, this) == []
      case Some(k) =>
        && onSelection.Some?
        && OwnedBy(emitter.subscriptions, this) == [Subscription(k, CHANNEL, this, onSelection.value)]
    }

    /** The effect for the current `onSelection` has run. */
    ghost predicate Active(emitter: DeviceEventEmitter)
      reads this, emitter
    {
      && emitter.Valid()
      && Subscribed(emitter)
      && (cleanupKey.Some? <==> ShouldSubscribe(platform, onSelection))
    }

    constructor (platform: Platform, onSelection: Option<CallbackId>, nodeHandle: Option<int>)
      ensures this.platform == platform && this.onSelection == onSelection && this.nodeHandle == nodeHandle
      ensures cleanupKey == None
    {
      this.platform := platform;
      this.onSelection := onSelection;
      this.nodeHandle := nodeHandle;
      cleanupKey := None;
    }

    /** The effect: on Android with a callback, subscribe; otherwise register nothing. */
    method RunEffect(emitter: DeviceEventEmitter)
      requires emitter.Valid() && cleanupKey == None && Subscribed(emitter)
      modifies this`cleanupKey, emitter
      ensures Active(emitter)
      ensures ShouldSubscribe(platform, onSelection) ==>
        emitter.subscriptions == old(emitter.subscriptions) + [Subscription(cleanupKey.value, CHANNEL, this, onSelection.value)]
      ensures !ShouldSubscribe(platform, onSelection) ==> unchanged(emitter)
      ensures forall w :: w != this ==> OwnedBy(emitter.subscriptions, w) == OwnedBy(old(emitter.subscriptions), w)
    {
      if platform == Android && onSelection.Some? {
        var key := emitter.AddListener(CHANNEL, this, onSelection.value);
        var added := Subscription(key, CHANNEL, this, onSelection.value);
        OwnedByAppend(old(emitter.subscriptions), added, this);
        forall w | w != this
          ensures OwnedBy(emitter.subscriptions, w) == OwnedBy(old(emitter.subscriptions), w)
        {
          OwnedByAppend(old(emitter.subscriptions), added, w);
        }
        cleanupKey := Some(key);
      }
    }

    /** The effect's cleanup: remove the subscription, or do nothing. */
    method RunCleanup(emitter: DeviceEventEmitter)
      requires emitter.Valid() && Subscribed(emitter)
      modifies this`cleanupKey, emitter
      ensures emitter.Valid() && Subscribed(emitter) && cleanupKey == None
      ensures OwnedBy(emitter.subscriptions, this) == []
      ensures old(cleanupKey).Some? ==> emitter.subscriptions == WithoutKey(old(emitter.subscriptions), old(cleanupKey).value)
      ensures old(cleanupKey).None? ==> unchanged(emitter)
      ensures forall w :: w != this ==> OwnedBy(emitter.subscriptions, w) == OwnedBy(old(emitter.subscriptions), w)
    {
      if cleanupKey.Some? {
        var key := cleanupKey.value;
        ghost var before := emitter.subscriptions;
        emitter.Remove(key);
        forall w | w != this
          ensures OwnedBy(emitter.subscriptions, w) == OwnedBy(before, w)
        {
          CleanupKeepsOthers(before, key, this, w);
        }
        OwnedByWithoutKey(old(emitter.subscriptions), key, this);
        assert WithoutKey([Subscription(key, CHANNEL, this, onSelection.value)], key) == [];
        cleanupKey := None;
      }
    }

    /** A re-render: React re-runs the effect only when `onSelection` is a different function. */
    method Rerender(newOnSelection: Option<CallbackId>, emitter: DeviceEventEmitter)
      requires Active(emitter)
      modifies this`onSelection, this`cleanupKey, emitter
      ensures Active(emitter) && onSelection == newOnSelection
      ensures newOnSelection == old(onSelection) ==> unchanged(emitter) && cleanupKey == old(cleanupKey)
      ensures newOnSelection != old(onSelection) ==>
        emitter.subscriptions ==
          (if old(cleanupKey).Some? then WithoutKey(old(emitter.subscriptions), old(cleanupKey).value)
           else old(emitter.subscriptions))
          + (if ShouldSubscribe(platform, newOnSelection)
             then [Subscription(cleanupKey.value, CHANNEL, this, newOnSelection.value)] else [])
      ensures forall w :: w != this ==> OwnedBy(emitter.subscriptions, w) == OwnedBy(old(emitter.subscriptions), w)
    {
      if newOnSelection != onSelection {
        ghost var before, oldKey := emitter.subscriptions, cleanupKey;
        RunCleanup(emitter);
        ghost var afterCleanup := emitter.subscriptions;
        onSelection := newOnSelection;
        RunEffect(emitter);
        forall w | w != this
          ensures OwnedBy(emitter.subscriptions, w) == OwnedBy(before, w)
        {
          if oldKey.Some? {
            CleanupKeepsOthers(before, oldKey.value, this, w);
          }
          if ShouldSubscribe(platform, newOnSelection) {
            OwnedByAppend(afterCleanup, Subscription(cleanupKey.value, CHANNEL, this, newOnSelection.value), w);
          }
        }
      }
    }
  }

  /**
   * What a wrapper whose effect has run receives from one broadcast: exactly the outcome
   * of its own filter, with the handle it holds at that moment.
   */
  lemma ActiveWrapperReceives(w: SelectableTextView, emitter: DeviceEventEmitter, eventData: SelectionPayload)
    requires w.Active(emitter)
    ensures DeliveredTo(Deliveries(emitter.subscriptions, CHANNEL, eventData), w) ==
      match BroadcastOutcome(w.platform, w.onSelection, w.nodeHandle, eventData)
      case Some(call) => [Delivery(w, call.0, call.1)]
      case None => []
  {
    DeliveredToOwn(emitter.subscriptions, CHANNEL, eventData, w);
  }

  /** After its cleanup has run, a wrapper receives nothing, whatever is broadcast. */
  lemma TornDownWrapperReceivesNothing(w: SelectableTextView, emitter: DeviceEventEmitter,
                                       eventType: string, eventData: SelectionPayload)
    requires w.Subscribed(emitter) && w.cleanupKey == None
    ensures DeliveredTo(Deliveries(emitter.subscriptions, eventType, eventData), w) == []
  {
    DeliveredToOwn(emitter.subscriptions, eventType, eventData, w);
  }
}
