/**
 * The Android selection host: a frame layout that binds to its first TextView child,
 * makes it selectable, fills the selection action menu with the configured options
 * and, when an option is picked, broadcasts the option and the selected substring.
 */
module TextSelectionHost {
  import opened Wrappers
  import opened SelectionEvents

  /** The exceptions the click handler can raise; nothing in the view catches them. */
  datatype Exception = StringIndexOutOfBounds | ArrayIndexOutOfBounds

  /** What a platform callback did: returned a Boolean, or threw. */
  datatype CallbackOutcome = Returned(value: bool) | Threw(exception: Exception)

  /** A native menu entry as added by `menu.add(groupId, itemId, order, title)`. */
  datatype MenuItem = MenuItem(groupId: int, itemId: int, order: int, title: string)

  /** The platform's action menu, reduced to its list of entries. */
  class Menu {
    var items: seq<MenuItem>

    constructor (items: seq<MenuItem>)
      ensures this.items == items
    {
      this.items := items;
    }

    method Clear()
      modifies this
      ensures items == []
    {
      items := [];
    }

    method Add(groupId: int, itemId: int, order: int, title: string)
      modifies this
      ensures items == old(items) + [MenuItem(groupId, itemId, order, title)]
    {
      items := items + [MenuItem(groupId, itemId, order, title)];
    }
  }

  /** The platform's action mode, reduced to whether it has been finished. */
  class ActionMode {
    var finished: bool

    constructor ()
      ensures !finished
    {
      finished := false;
    }

    method Finish()
      modifies this
      ensures finished
    {
      finished := true;
    }
  }

  /** The JavaScript device-event emitter as seen from native code: a log of emissions. */
  class NativeEventLog {
    var sent: seq<Emission>

    constructor ()
      ensures sent == []
    {
      sent := [];
    }
  }

  /** A TextView child: its text, its current selection and what the host installs on it. */
  class TextWidget {
    var text: string
    var selectionStart: int
    var selectionEnd: int
    var textIsSelectable: bool
    var customSelectionActionModeCallback: SelectionCallback?

    constructor (text: string, selectionStart: int, selectionEnd: int)
      ensures this.text == text && this.selectionStart == selectionStart && this.selectionEnd == selectionEnd
      ensures !textIsSelectable && customSelectionActionModeCallback == null
    {
      this.text := text;
      this.selectionStart := selectionStart;
      this.selectionEnd := selectionEnd;
      textIsSelectable := false;
      customSelectionActionModeCallback := null;
    }
  }

  /** A child of the host: a TextView, or any other view. */
  datatype ChildView = TextChild(view: TextWidget) | OtherChild

  /** The index of the child the binding scan stops at, if any. */
  function FirstTextIndex(children: seq<ChildView>): (r: Option<nat>)
    ensures r.Some? ==> r.value < |children| && children[r.value].TextChild?
  {
    if children == [] then None
    else if children[0].TextChild? then Some(0)
    else match FirstTextIndex(children[1..])
      case None => None
      case Some(k) => Some(k + 1)
  }

  /** Binding picks the lowest-index TextView child, and finds none only when there is none. */
  lemma {:induction false} FirstTextIndexIsLowest(children: seq<ChildView>)
    ensures match FirstTextIndex(children)
      case Some(k) => forall j :: 0 <= j < k ==> !children[j].TextChild?
      case None => forall j :: 0 <= j < |children| ==> !children[j].TextChild?
  {
    if children != [] && !children[0].TextChild? {
      FirstTextIndexIsLowest(children[1..]);
      assert forall j :: 1 <= j < |children| ==> children[j] == children[1..][j - 1];
    }
  }

  /** The menu `onPrepareActionMode` builds: entry `i` is `add(0, i, 0, options[i])`, in order. */
  function MenuEntries(options: seq<string>): (entries: seq<MenuItem>)
    ensures |entries| == |options|
  {
    if options == [] then []
    else MenuEntries(options[..|options| - 1]) + [MenuItem(0, |options| - 1, 0, options[|options| - 1])]
  }

  /** The prepared menu has one entry per option; entry `i` has id `i` and title `options[i]`. */
  lemma {:induction false} MenuEntriesAt(options: seq<string>)
    ensures |MenuEntries(options)| == |options|
    ensures forall i :: 0 <= i < |options| ==> MenuEntries(options)[i] == MenuItem(0, i, 0, options[i])
  {
    if options != [] {
      var prefix := options[..|options| - 1];
      MenuEntriesAt(prefix);
      assert forall i :: 0 <= i < |prefix| ==> prefix[i] == options[i];
    }
  }

  /** The menu index a click resolves: the item's id, or 0 for a null item. */
  function ItemIndex(item: Option<MenuItem>): (index: int)
    ensures item.None? ==> index == 0
    ensures item.Some? ==> index == item.value.itemId
  {
    match item
    case Some(m) => m.itemId
    case None => 0
  }

  /**
   * `substring(start, end)` succeeds exactly on these bounds. The offsets and the length
   * count UTF-16 code units; here each `char` of `text` stands for one code unit.
   */
  predicate ValidRange(text: string, selectionStart: int, selectionEnd: int)
  {
    0 <= selectionStart <= selectionEnd <= |text|
  }

  /**
   * What a click on the menu computes, in the source's order: the substring first
   * (which throws on bad bounds), then the option lookup (which throws on a bad index).
   */
  function Activate(text: string, selectionStart: int, selectionEnd: int,
                    options: seq<string>, index: int, viewTag: int): (r: Result<SelectionPayload, Exception>)
    ensures r == Failure(StringIndexOutOfBounds) <==> !ValidRange(text, selectionStart, selectionEnd)
    ensures r.Success? ==>
      && r.value.viewTag == viewTag
      && r.value.chosenOption in options
      && |r.value.highlightedText| == selectionEnd - selectionStart
  {
    if !ValidRange(text, selectionStart, selectionEnd) then Failure(StringIndexOutOfBounds)
    else if !(0 <= index < |options|) then Failure(ArrayIndexOutOfBounds)
    else Success(SelectionPayload(viewTag, options[index], text[selectionStart..selectionEnd]))
  }

  /** A click succeeds exactly when the selection is in bounds and the index names an option. */
  lemma ActivateSucceedsIff(text: string, selectionStart: int, selectionEnd: int,
                            options: seq<string>, index: int, viewTag: int)
    ensures Activate(text, selectionStart, selectionEnd, options, index, viewTag).Success?
        <==> ValidRange(text, selectionStart, selectionEnd) && 0 <= index < |options|
  {
  }

  /**
   * A successful click reports the view's tag, a configured option, and the selected
   * slice: the text splits around it at the selection bounds.
   */
  lemma ActivatePayload(text: string, selectionStart: int, selectionEnd: int,
                        options: seq<string>, index: int, viewTag: int)
    requires Activate(text, selectionStart, selectionEnd, options, index, viewTag).Success?
    ensures var p := Activate(text, selectionStart, selectionEnd, options, index, viewTag).value;
      && p.viewTag == viewTag
      && p.chosenOption == options[index]
      && p.chosenOption in options
      && |p.highlightedText| == selectionEnd - selectionStart
      && text[..selectionStart] + p.highlightedText + text[selectionEnd..] == text
  {
    var p := Activate(text, selectionStart, selectionEnd, options, index, viewTag).value;
    assert text[..selectionStart] + p.highlightedText == text[..selectionEnd];
  }

  /**
   * The failure cases: bad selection bounds throw from `substring` whatever the item;
   * in-bounds selection with an id outside the option list throws from the array lookup,
   * which includes a null item when the list is empty. There is no fallback.
   */
  lemma ActivateFailures(text: string, selectionStart: int, selectionEnd: int,
                         options: seq<string>, item: Option<MenuItem>, viewTag: int)
    ensures !ValidRange(text, selectionStart, selectionEnd) ==>
      Activate(text, selectionStart, selectionEnd, options, ItemIndex(item), viewTag) == Failure(StringIndexOutOfBounds)
    ensures ValidRange(text, selectionStart, selectionEnd) && !(0 <= ItemIndex(item) < |options|) ==>
      Activate(text, selectionStart, selectionEnd, options, ItemIndex(item), viewTag) == Failure(ArrayIndexOutOfBounds)
    ensures ValidRange(text, selectionStart, selectionEnd) && item.None? && options == [] ==>
      Activate(text, selectionStart, selectionEnd, options, ItemIndex(item), viewTag) == Failure(ArrayIndexOutOfBounds)
  {
  }

  /** A zero-width selection is reported with empty text, not suppressed. */
  lemma ZeroWidthSelectionIsReported(text: string, at: int, options: seq<string>, index: int, viewTag: int)
    requires 0 <= at <= |text| && 0 <= index < |options|
    ensures Activate(text, at, at, options, index, viewTag) == Success(SelectionPayload(viewTag, options[index], ""))
  {
    assert text[at..at] == "";
  }

  /**
   * Clicking an entry of the prepared menu reports that entry's title, as long as the
   * option list has not changed in between.
   */
  lemma PreparedEntryResolvesToItsTitle(options: seq<string>, k: int, text: string,
                                        selectionStart: int, selectionEnd: int, viewTag: int)
    requires 0 <= k < |MenuEntries(options)|
    requires ValidRange(text, selectionStart, selectionEnd)
    ensures Activate(text, selectionStart, selectionEnd, options, ItemIndex(Some(MenuEntries(options)[k])), viewTag)
         == Success(SelectionPayload(viewTag, MenuEntries(options)[k].title, text[selectionStart..selectionEnd]))
  {
    MenuEntriesAt(options);
  }

  /** The host view. `children` is the view hierarchy, maintained by the framework. */
  class SelectableTextView {
    var menuOptions: seq<string>
    var textView: TextWidget?
    var children: seq<ChildView>
    var id: int
    const bridge: NativeEventLog
    /** How many times the options have been configured. */
    ghost var configureCount: nat

    /** `tv` is selectable and carries this host's action-mode callback, bound to `tv` itself. */
    ghost predicate Armed(tv: TextWidget)
      reads tv
    {
      && tv.textIsSelectable
      && tv.customSelectionActionModeCallback != null
      && tv.customSelectionActionModeCallback.host == this
      && tv.customSelectionActionModeCallback.textView == tv
    }

    /** A bound TextView is always armed. */
    ghost predicate Valid()
      reads this, textView
    {
      textView != null ==> Armed(textView)
    }

    /** The only object a binding scan may change: the first TextView child. */
    function BindingFootprint(): set<object>
      reads this
    {
      match FirstTextIndex(children)
      case Some(k) => {children[k].view}
      case None => {}
    }

    /** The text and selection of every TextView child are as in `before`. */
    twostate predicate ChildContentUnchanged()
      reads this, set k | 0 <= k < |children| && children[k].TextChild? :: children[k].view
    {
      && children == old(children)
      && forall k :: 0 <= k < |children| && children[k].TextChild? ==>
        && children[k].view.text == old(children[k].view.text)
        && children[k].view.selectionStart == old(children[k].view.selectionStart)
        && children[k].view.selectionEnd == old(children[k].view.selectionEnd)
    }

    /** The binding after a scan: the first TextView child, or `previous` when there is none. */
    ghost predicate BoundPerScan(previous: TextWidget?)
      reads this
    {
      match FirstTextIndex(children)
      case Some(k) => textView == children[k].view
      case None => textView == previous
    }

    constructor (id: int, children: seq<ChildView>, bridge: NativeEventLog)
      ensures menuOptions == [] && textView == null && configureCount == 0
      ensures this.id == id && this.children == children && this.bridge == bridge
      ensures Valid()
    {
      menuOptions := [];
      textView := null;
      this.children := children;
      this.id := id;
      this.bridge := bridge;
      configureCount := 0;
    }

    /** Replaces the option list wholesale, then rescans the children. */
    method SetMenuOptions(options: seq<string>)
      requires Valid()
      modifies this`menuOptions, this`textView, this`configureCount, BindingFootprint()
      ensures Valid()
      ensures menuOptions == options && configureCount == old(configureCount) + 1
      ensures BoundPerScan(old(textView))
      ensures textView != null ==> Armed(textView)
      ensures ChildContentUnchanged()
    {
      menuOptions := options;
      configureCount := configureCount + 1;
      SetupTextView();
    }

    /** Binds to the first TextView child and arms it; leaves the binding alone if there is none. */
    method SetupTextView()
      requires Valid()
      modifies this`textView, BindingFootprint()
      ensures Valid()
      ensures BoundPerScan(old(textView))
      ensures FirstTextIndex(children).None? ==> unchanged(this)
      ensures ChildContentUnchanged()
    {
      FirstTextIndexIsLowest(children);
      var i := 0;
      while i < |children|
        invariant 0 <= i <= |children|
        invariant forall j :: 0 <= j < i ==> !children[j].TextChild?
        invariant textView == old(textView)
      {
        var child := children[i];
        if child.TextChild? {
          textView := child.view;
          SetupSelectionCallback(child.view);
          break;
        }
        i := i + 1;
      }
    }

    /** Makes `tv` selectable and installs a fresh action-mode callback bound to it. */
    method SetupSelectionCallback(tv: TextWidget)
      modifies tv
      ensures Armed(tv) && fresh(tv.customSelectionActionModeCallback)
      ensures tv.text == old(tv.text)
      ensures tv.selectionStart == old(tv.selectionStart) && tv.selectionEnd == old(tv.selectionEnd)
    {
      tv.textIsSelectable := true;
      tv.customSelectionActionModeCallback := new SelectionCallback(this, tv);
    }

    /** Appends one broadcast `{viewTag: id, chosenOption, highlightedText}` on the channel. */
    method OnSelectionEvent(chosenOption: string, highlightedText: string)
      modifies bridge
      ensures bridge.sent == old(bridge.sent) + [Emission(CHANNEL, SelectionPayload(id, chosenOption, highlightedText))]
    {
      bridge.sent := bridge.sent + [Emission(CHANNEL, SelectionPayload(id, chosenOption, highlightedText))];
    }

    /** A layout pass rescans only when it reports a change and nothing is bound yet. */
    method OnLayout(changed: bool)
      requires Valid()
      modifies this`textView, BindingFootprint()
      ensures Valid()
      ensures changed && old(textView) == null ==> BoundPerScan(null)
      ensures !(changed && old(textView) == null) ==> unchanged(this) && unchanged(BindingFootprint())
      ensures ChildContentUnchanged()
    {
      if changed && textView == null {
        SetupTextView();
      }
    }
  }

  /** The action-mode callback installed on one TextView; it reads its host's state when invoked. */
  class SelectionCallback {
    const host: SelectableTextView
    const textView: TextWidget

    constructor (host: SelectableTextView, textView: TextWidget)
      ensures this.host == host && this.textView == textView
    {
      this.host := host;
      this.textView := textView;
    }

    method OnCreateActionMode(mode: ActionMode?, menu: Menu?) returns (handled: bool)
      ensures handled
    {
      handled := true;
    }

    /** Clears the menu and adds the current options in order, each with its index as id. */
    method OnPrepareActionMode(mode: ActionMode?, menu: Menu?) returns (handled: bool)
      modifies menu
      ensures handled
      ensures menu != null ==> menu.items == MenuEntries(host.menuOptions)
    {
      if menu != null {
        menu.Clear();
      }
      var options := host.menuOptions;
      for i := 0 to |options|
        invariant menu != null ==> menu.items == MenuEntries(options[..i])
      {
        if menu != null {
          assert options[..i + 1][..i] == options[..i];
          menu.Add(0, i, 0, options[i]);
        }
      }
      assert options[..|options|] == options;
      handled := true;
    }

    /**
     * Reads the selection and the current option list at click time; on success broadcasts
     * exactly one event, finishes the mode and returns true; otherwise throws and emits nothing.
     */
    method OnActionItemClicked(mode: ActionMode?, item: Option<MenuItem>) returns (outcome: CallbackOutcome)
      modifies host.bridge, mode
      ensures match Activate(textView.text, textView.selectionStart, textView.selectionEnd,
                             host.menuOptions, ItemIndex(item), host.id)
        case Success(payload) =>
          && outcome == Returned(true)
          && host.bridge.sent == old(host.bridge.sent) + [Emission(CHANNEL, payload)]
          && (mode != null ==> mode.finished)
        case Failure(e) =>
          && outcome == Threw(e)
          && host.bridge.sent == old(host.bridge.sent)
          && (mode != null ==> mode.finished == old(mode.finished))
    {
      var selectionStart := textView.selectionStart;
      var selectionEnd := textView.selectionEnd;
      if !(0 <= selectionStart <= selectionEnd <= |textView.text|) {
        return Threw(StringIndexOutOfBounds);
      }
      var selectedText := textView.text[selectionStart..selectionEnd];
      var index := ItemIndex(item);
      if !(0 <= index < |host.menuOptions|) {
        return Threw(ArrayIndexOutOfBounds);
      }
      var chosenOption := host.menuOptions[index];
      host.OnSelectionEvent(chosenOption, selectedText);
      if mode != null {
        mode.Finish();
      }
      outcome := Returned(true);
    }

    /** Nothing to release. */
    method OnDestroyActionMode(mode: ActionMode?)
      ensures unchanged(host, textView, host.bridge)
    {
    }
  }
}
