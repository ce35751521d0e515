/**
 * The month-picker panel component: its state (`mode`, the cursor `value`,
 * the optional `selectedValue`), its constructor and the handlers that the
 * panel itself defines.
 *
 * `setValue` and `onSelect` belong to the calendar mixin the component is
 * wrapped in; here they are abstract actions that append to `calls`, so the
 * contracts can say when and with what they are called. Whatever the mixin
 * then does with the state is not part of this model.
 */
module MonthCalendar {
  import opened Wrappers
  import opened Dates
  import opened Keyboard
  import opened PanelMode

  /** The props the panel's state and key handler read. */
  datatype Props = Props(
    value: Option<Moment>,
    defaultValue: Option<Moment>,
    selectedValue: Option<Moment>,
    defaultSelectedValue: Option<Moment>,
    disabledDate: Option<Date -> bool>)

  /** The initial cursor: `props.value || props.defaultValue || now`, which is always a moment. */
  function InitialCursor(props: Props, now: Moment): (m: Moment)
    ensures Some(m) == props.value || Some(m) == props.defaultValue || m == now
    ensures props.value.Some? ==> m == props.value.value
    ensures props.value.None? && props.defaultValue.Some? ==> m == props.defaultValue.value
    ensures props.value.None? && props.defaultValue.None? ==> m == now
  {
    match props.value
    case Some(v) => v
    case None => match props.defaultValue
      case Some(v) => v
      case None => now
  }

  /** The initial selection: `props.selectedValue || props.defaultSelectedValue`, absent when both are. */
  function InitialSelection(props: Props): (s: Option<Moment>)
    ensures s.None? <==> props.selectedValue.None? && props.defaultSelectedValue.None?
    ensures s == props.selectedValue || s == props.defaultSelectedValue
    ensures props.selectedValue.Some? ==> s == props.selectedValue
  {
    if props.selectedValue.Some? then props.selectedValue else props.defaultSelectedValue
  }

  /** A keydown event: the fields the handler reads, and how often `preventDefault()` was called. */
  class KeyEvent {
    const targetNodeName: string
    const keyCode: int
    const ctrlKey: bool
    const metaKey: bool
    var preventDefaultCalls: nat

    constructor (targetNodeName: string, keyCode: int, ctrlKey: bool, metaKey: bool)
      ensures this.targetNodeName == targetNodeName && this.keyCode == keyCode
      ensures this.ctrlKey == ctrlKey && this.metaKey == metaKey
      ensures preventDefaultCalls == 0
    {
      this.targetNodeName, this.keyCode := targetNodeName, keyCode;
      this.ctrlKey, this.metaKey := ctrlKey, metaKey;
      preventDefaultCalls := 0;
    }

    method PreventDefault()
      modifies this`preventDefaultCalls
      ensures preventDefaultCalls == old(preventDefaultCalls) + 1
    {
      preventDefaultCalls := preventDefaultCalls + 1;
    }
  }

  /**
   * A call into the calendar mixin: `setValue(moved)` or `onSelect(selected, cause)`.
   * The date-input callbacks pass on whatever value they get, so the value
   * handed to `onSelect` may be absent (null or undefined).
   */
  datatype Call =
    | SetValueCall(moved: Moment)
    | SelectCall(selected: Option<Moment>, source: Option<string>)

  /** The moment objects a recorded call refers to. */
  function CallObjects(c: Call): set<Moment> {
    match c
    case SetValueCall(m) => {m}
    case SelectCall(Some(m), _) => {m}
    case SelectCall(None, _) => {}
  }

  /** The recorded call `c` is the call the key-handler specification asks for. */
  predicate Performs(c: Call, a: Action)
    reads CallObjects(c)
  {
    match a
    case MoveTo(d) => c.SetValueCall? && c.moved.Value() == d
    case SelectAt(d) =>
      c.SelectCall? && c.selected.Some? && c.selected.value.Value() == d && c.source == None
  }

  const DateInputSource := "dateInput"
  const DateInputSelectSource := "dateInputSelect"

  class MonthCalendar {
    var mode: string
    var value: Moment
    var selectedValue: Option<Moment>
    const disabledDate: Option<Date -> bool>
    /** The mixin calls made so far, oldest first. */
    var calls: seq<Call>
    /** Every mode a child requested so far, oldest first. */
    ghost var modeRequests: seq<string>

    /** The mode is what the requests so far made of the initial "month". */
    ghost predicate Valid()
      reads this
    {
      mode == ModeAfter(InitialMode, modeRequests)
    }

    constructor (props: Props, now: Moment)
      ensures Valid() && modeRequests == []
      ensures mode == InitialMode
      ensures value == InitialCursor(props, now)
      ensures selectedValue == InitialSelection(props)
      ensures disabledDate == props.disabledDate
      ensures calls == []
    {
      mode := InitialMode;
      value := InitialCursor(props, now);
      selectedValue := InitialSelection(props);
      disabledDate := props.disabledDate;
      calls := [];
      modeRequests := [];
    }

    /** The mixin's `setValue`, recorded. */
    method SetValue(v: Moment)
      modifies this`calls
      ensures calls == old(calls) + [SetValueCall(v)]
    {
      calls := calls + [SetValueCall(v)];
    }

    /** The mixin's `onSelect`, recorded with its cause (None when called without one). */
    method OnSelect(v: Option<Moment>, source: Option<string>)
      modifies this`calls
      ensures calls == old(calls) + [SelectCall(v, source)]
    {
      calls := calls + [SelectCall(v, source)];
    }

    /**
     * The key handler. It does what `KeyDown` says of the event and the
     * current cursor: the result, whether the default is prevented, and the
     * one mixin call it makes, if any. An arrow key hands `setValue` a fresh
     * clone; the cursor object itself is never changed, and neither are the
     * mode, the cursor reference or the selection.
     */
    method OnKeyDown(event: KeyEvent) returns (handled: bool)
      modifies this`calls, event`preventDefaultCalls
      ensures var o := KeyDown(event.targetNodeName, event.keyCode, event.ctrlKey || event.metaKey,
                               old(value.Value()), disabledDate);
        && handled == o.handled
        && event.preventDefaultCalls == old(event.preventDefaultCalls) + (if o.preventsDefault then 1 else 0)
        && (o.action.None? ==> calls == old(calls))
        && (o.action.Some? ==>
              |calls| == |old(calls)| + 1 && calls[..|old(calls)|] == old(calls) &&
              Performs(calls[|old(calls)|], o.action.value))
        && (o.action.Some? && o.action.value.MoveTo? ==> fresh(calls[|old(calls)|].moved))
        && (o.action.Some? && o.action.value.SelectAt? ==> calls[|old(calls)|].selected == Some(value))
      ensures value.Value() == old(value.Value())
      ensures mode == old(mode) && value == old(value) && selectedValue == old(selectedValue)
    {
      if Lower(event.targetNodeName) == "input" {
        return false;
      }
      var keyCode := event.keyCode;
      var ctrlKey := event.ctrlKey || event.metaKey;
      var stateValue := value;
      var moved := stateValue;
      if keyCode == DOWN {
        moved := stateValue.Clone();
        moved.AddInPlace(3, Months);
      } else if keyCode == UP {
        moved := stateValue.Clone();
        moved.AddInPlace(-3, Months);
      } else if keyCode == LEFT {
        moved := stateValue.Clone();
        if ctrlKey {
          moved.AddInPlace(-1, Years);
        } else {
          moved.AddInPlace(-1, Months);
        }
      } else if keyCode == RIGHT {
        moved := stateValue.Clone();
        if ctrlKey {
          moved.AddInPlace(1, Years);
        } else {
          moved.AddInPlace(1, Months);
        }
      } else if keyCode == ENTER {
        if disabledDate.None? || !disabledDate.value(stateValue.Value()) {
          OnSelect(Some(stateValue), None);
        }
        event.PreventDefault();
        return true;
      } else {
        return false;
      }
      if moved != stateValue {
        SetValue(moved);
        event.PreventDefault();
        return true;
      }
      return false;
    }

    /** `onDateInputChange`: forwards the typed value, present or not, to `onSelect`, tagged "dateInput". */
    method OnDateInputChange(v: Option<Moment>)
      modifies this`calls
      ensures calls == old(calls) + [SelectCall(v, Some(DateInputSource))]
    {
      OnSelect(v, Some(DateInputSource));
    }

    /** `onDateInputSelect`: forwards the committed value, present or not, to `onSelect`, tagged "dateInputSelect". */
    method OnDateInputSelect(v: Option<Moment>)
      modifies this`calls
      ensures calls == old(calls) + [SelectCall(v, Some(DateInputSelectSource))]
    {
      OnSelect(v, Some(DateInputSelectSource));
    }

    /**
     * `handlePanelChange(_, mode)`: takes every requested mode but "date",
     * which leaves the mode as it was. The cursor, the selection and the
     * mixin calls are untouched, and the mode never becomes "date".
     */
    method HandlePanelChange(panelValue: Option<Moment>, requested: string)
      requires Valid()
      modifies this`mode, this`modeRequests
      ensures Valid() && modeRequests == old(modeRequests) + [requested]
      ensures requested == DateMode ==> mode == old(mode)
      ensures requested != DateMode ==> mode == requested
      ensures mode != DateMode
      ensures value == old(value) && selectedValue == old(selectedValue) && calls == old(calls)
    {
      var requests := modeRequests + [requested];
      ModeAfterAppend(InitialMode, modeRequests, requested);
      NeverDate(InitialMode, requests);
      if requested != DateMode {
        mode := requested;
      }
      modeRequests := requests;
    }
  }
}
