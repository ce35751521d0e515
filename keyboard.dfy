/**
 * What the month panel's key handler does with one key event, as a function
 * of the event's three fields it reads (target node name, key code, the
 * Ctrl/Meta accelerator), the cursor value and the `disabledDate` guard.
 * The handler itself (`MonthCalendar.MonthCalendar.OnKeyDown`) is proved to
 * behave as `KeyDown` says.
 */
module Keyboard {
  import opened Wrappers
  import opened Dates

  // DOM key codes, as rc-util's KeyCode names them.
  const ENTER := 13
  const LEFT := 37
  const UP := 38
  const RIGHT := 39
  const DOWN := 40

  /** `toLowerCase` on one character, for the ASCII letters a node name is made of. */
  function LowerChar(c: char): char {
    if 'A' <= c <= 'Z' then (c as int - 'A' as int + 'a' as int) as char else c
  }

  function Lower(s: string): (r: string)
    ensures |r| == |s|
    ensures forall i :: 0 <= i < |s| ==> r[i] == LowerChar(s[i])
  {
    if s == [] then [] else [LowerChar(s[0])] + Lower(s[1..])
  }

  /** The handler leaves alone any event whose target is an `<input>`, whatever the case of its node name. */
  predicate IsInputTarget(nodeName: string) {
    Lower(nodeName) == "input"
  }

  /** The guard passes a value when there is no `disabledDate` or it returns false. */
  predicate Allows(disabledDate: Option<Date -> bool>, d: Date) {
    disabledDate.None? || !disabledDate.value(d)
  }

  /** The keys the handler reports as handled. */
  predicate IsPanelKey(keyCode: int) {
    keyCode == DOWN || keyCode == UP || keyCode == LEFT || keyCode == RIGHT || keyCode == ENTER
  }

  /** What an arrow key adds to a clone of the cursor; None for every other key. */
  function ArrowShift(keyCode: int, accelerator: bool): Option<(int, Unit)> {
    if keyCode == DOWN then Some((3, Months))
    else if keyCode == UP then Some((-3, Months))
    else if keyCode == LEFT then (if accelerator then Some((-1, Years)) else Some((-1, Months)))
    else if keyCode == RIGHT then (if accelerator then Some((1, Years)) else Some((1, Months)))
    else None
  }

  /** The one call into the calendar mixin a key event can make. */
  datatype Action =
    | MoveTo(to: Date)     // setValue(to)
    | SelectAt(at: Date)   // onSelect(at)

  /** The handler's result (1 or undefined), whether it prevented the default, and the call it made. */
  datatype KeyOutcome = KeyOutcome(handled: bool, preventsDefault: bool, action: Option<Action>)

  const NotHandled := KeyOutcome(false, false, None)

  function KeyDown(nodeName: string, keyCode: int, accelerator: bool,
                   cursor: Date, disabledDate: Option<Date -> bool>): (o: KeyOutcome)
    // the default is prevented exactly when the event is reported handled
    ensures o.preventsDefault == o.handled
    ensures o.handled <==> !IsInputTarget(nodeName) && IsPanelKey(keyCode)
    // a call is only ever made for a handled event
    ensures o.action.Some? ==> o.handled
    // a selection is only of the cursor, only on Enter, and only past the guard
    ensures o.action.Some? && o.action.value.SelectAt? ==>
      keyCode == ENTER && o.action.value.at == cursor && Allows(disabledDate, cursor)
    // a move always goes somewhere else
    ensures o.action.Some? && o.action.value.MoveTo? ==> o.action.value.to != cursor
  {
    if IsInputTarget(nodeName) then NotHandled
    else match ArrowShift(keyCode, accelerator)
      case Some((amount, unit)) => KeyOutcome(true, true, Some(MoveTo(Add(cursor, amount, unit))))
      case None =>
        if keyCode == ENTER then
          KeyOutcome(true, true, if Allows(disabledDate, cursor) then Some(SelectAt(cursor)) else None)
        else NotHandled
  }

  /** A target is an input exactly when its node name spells "input" in any mix of cases. */
  lemma InputTargetIff(nodeName: string)
    ensures IsInputTarget(nodeName) <==>
      |nodeName| == 5 &&
      forall i :: 0 <= i < 5 ==> nodeName[i] == "input"[i] || nodeName[i] == "INPUT"[i]
  {
  }

  /** An event on an input changes nothing and is reported not handled. */
  lemma InputIgnored(nodeName: string, keyCode: int, accelerator: bool,
                     cursor: Date, disabledDate: Option<Date -> bool>)
    requires IsInputTarget(nodeName)
    ensures KeyDown(nodeName, keyCode, accelerator, cursor, disabledDate) == NotHandled
  {
  }

  /** Down moves three months forward and Up three months back, with or without Ctrl/Meta. */
  lemma VerticalMoves(nodeName: string, accelerator: bool, cursor: Date, disabledDate: Option<Date -> bool>)
    requires !IsInputTarget(nodeName)
    ensures KeyDown(nodeName, DOWN, accelerator, cursor, disabledDate)
         == KeyOutcome(true, true, Some(MoveTo(Date(cursor.months + 3, cursor.day))))
    ensures KeyDown(nodeName, UP, accelerator, cursor, disabledDate)
         == KeyOutcome(true, true, Some(MoveTo(Date(cursor.months - 3, cursor.day))))
  {
  }

  /** Left and Right move one month, or one year (same month) with Ctrl/Meta. */
  lemma HorizontalMoves(nodeName: string, cursor: Date, disabledDate: Option<Date -> bool>)
    requires !IsInputTarget(nodeName)
    ensures KeyDown(nodeName, LEFT, false, cursor, disabledDate)
         == KeyOutcome(true, true, Some(MoveTo(Date(cursor.months - 1, cursor.day))))
    ensures KeyDown(nodeName, RIGHT, false, cursor, disabledDate)
         == KeyOutcome(true, true, Some(MoveTo(Date(cursor.months + 1, cursor.day))))
    ensures KeyDown(nodeName, LEFT, true, cursor, disabledDate)
         == KeyOutcome(true, true, Some(MoveTo(Date(cursor.months - 12, cursor.day))))
    ensures KeyDown(nodeName, RIGHT, true, cursor, disabledDate)
         == KeyOutcome(true, true, Some(MoveTo(Date(cursor.months + 12, cursor.day))))
    ensures YearOf(KeyDown(nodeName, LEFT, true, cursor, disabledDate).action.value.to) == YearOf(cursor) - 1
    ensures YearOf(KeyDown(nodeName, RIGHT, true, cursor, disabledDate).action.value.to) == YearOf(cursor) + 1
    ensures MonthOf(KeyDown(nodeName, LEFT, true, cursor, disabledDate).action.value.to) == MonthOf(cursor)
    ensures MonthOf(KeyDown(nodeName, RIGHT, true, cursor, disabledDate).action.value.to) == MonthOf(cursor)
  {
  }

  /**
   * Enter is always handled and prevents the default; it selects the cursor
   * exactly when the guard passes it, and otherwise makes no call.
   */
  lemma EnterSelectsIffAllowed(nodeName: string, accelerator: bool, cursor: Date,
                               disabledDate: Option<Date -> bool>)
    requires !IsInputTarget(nodeName)
    ensures var o := KeyDown(nodeName, ENTER, accelerator, cursor, disabledDate);
      o.handled && o.preventsDefault &&
      (o.action == Some(SelectAt(cursor)) <==> Allows(disabledDate, cursor)) &&
      (o.action == None <==> !Allows(disabledDate, cursor))
  {
  }

  /** Every other key is not handled, prevents nothing and makes no call. */
  lemma OtherKeysIgnored(nodeName: string, keyCode: int, accelerator: bool,
                         cursor: Date, disabledDate: Option<Date -> bool>)
    requires !IsPanelKey(keyCode)
    ensures KeyDown(nodeName, keyCode, accelerator, cursor, disabledDate) == NotHandled
  {
  }

  /** Right undoes Left and Down undoes Up, for either state of the accelerator. */
  lemma ArrowsUndo(nodeName: string, accelerator: bool, cursor: Date, disabledDate: Option<Date -> bool>)
    requires !IsInputTarget(nodeName)
    ensures var left := KeyDown(nodeName, LEFT, accelerator, cursor, disabledDate).action.value.to;
      KeyDown(nodeName, RIGHT, accelerator, left, disabledDate).action == Some(MoveTo(cursor))
    ensures var up := KeyDown(nodeName, UP, accelerator, cursor, disabledDate).action.value.to;
      KeyDown(nodeName, DOWN, accelerator, up, disabledDate).action == Some(MoveTo(cursor))
  {
  }

  /** 2024-03-15 with Ctrl+Right becomes 2025-03-15, and nothing is selected. */
  lemma CtrlRightScenario()
    ensures KeyDown("DIV", RIGHT, true, MakeDate(2024, 2, 15), None)
         == KeyOutcome(true, true, Some(MoveTo(MakeDate(2025, 2, 15))))
  {
  }

  /** With April disabled, Enter on an April cursor selects nothing but is still handled. */
  lemma DisabledAprilScenario(day: int)
    ensures var o := KeyDown("DIV", ENTER, false, MakeDate(2024, 3, day), Some((d: Date) => MonthOf(d) == 3));
      o.handled && o.preventsDefault && o.action == None
  {
  }
}
