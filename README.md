# Month calendar panel: keyboard and mode state machine

This project models the month-picker panel of the calendar component (`MonthCalendar`) in Dafny. The panel holds three pieces of state:

- `mode`: the panel granularity. It starts as "month" and can be any string a child presenter asks for.
- `value`: the cursor moment.
- `selectedValue`: an optional committed moment.

The model covers:

- how the constructor fills that state from the props;
- how the key handler turns a key event into a cursor move or a guarded selection;
- how a mode request from a child is accepted or absorbed;
- how the date-input callbacks forward their value.

Files:

- `dates.dfy` (module `Dates`): a date value is a month count (`year * 12 + month`, month zero-based) plus a day. Month arithmetic carries the day along unchanged, because moment's day-of-month clamping is left out. A year is exactly twelve months. `Moment` is the mutable moment object. `Clone` returns a fresh object, and `AddInPlace` is moment's in-place `add`.
- `keyboard.dfy` (module `Keyboard`): `KeyDown` is the reference definition of what one key event does. It takes the target's node name, the key code, the accelerator (`ctrlKey || metaKey`), the cursor value and the `disabledDate` guard. It gives the result, whether the default is prevented, and the single mixin call made, if any. Lemmas state the per-key behaviour.
- `panel_mode.dfy` (module `PanelMode`): the mode-change rule and the mode reached after any history of requests.
- `month_calendar.dfy` (module `MonthCalendar`): the component as a class with `mode`, `value` and `selectedValue` fields.
  - `OnKeyDown` is proved to do what `Keyboard.KeyDown` says.
  - `HandlePanelChange` keeps the invariant that the mode is what the requests made of "month", so it is never "date".
  - `setValue` and `onSelect` come from the calendar mixin. They are abstract actions that append to the `calls` log, so the contracts can say when each is called and with what.
  - `preventDefault()` is counted on the event.

Points of the code worth noting:

- Enter always prevents the default and returns handled, even when `disabledDate` rejects the cursor (src/MonthCalendar.jsx:76-81).
- A mode is any string a child passes. Only "date" is refused (src/MonthCalendar.jsx:104-108).
- The cursor-moved test is the object-identity test `value !== stateValue`, and it runs on a fresh clone (src/MonthCalendar.jsx:85). Every arrow key therefore reaches `setValue`. The handler's final fall-through is unreachable, and the model keeps it as written.
- The date-input callbacks pass on whatever value they receive, including an absent one (src/MonthCalendar.jsx:92-102).

## Model

| member | source | states |
|---|---|---|
| Dates.Moment.Clone | src/MonthCalendar.jsx:53 | the clone is a new object with the same value; the original is not written |
| Dates.Moment.AddInPlace | src/MonthCalendar.jsx:54 | `add(amount, unit)` changes the clone in place to the date shifted by that many months or years |
| Dates.AddYears | src/MonthCalendar.jsx:60-75 | adding n years moves the year by exactly n and keeps the month; the day is carried unchanged because moment's day clamping is left out |
| Dates.NextMonth | src/MonthCalendar.jsx:68-75 | one month forward is the next month of the same year, or January of the next year after December |
| Dates.PreviousMonth | src/MonthCalendar.jsx:60-67 | one month back is the previous month of the same year, or December of the previous year after January |
| Dates.YearIsTwelveMonths | src/MonthCalendar.jsx:60-75 | a one-year move with Ctrl/Meta equals a twelve-month move |
| Dates.AddInverse | src/MonthCalendar.jsx:52-75 | adding and then subtracting the same amount of the same unit restores the date |
| Keyboard.Lower | src/MonthCalendar.jsx:43 | lower-casing keeps the length and lower-cases each character |
| Keyboard.InputTargetIff | src/MonthCalendar.jsx:43-45 | a target is ignored exactly when its node name is "input" in any mix of upper and lower case |
| Keyboard.KeyDown | src/MonthCalendar.jsx:42-90 | the default is prevented exactly when the event is handled; the event is handled exactly when the target is not an input and the key is Down, Up, Left, Right or Enter; a selection happens only on Enter, only of the cursor, and only when the guard allows it; a move always changes the cursor |
| Keyboard.InputIgnored | src/MonthCalendar.jsx:43-45 | on an input target every key is not handled, prevents nothing and makes no call |
| Keyboard.VerticalMoves | src/MonthCalendar.jsx:52-59 | Down moves the cursor +3 months and Up moves it -3 months, whatever the Ctrl/Meta state; both are handled and prevent the default |
| Keyboard.HorizontalMoves | src/MonthCalendar.jsx:47-75 | Left/Right move -1/+1 month without Ctrl or Meta and -1/+1 year, same month, with either one |
| Keyboard.EnterSelectsIffAllowed | src/MonthCalendar.jsx:76-81 | Enter is always handled and prevents the default; it selects the cursor if and only if `disabledDate` is absent or returns false for it |
| Keyboard.OtherKeysIgnored | src/MonthCalendar.jsx:82-83 | any other key is not handled, prevents nothing and makes no call |
| Keyboard.ArrowsUndo | src/MonthCalendar.jsx:52-75 | Right from the place Left moved to gives back the cursor, and so does Down after Up, with either accelerator state |
| Keyboard.CtrlRightScenario | src/MonthCalendar.jsx:68-75 | 2024-03-15 with Ctrl+Right becomes 2025-03-15 and nothing is selected |
| Keyboard.DisabledAprilScenario | src/MonthCalendar.jsx:76-81 | with April disabled, Enter on an April cursor is handled but selects nothing |
| PanelMode.PanelChange | src/MonthCalendar.jsx:104-108 | a "date" request leaves the mode unchanged; any other request becomes the mode exactly |
| PanelMode.ModeAfterAppend | src/MonthCalendar.jsx:104-108 | one more request moves the mode by one mode-change step |
| PanelMode.ModeIsLatestAccepted | src/MonthCalendar.jsx:104-108 | after any history of requests, the mode is the latest request that was not "date", or the starting mode if there was none |
| PanelMode.NeverDate | src/MonthCalendar.jsx:104-108 | starting from a mode other than "date", no history of requests reaches "date" |
| PanelMode.PanelChangeIdempotent | src/MonthCalendar.jsx:104-108 | repeating a mode request changes nothing further |
| MonthCalendar.InitialCursor | src/MonthCalendar.jsx:37 | the initial cursor is `props.value` if given, else `props.defaultValue` if given, else now, so it is always defined |
| MonthCalendar.InitialSelection | src/MonthCalendar.jsx:38 | the initial selection is `props.selectedValue` if given, else `props.defaultSelectedValue`; it is absent exactly when both are absent |
| MonthCalendar.MonthCalendar.constructor | src/MonthCalendar.jsx:32-39 | the state starts with mode "month", the defaulted cursor and the defaulted selection, and no mixin call has been made |
| MonthCalendar.MonthCalendar.SetValue | src/MonthCalendar.jsx:86 | the mixin's `setValue` is recorded with its argument |
| MonthCalendar.MonthCalendar.OnSelect | src/MonthCalendar.jsx:78 | the mixin's `onSelect` is recorded with its argument and cause |
| MonthCalendar.MonthCalendar.OnKeyDown | src/MonthCalendar.jsx:42-90 | the handler returns what `KeyDown` says, calls `preventDefault` once exactly when `KeyDown` prevents, and makes exactly the one mixin call `KeyDown` names or none. `setValue` receives a fresh clone. `onSelect` receives the cursor object itself. The cursor object's value, the mode, the cursor reference and the selection are unchanged |
| MonthCalendar.KeyEvent.constructor | src/MonthCalendar.jsx:43-47 | the event's node name, key code, Ctrl and Meta flags are the constants the handler reads, and `preventDefault` has not been called yet |
| MonthCalendar.KeyEvent.PreventDefault | src/MonthCalendar.jsx:80 | each call of `event.preventDefault()` adds one to the event's count; the event's other fields are constants |
| MonthCalendar.MonthCalendar.OnDateInputChange | src/MonthCalendar.jsx:92-96 | the value, present or absent, is passed unchanged to `onSelect` with source "dateInput", and nothing else is called |
| MonthCalendar.MonthCalendar.OnDateInputSelect | src/MonthCalendar.jsx:98-102 | the value, present or absent, is passed unchanged to `onSelect` with source "dateInputSelect", and nothing else is called |
| MonthCalendar.MonthCalendar.HandlePanelChange | src/MonthCalendar.jsx:104-108 | a "date" request leaves the mode unchanged, any other request sets it exactly, and the mode is never "date"; the cursor, the selection and the mixin calls are untouched |

## Left out

- Rendering (`render`, `DateInput`, `CalendarHeader`, `CalendarFooter`, class names, `tabIndex`, src/MonthCalendar.jsx:110-168): this is UI and does not affect the state machine.
- PropTypes and defaultProps (src/MonthCalendar.jsx:17-30): these are runtime type metadata only.
- The calendar and common mixins and `polyfill` (src/MonthCalendar.jsx:7-12, 171) are not part of this model. `setValue` and `onSelect` are recorded as calls and do not change `value` or `selectedValue` here. What they do to the state is not modelled: controlled/uncontrolled reconciliation and the host's `onChange`/`onSelect` notifications. `onClear`, `getFormat` and `renderRoot` are left out too.
- rc-util's `KeyCode` is not part of this model. The key codes are the standard DOM values: Enter 13, Left 37, Up 38, Right 39, Down 40.
- moment's calendar arithmetic beyond the month count is not modelled. Day-of-month clamping on a month add is left out, and the day is carried unchanged.
- `moment()` reads the clock. The constructor instead takes "now" as a parameter.
- Keyboard.Lower: models `toLowerCase` on ASCII letters only. Non-ASCII case mappings are not modelled. For the test at src/MonthCalendar.jsx:43 this makes no difference. No non-ASCII character lower-cases to one of i, n, p, u, t. U+0130 lower-cases to two code units, so the result is not "input". So `IsInputTarget` gives the same answer as the source on every node name.
- React's `setState` is batched and asynchronous. `HandlePanelChange` assigns the mode at once.
- DOM event plumbing beyond `target.nodeName`, `keyCode`, `ctrlKey`, `metaKey` and `preventDefault()` is left out.
- The handler's JavaScript result (`1` or `undefined`) is modelled as a boolean.
- The panel's props are read once, at construction. Later prop updates are not modelled.
