# Form block: worker synchronisation, keyboard date picker, rule-editor helpers

This project is a Dafny model of three parts of an adaptive-forms block for web pages. It
also proves properties of each.

**The rule-engine worker** (`RuleEngineWorker`, worker.dfy). A web worker runs the form's
rule engine and reports to the main thread by posting messages. After `init` it buffers every
field change. The `decorated` command then goes through these steps:
- it fetches and imports prefill data;
- it posts a `restoreState` snapshot with the buffered changes;
- it buffers the changes that arrive during a zero-delay yield;
- it posts that batch, then `sync-complete`;
- from then on it forwards every field and form change live.

The class `RuleEngine` holds the two buffers, the two phase flags and the posted messages
(`outbox`). `Session` runs one whole `init` → `decorated` session, with runtime events
arriving at every point where the worker is suspended. The lemmas prove:
- every field change reaches the main thread exactly once, in arrival order;
- form-level changes are forwarded only once the worker is live;
- the restore messages come once each, in order.

**The custom date picker** (`DatePicker`, date_picker.dfy). It has three keyboard inputs
(day, month, year), a hidden input that carries the submitted `YYYY-MM-DD` value, an optional
binding to the form model, and a native calendar picker. The class
`CustomDatePickerComponent` has one field per DOM property the modelled handlers write. Its handlers are
methods, proved against these functions:
- `StripNonDigits`, `FormatSegment` and `ComposeDate` for the text;
- the `Committed` predicate for what a model update does;
- `ApplyValue` and `ApplyState` for rendering.

**The rule-editor helpers** (`FormFunctions`, functions.dfy): `getFullName`,
`maskMobileNumber`, `days`, and the data transform of `submitFormArrayToString`.

**JavaScript semantics** (`Js`, js.dfy). This module models the parts of JavaScript the code
relies on:
- truthiness;
- `ToString` (template literals, `toString`);
- `Array.prototype.join`, `String.prototype.split` with a one-character separator, `trim`
  and `padStart`;
- `parseInt` with radix 10.

The runtime and the browser are outside the model, and their results are parameters:
- the rule-engine runtime (`afb-runtime`);
- `fetchData`;
- `new Date(s)`, which is the predicate `dateAccepted` in the date picker and the function
  `parse` in `days`;
- the form model object.

## Model

| member | source | states |
|---|---|---|
| Js.Get | blocks/form/rules/RuleEngineWorker.js:127 | an optional-chaining read is defined only on an object that owns the key, and then is that property |
| Js.Truthy | blocks/form/functions.js:51 | a value is falsy exactly when it is undefined, null, false, 0, NaN or "" (also `if (data)` at blocks/form/rules/RuleEngineWorker.js:129 and `||` at :96) |
| Js.ToString | blocks/form/functions.js:54 | a string is its own string; a number's string parses back to the number; any other non-array value gives a non-empty string (also the template literal at :9) |
| Js.JoinStrings | blocks/form/functions.js:20 | the join is as long as the parts together plus one separator between each two, and starts with the first part |
| Js.ParseInt | blocks/form/components/custom-date-picker/custom-date-picker.js:318-324 | after leading whitespace and one optional sign, NaN exactly when no digit follows; otherwise the signed value of the longest digit run |
| Js.ElementStrings | blocks/form/functions.js:20 | `join` renders one string per element, and a string element as itself |
| Js.Split | blocks/form/components/custom-date-picker/custom-date-picker.js:385 | `split('-')` gives at least one part, and no part contains the separator |
| Js.JoinSplit | blocks/form/components/custom-date-picker/custom-date-picker.js:385 | joining the parts of a split with the separator gives back the original string |
| Js.SplitJoin | blocks/form/components/custom-date-picker/custom-date-picker.js:385 | splitting a join of separator-free parts gives back the parts |
| Js.Trim | blocks/form/functions.js:9 | the result is the string with its leading and trailing whitespace runs removed (IsTrimOf) |
| Js.TrimUnique | blocks/form/functions.js:9 | that characterisation has exactly one answer |
| Js.PadStart | blocks/form/components/custom-date-picker/custom-date-picker.js:342-343 | a string already long enough is unchanged; otherwise it is prefixed with fill characters up to the length |
| Js.ParseDigits | blocks/form/components/custom-date-picker/custom-date-picker.js:318 | `parseInt` of a non-empty digit string is the number it denotes |
| Js.ParseIntToString | blocks/form/components/custom-date-picker/custom-date-picker.js:318-324 | `parseInt(String(n))` is `n` for every integer |
| DatePicker.StripNonDigits | blocks/form/components/custom-date-picker/custom-date-picker.js:246 | the result is all digits and no longer than the input; an all-digit input is unchanged |
| DatePicker.StripNonDigitsKeepsDigits | blocks/form/components/custom-date-picker/custom-date-picker.js:246 | each digit occurs as often as in the input, and other characters not at all |
| DatePicker.StripNonDigitsOfChar | blocks/form/components/custom-date-picker/custom-date-picker.js:246 | a single digit is kept and any other single character is dropped |
| DatePicker.StripNonDigitsAppend | blocks/form/components/custom-date-picker/custom-date-picker.js:246 | stripping a concatenation is the concatenation of the stripped pieces, so the digits keep their input order |
| DatePicker.FormatSegment | blocks/form/components/custom-date-picker/custom-date-picker.js:308-326 | a one-character input is padded with '0'; the result is cleared if and only if the input is empty or the padded input parses to a nonzero number outside 1..hi, and is the padded input otherwise |
| DatePicker.FormatKeepsFalsy | blocks/form/components/custom-date-picker/custom-date-picker.js:317-326 | a segment of two or more characters that parses to NaN or 0 is kept |
| DatePicker.FormatKeepsInRange | blocks/form/components/custom-date-picker/custom-date-picker.js:317-320 | a digit string of two or more characters denoting at most the upper bound is kept |
| DatePicker.FormatPadsOneDigit | blocks/form/components/custom-date-picker/custom-date-picker.js:309-311 | a single digit is padded to two and kept |
| DatePicker.FormatClearsTooLarge | blocks/form/components/custom-date-picker/custom-date-picker.js:317-320 | a digit string denoting more than the upper bound is cleared |
| DatePicker.FormatClearsExactlyTooLarge | blocks/form/components/custom-date-picker/custom-date-picker.js:317-326 | a digit string of two or more characters is cleared if and only if it denotes more than the upper bound |
| DatePicker.FormatKeepsZero | blocks/form/components/custom-date-picker/custom-date-picker.js:318-319 | "00" survives validation as day and as month, because 0 is falsy |
| DatePicker.ComposeDate | blocks/form/components/custom-date-picker/custom-date-picker.js:342-348 | the date starts with the year and a '-', has a '-' after a month of at most two characters, and is six characters longer than the year when month and day have at most two |
| DatePicker.Committed | blocks/form/components/custom-date-picker/custom-date-picker.js:346-373 | an update sends at most one change event, never binds or unbinds the model, and leaves the hidden input unchanged, empty, or holding the composed date |
| DatePicker.CommittedDeterministic | blocks/form/components/custom-date-picker/custom-date-picker.js:346-373 | the binding after an update is determined by the binding before it and the segments it reads |
| DatePicker.ComposedDateSplits | blocks/form/components/custom-date-picker/custom-date-picker.js:342-348 | splitting the composed date on '-' gives the year and the padded month and day |
| DatePicker.SplitDateRecomposes | blocks/form/components/custom-date-picker/custom-date-picker.js:385-390 | a three-part value with two-character month and day is rebuilt exactly by composing its parts |
| DatePicker.ApplyValue | blocks/form/components/custom-date-picker/custom-date-picker.js:379-392 | a three-part value becomes year, month and day; any other value, an empty one, or missing inputs change nothing; flags and display never change |
| DatePicker.ApplyEnabled | blocks/form/components/custom-date-picker/custom-date-picker.js:405-413 | a defined `enabled` sets all three segments and the picker to disabled exactly when it is falsy; nothing else changes |
| DatePicker.ApplyReadOnly | blocks/form/components/custom-date-picker/custom-date-picker.js:415-422 | a defined `readOnly` sets the three segments' readOnly and the picker's disabled to its truth value; nothing else changes |
| DatePicker.ApplyVisible | blocks/form/components/custom-date-picker/custom-date-picker.js:424-427 | a defined `visible` shows ('') or hides ('none') the wrapper; nothing else changes |
| DatePicker.ApplyState | blocks/form/components/custom-date-picker/custom-date-picker.js:397-428 | the rendered view, field by field, for each combination of present and absent state properties |
| DatePicker.ApplyStateIdempotent | blocks/form/components/custom-date-picker/custom-date-picker.js:397-428 | rendering the same state twice equals rendering it once |
| DatePicker.ReadOnlyFalseReenablesPicker | blocks/form/components/custom-date-picker/custom-date-picker.js:405-422 | with `enabled: false` and `readOnly: false` the segments are disabled but the picker is enabled |
| DatePicker.CustomDatePickerComponent.constructor | blocks/form/components/custom-date-picker/custom-date-picker.js:18-238 | the component starts with empty, enabled segments, an enabled picker, no bound model, the hidden input holding the native input's value, and the wrapper's display as the page left it |
| DatePicker.CustomDatePickerComponent.UpdateModelValue | blocks/form/components/custom-date-picker/custom-date-picker.js:341-374 | a four-character year and an accepted date publish the date to the hidden input (one change event) and to a bound model; an incomplete year clears both; otherwise nothing changes |
| DatePicker.CustomDatePickerComponent.OnDayInput | blocks/form/components/custom-date-picker/custom-date-picker.js:245-254 | the day keeps only the typed digits, and the model is then updated |
| DatePicker.CustomDatePickerComponent.OnMonthInput | blocks/form/components/custom-date-picker/custom-date-picker.js:256-265 | the month keeps only the typed digits, and the model is then updated |
| DatePicker.CustomDatePickerComponent.OnYearInput | blocks/form/components/custom-date-picker/custom-date-picker.js:267-271 | the year keeps only the typed digits, and the model is then updated |
| DatePicker.CustomDatePickerComponent.PadAndRangeCheck | blocks/form/components/custom-date-picker/custom-date-picker.js:309-326 | day and month become their FormatSegment with bounds 31 and 12; their flags are kept |
| DatePicker.CustomDatePickerComponent.ValidateAndFormat | blocks/form/components/custom-date-picker/custom-date-picker.js:308-336 | day and month are formatted, the year is left alone, then the model is updated from the formatted segments |
| DatePicker.CustomDatePickerComponent.UpdateInputsFromValue | blocks/form/components/custom-date-picker/custom-date-picker.js:379-392 | the view is ApplyValue of the old view |
| DatePicker.CustomDatePickerComponent.OnPickerChange | blocks/form/components/custom-date-picker/custom-date-picker.js:214-231 | a non-empty picked value goes to the segments, to the hidden input (one change event) and to a bound model; an empty one changes nothing |
| DatePicker.CustomDatePickerComponent.UpdateView | blocks/form/components/custom-date-picker/custom-date-picker.js:397-428 | a missing state changes nothing; otherwise the view becomes ApplyState of the old view |
| DatePicker.CustomDatePickerComponent.SetEnabled | blocks/form/components/custom-date-picker/custom-date-picker.js:405-413 | the view becomes ApplyEnabled of the old view |
| DatePicker.CustomDatePickerComponent.SetReadOnly | blocks/form/components/custom-date-picker/custom-date-picker.js:415-422 | the view becomes ApplyReadOnly of the old view |
| DatePicker.CustomDatePickerComponent.SetVisible | blocks/form/components/custom-date-picker/custom-date-picker.js:424-427 | the view becomes ApplyVisible of the old view |
| DatePicker.IsWatched | blocks/form/components/custom-date-picker/custom-date-picker.js:442 | a property name is watched if and only if it is one of the strings in `propertyChanges` (line 26): value, enabled, readOnly, visible |
| DatePicker.CustomDatePickerComponent.OnModelChange | blocks/form/components/custom-date-picker/custom-date-picker.js:440-446 | a change event re-renders the model's state if and only if one of its property names is value, enabled, readOnly or visible |
| DatePicker.CustomDatePickerComponent.AttachModel | blocks/form/components/custom-date-picker/custom-date-picker.js:468-473 | the model is bound and its state is rendered |
| FormFunctions.GetFullName | blocks/form/functions.js:8-10 | the result is the trim of first name, one space, last name |
| FormFunctions.FullNameHasNoOuterSpace | blocks/form/functions.js:8-10 | a full name neither starts nor ends with whitespace |
| FormFunctions.TrimOfUnpadded | blocks/form/functions.js:9 | a string without whitespace at either end is its own trim |
| FormFunctions.FullNameOfPlainNames | blocks/form/functions.js:8-10 | names without outer whitespace are joined by exactly one space |
| FormFunctions.FullNameWithoutLastName | blocks/form/functions.js:8-10 | an empty last name gives the first name with no trailing space |
| FormFunctions.Substring | blocks/form/functions.js:56 | `substring(start)` is the suffix from start, or empty past the end |
| FormFunctions.MaskMobileNumber | blocks/form/functions.js:50-57 | a falsy input gives ""; otherwise a space and five '*', then the stringified input from index 5, with the exact length |
| FormFunctions.MaskKeepsOnlyTheTail | blocks/form/functions.js:54-56 | for five or more characters the mask is one longer than the input, and the first five characters plus what follows the mask rebuild the input |
| FormFunctions.MaskShortNumber | blocks/form/functions.js:54-56 | a truthy input of at most five characters gives the bare mask |
| FormFunctions.Days | blocks/form/functions.js:32-43 | 0 when either time is NaN; otherwise the whole number of days in the distance between the times |
| FormFunctions.WholeDaysUnique | blocks/form/functions.js:41-42 | the number of whole days in a distance is unique |
| FormFunctions.DaysSymmetric | blocks/form/functions.js:41-42 | swapping the arguments does not change the result |
| FormFunctions.DaysOfSpan | blocks/form/functions.js:41-42 | times n days and less than a day more apart are n days apart, in either order |
| FormFunctions.JoinedEntry | blocks/form/functions.js:19-21 | an array entry becomes a non-array; any other entry is unchanged |
| FormFunctions.SubmitFormArrayToString | blocks/form/functions.js:16-24 | the key set is kept, every array entry becomes its elements joined with ',', other entries are unchanged, no array remains, and the data is submitted validated as JSON |
| RuleEngineWorker.LiveMessages | blocks/form/rules/RuleEngineWorker.js:62-69 | one live message per event, in order |
| RuleEngineWorker.LiveMessagesDeliver | blocks/form/rules/RuleEngineWorker.js:73-84 | the live messages carry exactly the field and the form changes of the events, in order |
| RuleEngineWorker.RuleEngine.constructor | blocks/form/rules/RuleEngineWorker.js:105-113 | both buffers are empty, the worker is before the restore, and the `init` snapshot is the only posted message |
| RuleEngineWorker.RuleEngine.OnFieldChanged | blocks/form/rules/RuleEngineWorker.js:73-84 | live: the change is posted; after restoreState: it joins the post-restore buffer; before: it joins the first buffer; nothing else changes |
| RuleEngineWorker.RuleEngine.OnFormChange | blocks/form/rules/RuleEngineWorker.js:62-69 | a form-level change is posted only when live |
| RuleEngineWorker.RuleEngine.Receive | blocks/form/rules/RuleEngineWorker.js:57-69 | one event goes to the buffer of the current phase, or to the outbox when live |
| RuleEngineWorker.RuleEngine.Deliver | blocks/form/rules/RuleEngineWorker.js:57-84 | a run of events extends the buffer of the current phase by their field changes, or the outbox by their live messages |
| RuleEngineWorker.RuleEngine.GetFieldChanges | blocks/form/rules/RuleEngineWorker.js:91-93 | returns the pre-restore buffer itself, the list BeginRestore posts with restoreState |
| RuleEngineWorker.RuleEngine.GetCustomFunctionsPath | blocks/form/rules/RuleEngineWorker.js:95-97 | the configured path when it is truthy, else '../functions.js'; always truthy |
| RuleEngineWorker.RuleEngine.Dispatch | blocks/form/rules/RuleEngineWorker.js:114-116 | a runtime message is posted unchanged |
| RuleEngineWorker.RuleEngine.Prefill | blocks/form/rules/RuleEngineWorker.js:127-131 | fetch if and only if `fd:formDataEnabled` is exactly true, with the form id and search; import if and only if fetched and the result is truthy |
| RuleEngineWorker.RuleEngine.BeginRestore | blocks/form/rules/RuleEngineWorker.js:133-140 | restoreState is posted with the first buffer, and the post-restore phase begins |
| RuleEngineWorker.RuleEngine.FinishRestore | blocks/form/rules/RuleEngineWorker.js:144-153 | the post-restore batch and then sync-complete are posted, the batch is emptied, and the worker is live |
| RuleEngineWorker.RuleEngine.Decorated | blocks/form/rules/RuleEngineWorker.js:125-154 | started before the restore, it posts restoreState with every change so far, the batch from the yield, then sync-complete, and leaves the worker live |
| RuleEngineWorker.SessionHeadDelivers | blocks/form/rules/RuleEngineWorker.js:133-153 | the restore messages carry the pre-restore changes, then the yield's changes, and no form changes |
| RuleEngineWorker.Session | blocks/form/rules/RuleEngineWorker.js:102-154 | the posted messages of a whole session are init, restoreState, the batch, sync-complete, then one live message per later event; the prefill calls are as in Prefill; the worker ends live |
| RuleEngineWorker.SessionDeliversEveryChangeOnce | blocks/form/rules/RuleEngineWorker.js:27-40 | across a session every field change reaches the main thread exactly once, in arrival order; exactly the live phase's form changes are forwarded |
| RuleEngineWorker.SessionMessageOrder | blocks/form/rules/RuleEngineWorker.js:27-40 | restoreState, the batch and sync-complete are messages 2, 3 and 4 and occur once each; only live messages follow |

## Left out

- DOM construction, styling, focus movement, `setTimeout` focus juggling, backspace
  navigation and `showPicker` in `createKeyboardInputs` are not modelled. They are UI
  plumbing. The blur handler's check that focus has left the component is the caller's
  decision to call `ValidateAndFormat`.
- The `maxLength` of the keyboard inputs is not modelled. A handler may receive any typed
  string.
- `createFormInstance`, `importData`, `waitForPromises` and `getState` (from `afb-runtime`)
  are not modelled, nor are `fetchData`, `registerCustomFunctions` and `getLogLevelFromURL`.
  They are foreign code. Their results are parameters (`fetched`, `restored`, the events),
  and the calls the worker makes are returned (`fetch`, `imported`).
- The asynchronous `onmessage` transport is not modelled. Structured cloning by
  `postMessage` becomes value semantics. The `customFunctionRegistered` gate
  (blocks/form/rules/RuleEngineWorker.js:156-163), which delays `init` until the custom
  functions are registered, is also left out. `Session` assumes `init` was handled before
  `decorated`.
- RuleEngineWorker.RuleEngine.Decorated: the output is stated only when the handler starts
  before the restore. A second `decorated` command is not guarded in the source and is not
  analysed. The first buffer is never cleared. The handler here assumes that `fetchData`
  resolves, `importData` returns and `waitForPromises` settles
  (blocks/form/rules/RuleEngineWorker.js:128-132). None of them is caught or timed out in the
  source. If the fetch rejects or `importData` throws, the handler stops before
  `restoreState`, and nothing more is posted. If `waitForPromises` never settles, the handler
  never resumes. Neither outcome is modelled.
- RuleEngineWorker.Session: it makes the same assumption as `Decorated`. Without it, `init`
  is the only message the session posts, or the session stalls after it.
- RuleEngineWorker.Session: `Session` never calls `Dispatch`. No code in the worker calls
  `ruleEngine.dispatch` (set at blocks/form/rules/RuleEngineWorker.js:114-116), and the
  wrapper is never handed to the runtime, so no dispatched message can appear in a session.
- `new Date(s)` parsing is not modelled. Its validity is the abstract `dateAccepted`, and its
  time is the abstract `parse` in `days`.
- FormFunctions.Days: an argument that is neither a string nor a Date (where `getTime` would
  throw) is not modelled. Times are whole milliseconds.
- Numbers are modelled as integers plus NaN. Fractional numbers, `-0`, and the exponent
  notation of `ToString` for magnitudes of 10^21 and above are out of the model.
- ToString of an object is always "[object Object]". Custom `toString` methods are not
  modelled.
- The `customEvent` subscription in `attachEventListeners` is not modelled. `customEvent` is
  always '', so that branch never runs.
- `initialize`'s first `updateView(fieldJson)` is `UpdateView` applied to the field JSON.
  It has no member of its own.
- The hidden input's `change` event is a counter (`changeEvents`). What its listeners do
  is not modelled.
- `startTwentyOneSecondTimer` is not modelled. It depends on `setInterval`, a global timer
  registry and DOM lookups.
- DatePicker.CustomDatePickerComponent.constructor: the constructor here stands for the
  JavaScript constructor (lines 18-36, where every input is `null`) followed by
  `createKeyboardInputs` (lines 41-238), which creates the inputs; its contract describes the
  state after both.
- StripNonDigitsKeepsDigits: states the multiplicities only; the order of the kept digits is
  stated by StripNonDigitsAppend together with StripNonDigitsOfChar.
- Strings are sequences of Unicode scalar values. JavaScript's `.length`, `padStart` and
  `substring` count UTF-16 code units, so for characters outside the Basic Multilingual Plane
  the lengths, the padding and the position of `substring(5)` differ from the model.
- `Num(n)` holds every integer exactly. JavaScript numbers lose integer precision above 2^53,
  so a large numeric `mobileNumber` stringifies differently there.
- `FieldState.value` is a string. A truthy non-string `state.value`, on which `value.split`
  throws, is outside the model.
- Writing `fieldModel.value` is a plain write to the bound model field. In the runtime the
  write goes to the form model, whose `change` subscription (lines 440-446) may re-enter
  `updateView`; that re-entry is not modelled.
- The end-to-end browser tests are not part of this model.
