/** The three-segment keyboard date entry (blocks/form/components/custom-date-picker/custom-date-picker.js).

    The component keeps a day, a month and a year input, a hidden input that carries the
    submitted `YYYY-MM-DD` value, an optional binding to the form model's field, a native
    calendar picker and the wrapper's display style. DOM elements become fields holding their
    `value`, `disabled` and `readOnly`; whether `new Date(s)` yields a valid time is the
    abstract predicate `dateAccepted`. */
module DatePicker {
  import opened Js

  /** One of the three keyboard inputs. */
  datatype Segment = Segment(value: string, disabled: bool, readOnly: bool)

  /** What the component shows: the three segments, the calendar picker's `disabled`, and the
      wrapper's `style.display`. */
  datatype ViewState = ViewState(day: Segment, month: Segment, year: Segment, pickerDisabled: bool, display: string)

  /** The hidden input's value, the bound model field's value (None while no model is bound),
      and how many `change` events have been dispatched on the hidden input. */
  datatype Binding = Binding(hidden: string, model: Option<string>, changeEvents: nat)

  /** A field's state as `updateView` reads it: `value` is "" when absent, and the other
      properties are Undefined when absent. */
  datatype FieldState = FieldState(value: string, enabled: Value, readOnly: Value, visible: Value)

  /** The model properties whose change re-renders the component (`propertyChanges`). */
  const WatchedProperties: seq<string> := ["value", "enabled", "readOnly", "visible"]

  /** `propertyChanges.includes(change?.propertyName)`: a string naming one of the four
      watched properties; a missing or non-string name is never watched. */
  predicate IsWatched(propertyName: Value)
    ensures IsWatched(propertyName) <==>
      propertyName == Str("value") || propertyName == Str("enabled")
      || propertyName == Str("readOnly") || propertyName == Str("visible")
  {
    propertyName.Str? && propertyName.s in WatchedProperties
  }

  // ---------------------------------------------------------------------------
  // Segment text

  /** `s.replace(/\D/g, '')`: keep the ASCII decimal digits, in order. */
  function StripNonDigits(s: string): (r: string)
    ensures AllDigits(r) && |r| <= |s|
    ensures AllDigits(s) ==> r == s
  {
    if s == [] then "" else (if IsDigit(s[0]) then [s[0]] else "") + StripNonDigits(s[1..])
  }

  /** Stripping removes exactly the non-digits: every digit keeps its number of occurrences. */
  lemma {:induction false} StripNonDigitsKeepsDigits(s: string, c: char)
    ensures multiset(StripNonDigits(s))[c] == if IsDigit(c) then multiset(s)[c] else 0
  {
    if s != [] {
      StripNonDigitsKeepsDigits(s[1..], c);
      assert s == [s[0]] + s[1..];
      assert multiset(s) == multiset([s[0]]) + multiset(s[1..]);
    }
  }

  /** One character on its own: a digit is kept, anything else is dropped. */
  lemma StripNonDigitsOfChar(c: char)
    ensures StripNonDigits([c]) == if IsDigit(c) then [c] else ""
  {
    assert [c][1..] == "";
  }

  /** Stripping works piece by piece, so the digits that remain keep their input order;
      together with StripNonDigitsOfChar this determines the result for every input. */
  lemma {:induction false} StripNonDigitsAppend(a: string, b: string)
    ensures StripNonDigits(a + b) == StripNonDigits(a) + StripNonDigits(b)
  {
    if a == [] {
      assert a + b == b;
    } else {
      assert (a + b)[0] == a[0] && (a + b)[1..] == a[1..] + b;
      StripNonDigitsAppend(a[1..], b);
    }
  }

  /** `parseInt` of a day or month gives a nonzero number outside 1..hi: the case in which
      validateAndFormat clears the segment. NaN and 0 are falsy and never cleared. */
  predicate OutOfRange(p: Option<int>, hi: int) {
    p.Some? && p.value != 0 && (p.value < 1 || p.value > hi)
  }

  /** validateAndFormat on the day (hi = 31) or the month (hi = 12): pad a one-character value
      with '0', then clear it when it parses out of range. */
  function FormatSegment(s: string, hi: int): (r: string)
    ensures !OutOfRange(ParseInt(r), hi)
    ensures r == "" || r == s || (|s| == 1 && r == "0" + s)
    ensures var padded := if |s| == 1 then "0" + s else s;
      r == "" <==> s == "" || OutOfRange(ParseInt(padded), hi)
    ensures var padded := if |s| == 1 then "0" + s else s;
      r != "" ==> r == padded
  {
    var padded := if |s| == 1 then PadStart(s, 2, '0') else s;
    assert |s| == 1 ==> padded == "0" + s;
    if OutOfRange(ParseInt(padded), hi) then "" else padded
  }

  /** A segment of two or more characters that parses to NaN or to 0 is kept as it is:
      NaN and 0 are falsy, so the range check does not apply. */
  lemma FormatKeepsFalsy(s: string, hi: int)
    requires |s| >= 2 && (ParseInt(s).None? || ParseInt(s) == Some(0))
    ensures FormatSegment(s, hi) == s
  {
  }

  /** A digit string of two or more characters denoting at most hi (0 included) is kept. */
  lemma FormatKeepsInRange(s: string, hi: int)
    requires |s| >= 2 && AllDigits(s) && DecimalValue(s) <= hi
    ensures FormatSegment(s, hi) == s
  {
    ParseDigits(s);
    assert !OutOfRange(ParseInt(s), hi);
  }

  /** A single digit is padded to two, and kept whenever hi is at least 9. */
  lemma FormatPadsOneDigit(s: string, hi: int)
    requires |s| == 1 && IsDigit(s[0]) && hi >= 9
    ensures FormatSegment(s, hi) == "0" + s
  {
    var padded := "0" + s;
    assert AllDigits(padded);
    ParseDigits(padded);
    assert padded[..1] == "0" && "0"[..0] == "";
    assert DecimalValue("0") == 0;
    assert DecimalValue(padded) == DigitValue(s[0]);
    assert !OutOfRange(ParseInt(padded), hi);
  }

  /** A digit string denoting a number above hi is cleared. */
  lemma FormatClearsTooLarge(s: string, hi: int)
    requires |s| >= 2 && AllDigits(s) && DecimalValue(s) > hi && hi >= 0
    ensures FormatSegment(s, hi) == ""
  {
    ParseDigits(s);
  }

  /** The `"00"` day survives validation, because the guard `day && …` treats 0 as false. */
  lemma FormatKeepsZero()
    ensures FormatSegment("00", 31) == "00" && FormatSegment("00", 12) == "00"
  {
    FormatKeepsInRange("00", 12);
    FormatKeepsInRange("00", 31);
  }

  /** For a digit string of two or more characters, validation clears it exactly when it
      denotes more than hi. */
  lemma FormatClearsExactlyTooLarge(s: string, hi: int)
    requires |s| >= 2 && AllDigits(s) && hi >= 0
    ensures FormatSegment(s, hi) == "" <==> DecimalValue(s) > hi
  {
    if DecimalValue(s) > hi {
      FormatClearsTooLarge(s, hi);
    } else {
      FormatKeepsInRange(s, hi);
    }
  }

  // ---------------------------------------------------------------------------
  // The submitted value

  /** The `YYYY-MM-DD` string updateModelValue builds, day and month padded to two. */
  function ComposeDate(year: string, month: string, day: string): (r: string)
    ensures |r| >= |year| + 6
    ensures |month| <= 2 && |day| <= 2 ==> |r| == |year| + 6
    ensures r[..|year|] == year && r[|year|] == '-'
    ensures |month| <= 2 ==> r[|year| + 3] == '-'
  {
    year + "-" + PadStart(month, 2, '0') + "-" + PadStart(day, 2, '0')
  }

  lemma PadStartKeepsOut(s: string, n: nat, fill: char, c: char)
    requires c !in s && c != fill
    ensures c !in PadStart(s, n, fill)
  {
    var r := PadStart(s, n, fill);
    if |s| < n {
      forall k | 0 <= k < |r| ensures r[k] != c {
        if k >= n - |s| {
          assert r[k] == r[n - |s|..][k - (n - |s|)];
        }
      }
    }
  }

  lemma JoinThree(a: string, b: string, c: string)
    ensures JoinStrings([a, b, c], "-") == a + "-" + b + "-" + c
  {
    assert [a, b, c][1..] == [b, c] && [b, c][1..] == [c];
    assert JoinStrings([c], "-") == c;
    assert JoinStrings([b, c], "-") == b + "-" + c;
  }

  /** Splitting the composed value on '-' gives back the year and the padded month and day,
      so updateInputsFromValue applied to it restores the (padded) segments. */
  lemma {:induction false} ComposedDateSplits(year: string, month: string, day: string)
    requires '-' !in year && '-' !in month && '-' !in day
    ensures Split(ComposeDate(year, month, day), '-') == [year, PadStart(month, 2, '0'), PadStart(day, 2, '0')]
  {
    var parts := [year, PadStart(month, 2, '0'), PadStart(day, 2, '0')];
    PadStartKeepsOut(month, 2, '0', '-');
    PadStartKeepsOut(day, 2, '0', '-');
    JoinThree(parts[0], parts[1], parts[2]);
    SplitJoin(parts, '-');
  }

  /** A value of three '-'-separated parts whose month and day have two characters is
      rebuilt exactly by composing its parts again. */
  lemma {:induction false} SplitDateRecomposes(value: string)
    requires |Split(value, '-')| == 3
    requires |Split(value, '-')[1]| == 2 && |Split(value, '-')[2]| == 2
    ensures var p := Split(value, '-'); ComposeDate(p[0], p[1], p[2]) == value
  {
    var p := Split(value, '-');
    JoinSplit(value, '-');
    JoinThree(p[0], p[1], p[2]);
    assert p == [p[0], p[1], p[2]];
  }

  /** What updateModelValue does to the binding, given the segments it reads. */
  ghost predicate Committed(before: Binding, after: Binding, day: string, month: string, year: string,
                            dateAccepted: string -> bool)
    ensures Committed(before, after, day, month, year, dateAccepted) ==>
      && before.changeEvents <= after.changeEvents <= before.changeEvents + 1
      && (after.model.Some? <==> before.model.Some?)
      && (after.hidden == before.hidden || after.hidden == "" || after.hidden == ComposeDate(year, month, day))
  {
    var date := ComposeDate(year, month, day);
    if |year| != 4 then
      // incomplete: clear the hidden input, and the model only when it holds something
      && after.hidden == "" && after.changeEvents == before.changeEvents
      && after.model == (if before.model.Some? && before.model.value != "" then Some("") else before.model)
    else if dateAccepted(date) then
      && after.hidden == date && after.changeEvents == before.changeEvents + 1
      && after.model == (if before.model.Some? then Some(date) else None)
    else
      after == before
  }

  /** What updateModelValue leaves behind is determined by what it starts from and reads. */
  lemma CommittedDeterministic(before: Binding, after1: Binding, after2: Binding,
                               day: string, month: string, year: string, dateAccepted: string -> bool)
    requires Committed(before, after1, day, month, year, dateAccepted)
    requires Committed(before, after2, day, month, year, dateAccepted)
    ensures after1 == after2
  {
  }

  // ---------------------------------------------------------------------------
  // Rendering

  /** updateInputsFromValue: with inputs present and a value of exactly three '-'-separated
      parts, show them as year, month and day. */
  function ApplyValue(v: ViewState, value: string, hasInputs: bool): (r: ViewState)
    ensures r.pickerDisabled == v.pickerDisabled && r.display == v.display
    ensures r.day.disabled == v.day.disabled && r.day.readOnly == v.day.readOnly
    ensures r.month.disabled == v.month.disabled && r.month.readOnly == v.month.readOnly
    ensures r.year.disabled == v.year.disabled && r.year.readOnly == v.year.readOnly
    ensures value == "" || !hasInputs || |Split(value, '-')| != 3 ==> r == v
    ensures value != "" && hasInputs && |Split(value, '-')| == 3 ==>
      [r.year.value, r.month.value, r.day.value] == Split(value, '-')
  {
    if value == "" || !hasInputs then v
    else
      var parts := Split(value, '-');
      if |parts| == 3 then
        v.(year := v.year.(value := parts[0]), month := v.month.(value := parts[1]), day := v.day.(value := parts[2]))
      else v
  }

  /** The `enabled` step of updateView: the three segments and the picker take `!enabled`. */
  function ApplyEnabled(v: ViewState, enabled: Value, hasInputs: bool): (r: ViewState)
    ensures r.day.value == v.day.value && r.month.value == v.month.value && r.year.value == v.year.value
    ensures r.day.readOnly == v.day.readOnly && r.month.readOnly == v.month.readOnly && r.year.readOnly == v.year.readOnly
    ensures r.display == v.display
    ensures enabled == Undefined || !hasInputs ==> r == v
    ensures enabled != Undefined && hasInputs ==>
      r.day.disabled == r.month.disabled == r.year.disabled == r.pickerDisabled == !Truthy(enabled)
  {
    if enabled != Undefined && hasInputs then
      var dis := !Truthy(enabled);
      v.(day := v.day.(disabled := dis), month := v.month.(disabled := dis),
         year := v.year.(disabled := dis), pickerDisabled := dis)
    else v
  }

  /** The `readOnly` step of updateView: the three segments take `readOnly` and the picker's
      `disabled` takes it too. */
  function ApplyReadOnly(v: ViewState, readOnly: Value, hasInputs: bool): (r: ViewState)
    ensures r.day.value == v.day.value && r.month.value == v.month.value && r.year.value == v.year.value
    ensures r.day.disabled == v.day.disabled && r.month.disabled == v.month.disabled && r.year.disabled == v.year.disabled
    ensures r.display == v.display
    ensures readOnly == Undefined || !hasInputs ==> r == v
    ensures readOnly != Undefined && hasInputs ==>
      r.day.readOnly == r.month.readOnly == r.year.readOnly == r.pickerDisabled == Truthy(readOnly)
  {
    if readOnly != Undefined && hasInputs then
      var ro := Truthy(readOnly);
      v.(day := v.day.(readOnly := ro), month := v.month.(readOnly := ro),
         year := v.year.(readOnly := ro), pickerDisabled := ro)
    else v
  }

  /** The `visible` step of updateView: the wrapper is shown or hidden, nothing else changes. */
  function ApplyVisible(v: ViewState, visible: Value): (r: ViewState)
    ensures r.day == v.day && r.month == v.month && r.year == v.year && r.pickerDisabled == v.pickerDisabled
    ensures r.display == if visible == Undefined then v.display else if Truthy(visible) then "" else "none"
  {
    if visible != Undefined then v.(display := if Truthy(visible) then "" else "none") else v
  }

  /** updateView for a state: value first, then `enabled`, then `readOnly` (which therefore
      decides the picker when both are given), then `visible`. */
  function ApplyState(v: ViewState, st: FieldState, hasInputs: bool): (r: ViewState)
    // a falsy value leaves the segment texts alone
    ensures st.value == "" ==> r.day.value == v.day.value && r.month.value == v.month.value && r.year.value == v.year.value
    ensures st.value != "" ==>
      (r.day.value == ApplyValue(v, st.value, hasInputs).day.value
       && r.month.value == ApplyValue(v, st.value, hasInputs).month.value
       && r.year.value == ApplyValue(v, st.value, hasInputs).year.value)
    // without inputs only the display can change
    ensures !hasInputs ==> r.day == v.day && r.month == v.month && r.year == v.year && r.pickerDisabled == v.pickerDisabled
    ensures hasInputs && st.enabled != Undefined ==>
      r.day.disabled == r.month.disabled == r.year.disabled == !Truthy(st.enabled)
    ensures st.enabled == Undefined ==>
      r.day.disabled == v.day.disabled && r.month.disabled == v.month.disabled && r.year.disabled == v.year.disabled
    ensures hasInputs && st.readOnly != Undefined ==>
      r.day.readOnly == r.month.readOnly == r.year.readOnly == r.pickerDisabled == Truthy(st.readOnly)
    ensures st.readOnly == Undefined ==>
      r.day.readOnly == v.day.readOnly && r.month.readOnly == v.month.readOnly && r.year.readOnly == v.year.readOnly
    ensures hasInputs && st.readOnly == Undefined && st.enabled != Undefined ==> r.pickerDisabled == !Truthy(st.enabled)
    ensures st.readOnly == Undefined && st.enabled == Undefined ==> r.pickerDisabled == v.pickerDisabled
    ensures r.display == if st.visible == Undefined then v.display else if Truthy(st.visible) then "" else "none"
  {
    var v1 := if st.value != "" then ApplyValue(v, st.value, hasInputs) else v;
    ApplyVisible(ApplyReadOnly(ApplyEnabled(v1, st.enabled, hasInputs), st.readOnly, hasInputs), st.visible)
  }

  /** Rendering the same state twice is the same as rendering it once. */
  lemma ApplyStateIdempotent(v: ViewState, st: FieldState, hasInputs: bool)
    ensures ApplyState(ApplyState(v, st, hasInputs), st, hasInputs) == ApplyState(v, st, hasInputs)
  {
  }

  /** `enabled: false` with `readOnly: false` leaves the calendar picker enabled while the
      three segments are disabled: `readOnly` is applied last and sets the picker alone. */
  lemma ReadOnlyFalseReenablesPicker(v: ViewState)
    ensures var r := ApplyState(v, FieldState("", Bool(false), Bool(false), Undefined), true);
      r.day.disabled && r.month.disabled && r.year.disabled && !r.pickerDisabled
  {
  }

  // ---------------------------------------------------------------------------
  // The component

  class CustomDatePickerComponent {
    /** Whether createKeyboardInputs found the native input and built the segments,
        the hidden input and the picker (they exist together or not at all). */
    const hasInputs: bool
    /** Whether `new Date(s).getTime()` is a number rather than NaN. */
    const dateAccepted: string -> bool

    var day: Segment
    var month: Segment
    var year: Segment
    var pickerDisabled: bool
    var display: string
    var hidden: string
    var model: Option<string>
    var changeEvents: nat

    function CurrentView(): ViewState
      reads this
    {
      ViewState(day, month, year, pickerDisabled, display)
    }

    function CurrentBinding(): Binding
      reads this
    {
      Binding(hidden, model, changeEvents)
    }

    /** The component after createKeyboardInputs: empty, enabled segments, no model yet, and
        the native input (now the hidden input) holding `hiddenValue`. The wrapper's
        `style.display` is the page's (`initialDisplay`): createKeyboardInputs never writes it. */
    constructor (hasInputs: bool, dateAccepted: string -> bool, hiddenValue: string, initialDisplay: string)
      ensures this.hasInputs == hasInputs && this.dateAccepted == dateAccepted
      ensures day == month == year == Segment("", false, false)
      ensures !pickerDisabled && display == initialDisplay
      ensures CurrentBinding() == Binding(hiddenValue, None, 0)
    {
      this.hasInputs := hasInputs;
      this.dateAccepted := dateAccepted;
      day, month, year := Segment("", false, false), Segment("", false, false), Segment("", false, false);
      pickerDisabled, display := false, initialDisplay;
      hidden, model, changeEvents := hiddenValue, None, 0;
    }

    /** updateModelValue: publish the composed date when the year has four characters and the
        date parses, clear when the year is incomplete, otherwise change nothing. */
    method UpdateModelValue()
      requires hasInputs
      modifies this`hidden, this`model, this`changeEvents
      ensures Committed(old(CurrentBinding()), CurrentBinding(), day.value, month.value, year.value, dateAccepted)
    {
      var d := PadStart(day.value, 2, '0');
      var m := PadStart(month.value, 2, '0');
      var y := year.value;
      if d != "" && m != "" && y != "" && |y| == 4 {
        var date := y + "-" + m + "-" + d;
        if dateAccepted(date) {
          hidden := date;
          changeEvents := changeEvents + 1;
          if model.Some? {
            model := Some(date);
          }
        }
      } else {
        hidden := "";
        if model.Some? && model.value != "" {
          model := Some("");
        }
      }
    }

    /** The day input's `input` handler: keep only digits, then update the model value. */
    method OnDayInput(typed: string)
      requires hasInputs
      modifies this`day, this`hidden, this`model, this`changeEvents
      ensures day == old(day).(value := StripNonDigits(typed)) && AllDigits(day.value)
      ensures Committed(old(CurrentBinding()), CurrentBinding(), day.value, month.value, year.value, dateAccepted)
    {
      var v := StripNonDigits(typed);
      day := day.(value := v);
      if |v| == 2 {
        day := day.(value := PadStart(v, 2, '0'));
      }
      UpdateModelValue();
    }

    /** The month input's `input` handler. */
    method OnMonthInput(typed: string)
      requires hasInputs
      modifies this`month, this`hidden, this`model, this`changeEvents
      ensures month == old(month).(value := StripNonDigits(typed)) && AllDigits(month.value)
      ensures Committed(old(CurrentBinding()), CurrentBinding(), day.value, month.value, year.value, dateAccepted)
    {
      var v := StripNonDigits(typed);
      month := month.(value := v);
      if |v| == 2 {
        month := month.(value := PadStart(v, 2, '0'));
      }
      UpdateModelValue();
    }

    /** The year input's `input` handler. */
    method OnYearInput(typed: string)
      requires hasInputs
      modifies this`year, this`hidden, this`model, this`changeEvents
      ensures year == old(year).(value := StripNonDigits(typed)) && AllDigits(year.value)
      ensures Committed(old(CurrentBinding()), CurrentBinding(), day.value, month.value, year.value, dateAccepted)
    {
      var v := StripNonDigits(typed);
      year := year.(value := v);
      UpdateModelValue();
    }

    /** The first part of validateAndFormat: pad day and month to two characters, then clear
        either when it parses out of range. */
    method PadAndRangeCheck()
      modifies this`day, this`month
      ensures day == old(day).(value := FormatSegment(old(day.value), 31))
      ensures month == old(month).(value := FormatSegment(old(month.value), 12))
    {
      var dv, mv := day.value, month.value;
      if dv != "" && |dv| == 1 {
        dv := PadStart(dv, 2, '0');
      }
      if mv != "" && |mv| == 1 {
        mv := PadStart(mv, 2, '0');
      }
      if OutOfRange(ParseInt(dv), 31) {
        dv := "";
      }
      if OutOfRange(ParseInt(mv), 12) {
        mv := "";
      }
      assert dv == FormatSegment(day.value, 31);
      assert mv == FormatSegment(month.value, 12);
      day := day.(value := dv);
      month := month.(value := mv);
    }

    /** validateAndFormat (run when focus leaves the component): pad, range-clear day and
        month, leave the year, then update the model value. */
    method ValidateAndFormat()
      requires hasInputs
      modifies this`day, this`month, this`hidden, this`model, this`changeEvents
      ensures day == old(day).(value := FormatSegment(old(day.value), 31))
      ensures month == old(month).(value := FormatSegment(old(month.value), 12))
      ensures Committed(old(CurrentBinding()), CurrentBinding(), day.value, month.value, year.value, dateAccepted)
    {
      PadAndRangeCheck();
      UpdateModelValue();
    }

    /** updateInputsFromValue. */
    method UpdateInputsFromValue(value: string)
      modifies this`day, this`month, this`year
      ensures CurrentView() == ApplyValue(old(CurrentView()), value, hasInputs)
    {
      if value == "" || !hasInputs {
        return;
      }
      var parts := Split(value, '-');
      if |parts| == 3 {
        year := year.(value := parts[0]);
        month := month.(value := parts[1]);
        day := day.(value := parts[2]);
      }
    }

    /** The calendar picker's `change` handler: a non-empty picked value goes to the segments,
        the hidden input and the model. */
    method OnPickerChange(value: string)
      requires hasInputs
      modifies this`day, this`month, this`year, this`hidden, this`model, this`changeEvents
      ensures value == "" ==> CurrentView() == old(CurrentView()) && CurrentBinding() == old(CurrentBinding())
      ensures value != "" ==>
        (CurrentView() == ApplyValue(old(CurrentView()), value, hasInputs)
         && CurrentBinding() == Binding(value, if old(model).Some? then Some(value) else None, old(changeEvents) + 1))
    {
      if value != "" {
        UpdateInputsFromValue(value);
        hidden := value;
        changeEvents := changeEvents + 1;
        if model.Some? {
          model := Some(value);
        }
      }
    }

    /** updateView; `None` stands for a missing state. */
    method UpdateView(state: Option<FieldState>)
      modifies this`day, this`month, this`year, this`pickerDisabled, this`display
      ensures CurrentView() == if state.None? then old(CurrentView()) else ApplyState(old(CurrentView()), state.value, hasInputs)
    {
      if state.None? {
        return;
      }
      var st := state.value;
      if st.value != "" {
        UpdateInputsFromValue(st.value);
      }
      SetEnabled(st.enabled);
      SetReadOnly(st.readOnly);
      SetVisible(st.visible);
    }

    /** updateView's `enabled` branch: segments and picker disabled exactly when `enabled`
        is falsy. */
    method SetEnabled(enabled: Value)
      modifies this`day, this`month, this`year, this`pickerDisabled
      ensures CurrentView() == ApplyEnabled(old(CurrentView()), enabled, hasInputs)
    {
      if enabled != Undefined {
        var disabled := !Truthy(enabled);
        if hasInputs {
          day := day.(disabled := disabled);
          month := month.(disabled := disabled);
          year := year.(disabled := disabled);
          pickerDisabled := disabled;
        }
      }
    }

    /** updateView's `readOnly` branch: the segments' `readOnly` and the picker's `disabled`. */
    method SetReadOnly(readOnly: Value)
      modifies this`day, this`month, this`year, this`pickerDisabled
      ensures CurrentView() == ApplyReadOnly(old(CurrentView()), readOnly, hasInputs)
    {
      if readOnly != Undefined {
        var ro := Truthy(readOnly);
        if hasInputs {
          day := day.(readOnly := ro);
          month := month.(readOnly := ro);
          year := year.(readOnly := ro);
          pickerDisabled := ro;
        }
      }
    }

    /** updateView's `visible` branch: the wrapper's display style. */
    method SetVisible(visible: Value)
      modifies this`display
      ensures CurrentView() == ApplyVisible(old(CurrentView()), visible)
    {
      if visible != Undefined {
        display := if Truthy(visible) then "" else "none";
      }
    }

    /** The model's `change` subscription: re-render with the model's `state` once for every
        change whose property name is watched; other changes are ignored. */
    method OnModelChange(propertyNames: seq<Value>, state: FieldState)
      modifies this`day, this`month, this`year, this`pickerDisabled, this`display
      ensures CurrentView() == if exists i :: 0 <= i < |propertyNames| && IsWatched(propertyNames[i])
        then ApplyState(old(CurrentView()), state, hasInputs) else old(CurrentView())
    {
      var i := 0;
      ghost var rendered := false;
      while i < |propertyNames|
        invariant 0 <= i <= |propertyNames|
        invariant rendered <==> exists k :: 0 <= k < i && IsWatched(propertyNames[k])
        invariant CurrentView() == if rendered then ApplyState(old(CurrentView()), state, hasInputs) else old(CurrentView())
      {
        if IsWatched(propertyNames[i]) {
          ApplyStateIdempotent(old(CurrentView()), state, hasInputs);
          UpdateView(Some(state));
          rendered := true;
        }
        i := i + 1;
      }
    }

    /** The form-model subscription callback of initialize: bind the model, whose value is the
        state's, then render its state. */
    method AttachModel(state: FieldState)
      modifies this`model, this`day, this`month, this`year, this`pickerDisabled, this`display
      ensures model == Some(state.value)
      ensures CurrentView() == ApplyState(old(CurrentView()), state, hasInputs)
    {
      model := Some(state.value);
      UpdateView(Some(state));
    }
  }
}
