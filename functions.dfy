/** The rule-editor helper functions of the form block (blocks/form/functions.js).

    The runtime calls these from rule expressions. `exportData` and `submitForm` belong to
    the runtime: their result and their call become a parameter and a returned record, and
    `new Date(s).getTime()` is the abstract `parse`, None standing for NaN. */
module FormFunctions {
  import opened Js

  // ---------------------------------------------------------------------------
  // getFullName

  /** getFullName: the template `${firstname} ${lastname}`, trimmed. */
  function GetFullName(firstname: Value, lastname: Value): (r: string)
    ensures IsTrimOf(r, ToString(firstname) + " " + ToString(lastname))
    ensures |r| <= |ToString(firstname)| + 1 + |ToString(lastname)|
  {
    Trim(ToString(firstname) + " " + ToString(lastname))
  }

  /** A full name neither starts nor ends with whitespace. */
  lemma FullNameHasNoOuterSpace(firstname: Value, lastname: Value)
    ensures var r := GetFullName(firstname, lastname);
      r == "" || (!IsWhitespace(r[0]) && !IsWhitespace(r[|r| - 1]))
  {
    var s := ToString(firstname) + " " + ToString(lastname);
    var r := GetFullName(firstname, lastname);
    var i, j :| TrimBounds(s, i, j) && r == s[i..j];
    if r != "" {
      assert r[0] == s[i] && r[|r| - 1] == s[j - 1];
    }
  }

  /** A string whose ends are not whitespace is its own trim. */
  lemma TrimOfUnpadded(s: string)
    requires s != [] && !IsWhitespace(s[0]) && !IsWhitespace(s[|s| - 1])
    ensures Trim(s) == s
  {
    assert TrimBounds(s, 0, |s|);
    assert s[0..|s|] == s;
    TrimUnique(Trim(s), s, s);
  }

  /** Two names without outer whitespace are joined by exactly one space. */
  lemma FullNameOfPlainNames(first: string, last: string)
    requires first != [] && !IsWhitespace(first[0])
    requires last != [] && !IsWhitespace(last[|last| - 1])
    ensures GetFullName(Str(first), Str(last)) == first + " " + last
  {
    var s := first + " " + last;
    assert s[0] == first[0] && s[|s| - 1] == last[|last| - 1];
    TrimOfUnpadded(s);
  }

  /** An empty last name leaves no trailing space: the result is the first name alone. */
  lemma FullNameWithoutLastName(first: string)
    requires first != [] && !IsWhitespace(first[0]) && !IsWhitespace(first[|first| - 1])
    ensures GetFullName(Str(first), Str("")) == first
  {
    var s := first + " " + "";
    assert s == first + " ";
    assert TrimBounds(s, 0, |first|);
    assert s[0..|first|] == first;
    TrimUnique(GetFullName(Str(first), Str("")), first, s);
  }

  // ---------------------------------------------------------------------------
  // maskMobileNumber

  /** `s.substring(start)` for a non-negative `start`: empty once `start` passes the end. */
  function Substring(s: string, start: nat): (r: string)
    ensures start <= |s| ==> r == s[start..]
    ensures start >= |s| ==> r == ""
  {
    if start >= |s| then "" else s[start..]
  }

  /** The masked prefix: one space and five asterisks. */
  const MaskPrefix: string := " *****"

  /** maskMobileNumber: "" for a falsy input; otherwise a space and five `*` in place of the
      first five characters of the stringified input, followed by the rest of it. */
  function MaskMobileNumber(mobileNumber: Value): (r: string)
    ensures !Truthy(mobileNumber) ==> r == ""
    ensures Truthy(mobileNumber) ==> |r| >= 6 && r[..6] == MaskPrefix
    ensures Truthy(mobileNumber) ==>
      |r| == 6 + (if |ToString(mobileNumber)| > 5 then |ToString(mobileNumber)| - 5 else 0)
    ensures Truthy(mobileNumber) ==>
      forall k :: 6 <= k < |r| ==> r[k] == ToString(mobileNumber)[k - 1]
  {
    if !Truthy(mobileNumber) then "" else MaskPrefix + Substring(ToString(mobileNumber), 5)
  }

  /** Nothing of the first five characters survives, and the first five characters
      together with what follows the mask give back the whole stringified number. */
  lemma MaskKeepsOnlyTheTail(mobileNumber: Value)
    requires Truthy(mobileNumber) && |ToString(mobileNumber)| >= 5
    ensures var s, r := ToString(mobileNumber), MaskMobileNumber(mobileNumber);
      && |r| == |s| + 1
      && s[..5] + r[6..] == s
  {
    var s, r := ToString(mobileNumber), MaskMobileNumber(mobileNumber);
    assert r[6..] == s[5..];
  }

  /** A truthy input of at most five characters is masked to the prefix alone. */
  lemma MaskShortNumber(mobileNumber: Value)
    requires Truthy(mobileNumber) && |ToString(mobileNumber)| <= 5
    ensures MaskMobileNumber(mobileNumber) == MaskPrefix
  {
  }

  // ---------------------------------------------------------------------------
  // days

  /** An argument of `days`: a string, which goes through `new Date`, or something already
      holding a time (a Date), whose `getTime()` is `time`. */
  datatype DateArg = DateString(s: string) | DateObject(time: Option<int>)

  const MsPerDay: int := 1000 * 60 * 60 * 24

  /** `getTime()` of the argument once strings are converted; None is NaN. */
  function TimeOf(d: DateArg, parse: string -> Option<int>): Option<int> {
    match d
    case DateString(s) => parse(s)
    case DateObject(t) => t
  }

  function Abs(x: int): nat {
    if x < 0 then -x else x
  }

  /** days: 0 when either time is NaN, otherwise the number of whole days in the distance
      between the two times. */
  function Days(endDate: DateArg, startDate: DateArg, parse: string -> Option<int>): (r: nat)
    ensures TimeOf(startDate, parse).None? || TimeOf(endDate, parse).None? ==> r == 0
    ensures TimeOf(startDate, parse).Some? && TimeOf(endDate, parse).Some? ==>
      var diff := Abs(TimeOf(endDate, parse).value - TimeOf(startDate, parse).value);
      r * MsPerDay <= diff < (r + 1) * MsPerDay
  {
    var start := TimeOf(startDate, parse);
    var end := TimeOf(endDate, parse);
    if start.None? || end.None? then 0
    else Abs(end.value - start.value) / MsPerDay
  }

  /** The number of whole days in a distance is unique: any n with n days <= diff < n + 1
      days is the one `days` returns. */
  lemma WholeDaysUnique(diff: nat, n: nat, m: nat)
    requires n * MsPerDay <= diff < (n + 1) * MsPerDay
    requires m * MsPerDay <= diff < (m + 1) * MsPerDay
    ensures n == m
  {
  }

  /** days does not depend on the order of its arguments. */
  lemma DaysSymmetric(a: DateArg, b: DateArg, parse: string -> Option<int>)
    ensures Days(a, b, parse) == Days(b, a, parse)
  {
    if TimeOf(a, parse).Some? && TimeOf(b, parse).Some? {
      var x, y := TimeOf(a, parse).value, TimeOf(b, parse).value;
      assert Abs(x - y) == Abs(y - x);
    }
  }

  /** Two times `n` whole days and `rest` milliseconds apart, with `rest` under a day, are
      `n` days apart in either order. */
  lemma DaysOfSpan(start: int, n: nat, rest: nat, parse: string -> Option<int>)
    requires rest < MsPerDay
    ensures var later := DateObject(Some(start + n * MsPerDay + rest));
      Days(later, DateObject(Some(start)), parse) == n
      && Days(DateObject(Some(start)), later, parse) == n
  {
    var later := DateObject(Some(start + n * MsPerDay + rest));
    var diff := n * MsPerDay + rest;
    assert Abs(start + n * MsPerDay + rest - start) == diff;
    WholeDaysUnique(diff, Days(later, DateObject(Some(start)), parse), n);
    DaysSymmetric(later, DateObject(Some(start)), parse);
  }

  // ---------------------------------------------------------------------------
  // submitFormArrayToString

  /** The one `submitForm(data, validate, contentType)` call the function makes. */
  datatype SubmitCall = SubmitCall(data: map<string, Value>, validate: bool, contentType: string)

  /** What an exported entry becomes: an array is joined with ',', anything else stays. */
  function JoinedEntry(v: Value): (r: Value)
    ensures !r.Arr?
    ensures !v.Arr? ==> r == v
  {
    if v.Arr? then Str(JoinStrings(ElementStrings(v.elems), ",")) else v
  }

  /** submitFormArrayToString: every array-valued entry of the exported `data` (keys visited
      in any order) is replaced by its elements joined with ',', and the result is submitted
      once, validated, as JSON. */
  method SubmitFormArrayToString(data: map<string, Value>) returns (call: SubmitCall)
    ensures call.data.Keys == data.Keys
    ensures forall key :: key in data && data[key].Arr? ==>
      call.data[key] == Str(JoinStrings(ElementStrings(data[key].elems), ","))
    ensures forall key :: key in data && !data[key].Arr? ==> call.data[key] == data[key]
    ensures forall key :: key in call.data ==> !call.data[key].Arr?
    ensures call.validate && call.contentType == "application/json"
  {
    var result := data;
    var pending := data.Keys;
    while pending != {}
      invariant pending <= data.Keys && result.Keys == data.Keys
      invariant forall key :: key in data && key !in pending ==> result[key] == JoinedEntry(data[key])
      invariant forall key :: key in pending ==> result[key] == data[key]
      decreases pending
    {
      var key :| key in pending;
      if result[key].Arr? {
        result := result[key := Str(JoinStrings(ElementStrings(result[key].elems), ","))];
      }
      pending := pending - {key};
    }
    call := SubmitCall(result, true, "application/json");
  }
}
