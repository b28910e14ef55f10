/** What react-hook-form contributes to the forms: a field validator answers
    `true` or a message, `required` rejects the empty value, and a date input
    holds either nothing or a picked calendar date. */
module Forms {

  /** A validator's answer: `true`, or the message shown under the field. */
  datatype Validation = Accepted | Rejected(message: string)

  /** The value of an `<input type="date">`: empty, or the picked day's text
      (`YYYY-MM-DD`) together with the instant `new Date(text)` denotes, in
      milliseconds since the epoch (midnight UTC of that day). */
  datatype DateInput = Empty | Picked(text: string, ms: int)

  /** The date input's value is truthy: a day has been picked. */
  predicate Filled(d: DateInput) {
    d.Picked? && d.text != ""
  }

  /** The `required` rule: a form value is missing when it is the empty string. */
  function Required(value: string, message: string): (v: Validation)
    ensures v.Accepted? <==> value != ""
    ensures v.Rejected? ==> v.message == message
  {
    if value == "" then Rejected(message) else Accepted
  }

  /** A field registered with `required` and a further rule: the further rule
      runs only once the value is present. */
  function RequiredThen(value: string, message: string, rule: Validation): (v: Validation)
    ensures v.Accepted? <==> value != "" && rule.Accepted?
  {
    if value == "" then Rejected(message) else rule
  }

  /** Every rule in the list accepts its field. */
  predicate AllAccepted(checks: seq<(string, Validation)>) {
    forall i :: 0 <= i < |checks| ==> checks[i].1.Accepted?
  }

  /** The rules of two groups of fields all accept exactly when each group's do. */
  lemma AllAcceptedAppend(first: seq<(string, Validation)>, second: seq<(string, Validation)>)
    ensures AllAccepted(first + second) <==> AllAccepted(first) && AllAccepted(second)
  {
    if AllAccepted(first) && AllAccepted(second) {
      forall i | 0 <= i < |first + second|
        ensures (first + second)[i].1.Accepted?
      {
        if i >= |first| {
          assert (first + second)[i] == second[i - |first|];
        }
      }
    }
    if AllAccepted(first + second) {
      forall i | 0 <= i < |first|
        ensures first[i].1.Accepted?
      {
        assert (first + second)[i] == first[i];
      }
      forall i | 0 <= i < |second|
        ensures second[i].1.Accepted?
      {
        assert (first + second)[|first| + i] == second[i];
      }
    }
  }

  /** `formState.errors` after validating the fields in order: each rejected
      field maps to its message. `handleSubmit` calls the submit handler only
      when there are none. */
  function Errors(checks: seq<(string, Validation)>): (errors: map<string, string>)
    ensures errors == map[] <==> forall i :: 0 <= i < |checks| ==> checks[i].1.Accepted?
    ensures forall i :: 0 <= i < |checks| && checks[i].1.Rejected? ==> checks[i].0 in errors
    ensures forall field :: field in errors ==> exists i :: 0 <= i < |checks| && checks[i].0 == field && checks[i].1.Rejected?
  {
    if checks == [] then map[]
    else
      var rest := Errors(checks[1..]);
      assert forall i :: 1 <= i < |checks| ==> checks[i] == checks[1..][i - 1];
      if checks[0].1.Rejected? then
        var errors := rest[checks[0].0 := checks[0].1.message];
        assert checks[0].0 in errors;
        errors
      else rest
  }
}
