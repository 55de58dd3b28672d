/** Title and description rules (utilities/DataValidationUtility.java). */
module Validation {
  import opened Wrappers
  import opened Errors
  import opened JavaLang

  /** The messages the validator throws with (not the upper-case ErrorMessage constants). */
  const TITLE_REQUIRED := "task title can't be null or empty"
  const DESCRIPTION_REQUIRED := "task description can't be null or empty"

  /** `s == null || s.isBlank()`. */
  predicate IsNullOrBlank(s: Option<string>) {
    s.None? || IsBlank(s.value)
  }

  /** The rule both validators share: reject a null or blank value unless allowed,
      give null for a null or blank value, otherwise the trimmed value. */
  function CheckText(s: Option<string>, allowed: bool, message: string): Result<Option<string>> {
    if IsNullOrBlank(s) && !allowed then Err(InvalidRequestAttributeValue(message))
    else if IsNullOrBlank(s) then Ok(None)
    else Ok(Some(Trim(s.value)))
  }

  function ValidateTaskTitle(taskTitle: Option<string>, allowed: bool): (r: Result<Option<string>>)
    ensures r.Err? <==> IsNullOrBlank(taskTitle) && !allowed
    ensures r.Err? ==> r.error == InvalidRequestAttributeValue(TITLE_REQUIRED)
    ensures r == Ok(None) <==> IsNullOrBlank(taskTitle) && allowed
    ensures r.Ok? && r.value.Some? ==>
      taskTitle.Some? && r.value.value == Trim(taskTitle.value) && r.value.value != []
  {
    if taskTitle.Some? then
      BlankIffTrimEmpty(taskTitle.value);
      CheckText(taskTitle, allowed, TITLE_REQUIRED)
    else CheckText(taskTitle, allowed, TITLE_REQUIRED)
  }

  function ValidateTaskDescription(taskDescription: Option<string>, allowed: bool): (r: Result<Option<string>>)
    ensures r.Err? <==> IsNullOrBlank(taskDescription) && !allowed
    ensures r.Err? ==> r.error == InvalidRequestAttributeValue(DESCRIPTION_REQUIRED)
    ensures r == Ok(None) <==> IsNullOrBlank(taskDescription) && allowed
    ensures r.Ok? && r.value.Some? ==>
      taskDescription.Some? && r.value.value == Trim(taskDescription.value) && r.value.value != []
  {
    if taskDescription.Some? then
      BlankIffTrimEmpty(taskDescription.value);
      CheckText(taskDescription, allowed, DESCRIPTION_REQUIRED)
    else CheckText(taskDescription, allowed, DESCRIPTION_REQUIRED)
  }

  /** With null and blank values allowed, neither validator ever throws. */
  lemma AllowedNeverFails(s: Option<string>)
    ensures ValidateTaskTitle(s, true).Ok? && ValidateTaskDescription(s, true).Ok?
  {
  }

  /** A value the validator returns is already clean: re-validating it returns
      it unchanged, it has no whitespace at either end and is not blank. */
  lemma ValidatedTitleIsClean(s: Option<string>, allowed: bool)
    requires ValidateTaskTitle(s, allowed).Ok? && ValidateTaskTitle(s, allowed).value.Some?
    ensures var v := ValidateTaskTitle(s, allowed).value.value;
      !IsSpace(v[0]) && !IsSpace(v[|v| - 1]) && !IsBlank(v)
      && ValidateTaskTitle(Some(v), false) == Ok(Some(v))
  {
    var v := Trim(s.value);
    TrimShape(s.value);
    TrimIdempotent(s.value);
    BlankIffTrimEmpty(v);
  }

  /** A title with whitespace around it is accepted and returned without it:
      `"  Valid Title  "` gives `"Valid Title"`. */
  lemma PaddedTitleIsTrimmed(a: string, w: string, b: string, allowed: bool)
    requires IsBlank(a) && IsBlank(b)
    requires w != [] && !IsSpace(w[0]) && !IsSpace(w[|w| - 1])
    ensures ValidateTaskTitle(Some(a + w + b), allowed) == Ok(Some(w))
  {
    TrimPadded(a, w, b);
  }

  /** A null or blank title (null, `""`, `" "`) is refused when not allowed
      and gives null when allowed. */
  lemma BlankTitleOutcomes(s: Option<string>)
    requires IsNullOrBlank(s)
    ensures ValidateTaskTitle(s, false) == Err(InvalidRequestAttributeValue(TITLE_REQUIRED))
    ensures ValidateTaskTitle(s, true) == Ok(None)
  {
  }
}
