// Form validation in script.js: the e-mail shape test `isValidEmail` and the
// required-field pass `validateForm` over the enterprise form.

module FormValidation {
  import opened JsValues
  import opened UrlCodec

  /** A character of the class `[^\s@]`. */
  predicate EmailChar(c: char)
  {
    !IsJsSpace(c) && c != '@'
  }

  /** A run `[^\s@]*`: every character is an `EmailChar`. */
  predicate EmailChars(s: string)
  {
    forall k :: 0 <= k < |s| ==> EmailChar(s[k])
  }

  /** A run `[^\s@]+`. */
  predicate EmailPart(s: string)
  {
    |s| > 0 && EmailChars(s)
  }

  /**
   * The language of `/^[^\s@]+@[^\s@]+\.[^\s@]+$/`: some `x@y.z` with `x`,
   * `y` and `z` non-empty runs without white space or `@`.
   */
  ghost predicate EmailShape(s: string)
  {
    exists i, j :: 0 < i < j < |s| && s[i] == '@' && s[j] == '.'
      && EmailPart(s[..i]) && EmailPart(s[i + 1..j]) && EmailPart(s[j + 1..])
  }

  /**
   * `isValidEmail`, decided by one scan: the first `@` is not the first
   * character, nothing before it is white space, and the rest (the domain)
   * has no white space or `@`, at least three characters, and a `.` that is
   * neither its first nor its last character.
   */
  function IsValidEmail(s: string): bool
  {
    var at := IndexOf(s, '@');
    0 < at < |s| && EmailChars(s[..at])
    && var d := s[at + 1..];
    |d| >= 3 && EmailChars(d) && IndexOf(d[1..|d| - 1], '.') < |d| - 2
  }

  /** A run of `EmailChar`s cut at any two points leaves runs of `EmailChar`s. */
  lemma EmailCharsSlice(s: string, a: nat, b: nat)
    requires EmailChars(s) && a <= b <= |s|
    ensures EmailChars(s[a..b])
  {
    assert forall k :: 0 <= k < b - a ==> s[a..b][k] == s[a + k];
  }

  /** Every string the scan accepts matches the regular expression. */
  lemma ValidEmailHasShape(s: string)
    requires IsValidEmail(s)
    ensures EmailShape(s)
  {
    var at := IndexOf(s, '@');
    var d := s[at + 1..];
    var inner := d[1..|d| - 1];
    var dot := IndexOf(inner, '.');
    var j := at + 2 + dot;
    assert s[j] == inner[dot] == '.';
    assert s[at + 1..j] == d[..dot + 1];
    assert s[j + 1..] == d[dot + 2..];
    EmailCharsSlice(d, 0, dot + 1);
    EmailCharsSlice(d, dot + 2, |d|);
    assert EmailPart(s[..at]) && EmailPart(s[at + 1..j]) && EmailPart(s[j + 1..]);
  }

  /** Every string the regular expression matches, split at its `@` and a later `.`, passes the scan. */
  lemma ShapeIsValidEmail(s: string, i: nat, j: nat)
    requires 0 < i < j < |s| && s[i] == '@' && s[j] == '.'
    requires EmailPart(s[..i]) && EmailPart(s[i + 1..j]) && EmailPart(s[j + 1..])
    ensures IsValidEmail(s)
  {
    var at := IndexOf(s, '@');
    assert at == i;
    var d := s[i + 1..];
    assert d == s[i + 1..j] + "." + s[j + 1..];
    EmailCharsConcat(s[i + 1..j] + ".", s[j + 1..]);
    var inner := d[1..|d| - 1];
    assert inner[j - i - 2] == '.';
    assert IndexOf(inner, '.') <= j - i - 2;
  }

  /** Two runs of `EmailChar`s make one. */
  lemma EmailCharsConcat(a: string, b: string)
    requires EmailChars(a) && EmailChars(b)
    ensures EmailChars(a + b)
  {
    forall k | 0 <= k < |a + b|
      ensures EmailChar((a + b)[k])
    {
      if k < |a| {
        assert (a + b)[k] == a[k];
      } else {
        assert (a + b)[k] == b[k - |a|];
      }
    }
  }

  /** The scan accepts exactly the strings the regular expression matches. */
  lemma IsValidEmailSpec(s: string)
    ensures IsValidEmail(s) <==> EmailShape(s)
  {
    if IsValidEmail(s) {
      ValidEmailHasShape(s);
    }
    if EmailShape(s) {
      var i, j :| 0 < i < j < |s| && s[i] == '@' && s[j] == '.'
        && EmailPart(s[..i]) && EmailPart(s[i + 1..j]) && EmailPart(s[j + 1..]);
      ShapeIsValidEmail(s, i, j);
    }
  }

  /** An input carrying `required`: its `name`, `type` and current `value`. */
  datatype FormInput = FormInput(name: string, inputType: string, value: string)

  /**
   * An input the pass marks as in error: its value is all white space (so
   * trims to empty), or it is a non-empty e-mail field not of the form `x@y.z`.
   */
  ghost predicate InputInvalid(input: FormInput)
  {
    AllSpace(input.value) || (input.inputType == "email" && input.value != "" && !EmailShape(input.value))
  }

  /** The two checks the pass makes on one input decide exactly `InputInvalid`. */
  lemma InputInvalidSpec(input: FormInput)
    ensures InputInvalid(input) <==>
      Trim(input.value) == "" || (input.inputType == "email" && input.value != "" && !IsValidEmail(input.value))
  {
    TrimEmptyIff(input.value);
    IsValidEmailSpec(input.value);
  }

  /**
   * The body of the `forEach` callback of `validateForm` for one input:
   * whether it ends up with the error style.
   */
  method CheckInput(input: FormInput) returns (marked: bool)
    ensures marked == InputInvalid(input)
  {
    InputInvalidSpec(input);
    marked := false;
    if Trim(input.value) == "" {
      marked := true;
    }
    if input.inputType == "email" && input.value != "" {
      if !IsValidEmail(input.value) {
        marked := true;
      }
    }
  }

  /**
   * `validateForm` over the required inputs in document order: `flagged[k]`
   * says whether input `k` was given the error style; the result is false iff
   * some input was.
   */
  method ValidateForm(inputs: seq<FormInput>) returns (isValid: bool, flagged: seq<bool>)
    ensures |flagged| == |inputs|
    ensures forall k :: 0 <= k < |inputs| ==> flagged[k] == InputInvalid(inputs[k])
    ensures isValid <==> forall k :: 0 <= k < |inputs| ==> !InputInvalid(inputs[k])
  {
    isValid := true;
    flagged := [];
    var i := 0;
    while i < |inputs|
      invariant 0 <= i <= |inputs|
      invariant |flagged| == i
      invariant forall k :: 0 <= k < i ==> flagged[k] == InputInvalid(inputs[k])
      invariant isValid <==> forall k :: 0 <= k < i ==> !InputInvalid(inputs[k])
    {
      var marked := CheckInput(inputs[i]);
      if marked {
        isValid := false;
      }
      flagged := flagged + [marked];
      i := i + 1;
    }
  }
}
