/**
 * `validateForm`: one pass over the form's required fields, in document
 * order, accumulating `isValid` and the first invalid field (the one that
 * receives focus). The red border and `field-error` class each invalid
 * field ends up with are returned as `flagged`.
 */
module FormValidation {
  import opened Wrappers
  import opened TextPatterns

  /** A required input, textarea or select: its current value and whether its type is `email`. */
  datatype RequiredField = RequiredField(value: string, isEmail: bool)

  /** A field passes when its trimmed value is non-empty and, for an email
      field, its untrimmed value matches the email pattern. */
  predicate FieldValid(f: RequiredField)
    ensures FieldValid(f) ==> exists k :: 0 <= k < |f.value| && !IsSpace(f.value[k])
    ensures FieldValid(f) && f.isEmail ==> |f.value| >= 5
  {
    !IsBlank(f.value) && (f.isEmail ==> IsEmailAddress(f.value))
  }

  method ValidateForm(fields: seq<RequiredField>) returns (isValid: bool, firstInvalid: Option<nat>, flagged: seq<bool>)
    ensures isValid <==> forall i :: 0 <= i < |fields| ==> FieldValid(fields[i])
    ensures firstInvalid.None? <==> isValid
    ensures firstInvalid.Some? ==>
      firstInvalid.value < |fields| && !FieldValid(fields[firstInvalid.value]) &&
      forall j :: 0 <= j < firstInvalid.value ==> FieldValid(fields[j])
    ensures |flagged| == |fields| && forall i :: 0 <= i < |fields| ==> flagged[i] == !FieldValid(fields[i])
  {
    isValid := true;
    firstInvalid := None;
    flagged := [];
    var i := 0;
    while i < |fields|
      invariant 0 <= i <= |fields|
      invariant |flagged| == i && forall k :: 0 <= k < i ==> flagged[k] == !FieldValid(fields[k])
      invariant isValid <==> forall k :: 0 <= k < i ==> !flagged[k]
      invariant firstInvalid.None? <==> isValid
      invariant firstInvalid.Some? ==>
        firstInvalid.value < i && flagged[firstInvalid.value] &&
        forall j :: 0 <= j < firstInvalid.value ==> !flagged[j]
    {
      var input := fields[i];
      var error := false;
      var blank := IsBlank(input.value);
      if blank {
        error := true;
        if firstInvalid.None? { firstInvalid := Some(i); }
        isValid := false;
      }
      if input.isEmail && !blank {
        if !IsEmailAddress(input.value) {
          error := true;
          if firstInvalid.None? { firstInvalid := Some(i); }
          isValid := false;
        }
      }
      assert error == !FieldValid(input);
      ghost var before := flagged;
      flagged := flagged + [error];
      assert flagged[i] == !FieldValid(fields[i]);
      assert forall k :: 0 <= k < i ==> flagged[k] == before[k];
      i := i + 1;
    }
  }

  /** A padded address passes as a text field but fails as an email field:
      the emptiness test trims, the pattern test does not. */
  lemma PaddedEmailFieldFails()
    ensures !FieldValid(RequiredField(" a@b.co", true))
    ensures FieldValid(RequiredField(" a@b.co", false))
  {
    PaddedAddressExample();
  }

  /** A value made only of whitespace fails, whether or not the field is an email field. */
  lemma BlankFieldFails(f: RequiredField)
    requires forall k :: 0 <= k < |f.value| ==> IsSpace(f.value[k])
    ensures !FieldValid(f)
  {
  }
}
