/** The SmsCode constraint annotation (notification/sms/adapter/in/validation/SmsCodeValidator.java):
    a code is exactly `codeLength` ASCII digits, the pattern `^\d{n}$` that
    `initialize` compiles from the configured length. The length is the same
    configuration property the SMS sender generates codes with. */
module SmsCodeValidator {
  import opened Wrappers
  import opened Text
  import opened SendCodeService

  /** The default of `app.sms.verification.code-length`. */
  const DefaultCodeLength: nat := 6

  /** A full match of `^\d{n}$`. */
  predicate MatchesDigits(value: string, n: nat) {
    |value| == n && forall i :: 0 <= i < |value| ==> IsAsciiDigit(value[i])
  }

  /** `isValid`: `null` and blank values are refused before the pattern is
      tried. */
  predicate IsValid(value: Option<string>, codeLength: nat) {
    if value.None? || IsBlank(value.value) then false
    else MatchesDigits(value.value, codeLength)
  }

  /** Null, empty and all-whitespace values are invalid for every length. */
  lemma NullOrBlankIsInvalid(value: Option<string>, codeLength: nat)
    requires value.None? || IsBlank(value.value)
    ensures !IsValid(value, codeLength)
  {
  }

  /** A value is valid exactly when it is `codeLength` decimal digits and the
      length is positive (a zero length admits only the empty string, which
      is blank). */
  lemma ValidIffDigits(value: string, codeLength: nat)
    ensures IsValid(Some(value), codeLength)
        <==> codeLength >= 1 && |value| == codeLength && forall i :: 0 <= i < |value| ==> IsAsciiDigit(value[i])
  {
    if |value| >= 1 && IsAsciiDigit(value[0]) {
      assert !IsJavaWhitespace(value[0]);
    }
  }

  /** Every code the sender generates with a positive length passes the
      validator configured with the same length. */
  lemma GeneratedCodesPass(codeLength: nat, draw: nat -> Digit)
    requires codeLength >= 1
    ensures IsValid(Some(SecureCode(codeLength, draw)), codeLength)
  {
    SecureCodeIsDigits(codeLength, draw);
    ValidIffDigits(SecureCode(codeLength, draw), codeLength);
  }

  /** A code of another length, or with a non-digit, is refused. */
  lemma WrongShapeIsInvalid(value: string, codeLength: nat, k: nat)
    requires |value| != codeLength || (k < |value| && !IsAsciiDigit(value[k]))
    ensures !IsValid(Some(value), codeLength)
  {
  }
}
