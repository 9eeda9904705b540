/** The sign-up form: the strength shown under the password field and the
    form's own schema (stricter about the password than the shared
    `signUpSchema`). The `[A-Z]`, `[0-9]` and `[^A-Za-z0-9]` tests are the
    three character classes below. */
module SignUp {
  import opened Text
  import opened Validation

  predicate HasUpper(p: string) {
    exists i :: 0 <= i < |p| && IsUpper(p[i])
  }

  predicate HasNumber(p: string) {
    exists i :: 0 <= i < |p| && IsDigit(p[i])
  }

  predicate IsSpecial(c: char) {
    !IsUpper(c) && !IsLower(c) && !IsDigit(c)
  }

  predicate HasSpecial(p: string) {
    exists i :: 0 <= i < |p| && IsSpecial(p[i])
  }

  /** How many of the three classes the password has. */
  function Classes(p: string): (n: nat)
    ensures n <= 3
  {
    (if HasUpper(p) then 1 else 0) + (if HasNumber(p) then 1 else 0) + (if HasSpecial(p) then 1 else 0)
  }

  /** `passwordStrength`: the ternary chain over length and the three classes. */
  function PasswordStrength(p: string): (s: string)
    ensures s == "Strong" <==> |p| >= 8 && Classes(p) == 3
    ensures s == "Medium" <==> |p| >= 8 && Classes(p) == 2
    ensures s == "Weak" <==> p != [] && (|p| < 8 || Classes(p) < 2)
    ensures s == "" <==> p == []
  {
    var hasLength := |p| >= 8;
    if hasLength && HasUpper(p) && HasNumber(p) && HasSpecial(p) then "Strong"
    else if hasLength && ((HasUpper(p) && HasNumber(p)) || (HasUpper(p) && HasSpecial(p))
                          || (HasNumber(p) && HasSpecial(p))) then "Medium"
    else if |p| > 0 then "Weak"
    else ""
  }

  /** The password field of the form's schema: length, then the three classes,
      each reporting on its own. */
  function PasswordIssues(p: string): (r: seq<Issue>)
    ensures r == [] <==> |p| >= 8 && HasUpper(p) && HasNumber(p) && HasSpecial(p)
    ensures forall i :: 0 <= i < |r| ==> r[i].path == ["password"]
  {
    Check(|p| >= 8, ["password"], "Password must be at least 8 characters")
    + Check(HasUpper(p), ["password"], "Must contain an uppercase letter")
    + Check(HasNumber(p), ["password"], "Must contain a number")
    + Check(HasSpecial(p), ["password"], "Must contain a special character")
  }

  /** The schema's password rules hold exactly when the meter shows 'Strong'. */
  lemma PasswordAcceptedIffStrong(p: string)
    ensures PasswordIssues(p) == [] <==> PasswordStrength(p) == "Strong"
  {
    if PasswordIssues(p) == [] {
      assert Classes(p) == 3;
    }
  }

  /** The form's schema: the three fields, then the refinement comparing the
      passwords, reported on `confirmPassword`. */
  function SignUpFormIssues(email: string, password: string, confirmPassword: string, isEmail: string -> bool)
    : (r: seq<Issue>)
    ensures r == [] <==>
      isEmail(email) && PasswordIssues(password) == [] && confirmPassword != [] && password == confirmPassword
  {
    Check(isEmail(email), ["email"], "Enter a valid email")
    + PasswordIssues(password)
    + Check(|confirmPassword| >= 1, ["confirmPassword"], "Confirm password is required")
    + Check(password == confirmPassword, ["confirmPassword"], "Passwords do not match")
  }

  /** With the fields otherwise valid, differing passwords give exactly the
      mismatch issue, on `confirmPassword`. */
  lemma MismatchIsReportedOnConfirm(email: string, password: string, confirmPassword: string,
                                    isEmail: string -> bool)
    requires isEmail(email) && PasswordStrength(password) == "Strong" && confirmPassword != []
    requires password != confirmPassword
    ensures SignUpFormIssues(email, password, confirmPassword, isEmail)
      == [Issue(["confirmPassword"], "Passwords do not match")]
  {
    PasswordAcceptedIffStrong(password);
  }

  /** Whatever the form accepts the shared `signUpSchema` accepts too. */
  lemma FormIsStricterThanSharedSchema(email: string, password: string, confirmPassword: string,
                                       isEmail: string -> bool)
    requires SignUpFormIssues(email, password, confirmPassword, isEmail) == []
    ensures SignUpIssues(email, password, confirmPassword, isEmail) == []
  {
  }

  /** A concrete case showing that `PasswordStrength` needs the character
      classes and not the length alone: "abcdefgh" is long enough, but it
      has only lower-case letters, so the meter says 'Weak'. */
  lemma LongLowercaseIsWeak()
    ensures PasswordStrength("abcdefgh") == "Weak"
  {
    var p := "abcdefgh";
    assert !HasUpper(p) by {
      forall i | 0 <= i < |p| ensures !IsUpper(p[i]) { }
    }
    assert !HasNumber(p) by {
      forall i | 0 <= i < |p| ensures !IsDigit(p[i]) { }
    }
    assert !HasSpecial(p) by {
      forall i | 0 <= i < |p| ensures !IsSpecial(p[i]) { }
    }
  }
}
