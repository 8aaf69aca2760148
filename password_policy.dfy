/** The password-strength rule of the registration and reset forms
    (`validatePassword` and the `passwordRequirements` checklist shown under
    the password field). Both forms carry identical copies of the two. */
module PasswordPolicy {

  const MinLength: nat := 8

  /** The characters of `[!@#$%^&*(),.?":{}|<>]`. */
  const Specials: string := "!@#$%^&*(),.?\":{}|<>"

  /** The four character classes the rule asks for: `[A-Z]`, `[a-z]`, `\d`
      (which, without the `u` flag, is `[0-9]`) and the special set. */
  datatype CharClass = Upper | Lower | Digit | Special

  predicate InClass(k: CharClass, ch: char) {
    match k
    case Upper => 'A' <= ch <= 'Z'
    case Lower => 'a' <= ch <= 'z'
    case Digit => '0' <= ch <= '9'
    case Special => ch in Specials
  }

  /** `/[...]/.test(s)`: whether some character of `s` is in the class. */
  function Test(k: CharClass, s: string): (found: bool)
    ensures found <==> exists i :: 0 <= i < |s| && InClass(k, s[i])
    decreases |s|
  {
    if s == [] then false
    else if InClass(k, s[0]) then true
    else
      var rest := Test(k, s[1..]);
      assert forall i :: 1 <= i < |s| ==> s[i] == s[1..][i - 1];
      rest
  }

  /** `validatePassword`: at least eight characters, with an upper-case
      letter, a lower-case letter, a digit and a special character among
      them. A shorter string fails whatever it contains. */
  function ValidatePassword(password: string): (ok: bool)
    ensures ok <==>
      |password| >= MinLength &&
      (exists i :: 0 <= i < |password| && 'A' <= password[i] <= 'Z') &&
      (exists i :: 0 <= i < |password| && 'a' <= password[i] <= 'z') &&
      (exists i :: 0 <= i < |password| && '0' <= password[i] <= '9') &&
      (exists i :: 0 <= i < |password| && password[i] in Specials)
  {
    |password| >= MinLength && Test(Upper, password) && Test(Lower, password)
    && Test(Digit, password) && Test(Special, password)
  }

  /** One line of the checklist: its text and whether it is met. */
  datatype Requirement = Requirement(text: string, met: bool)

  /** `passwordRequirements` for the current password. */
  function PasswordRequirements(password: string): (rs: seq<Requirement>)
    ensures |rs| == 5
    ensures forall i :: 0 <= i < |rs| ==> rs[i].text == RequirementLabels[i]
    // Each line is ticked by its own test.
    ensures rs[0].met <==> |password| >= MinLength
    ensures rs[1].met <==> exists i :: 0 <= i < |password| && 'A' <= password[i] <= 'Z'
    ensures rs[2].met <==> exists i :: 0 <= i < |password| && 'a' <= password[i] <= 'z'
    ensures rs[3].met <==> exists i :: 0 <= i < |password| && '0' <= password[i] <= '9'
    ensures rs[4].met <==> exists i :: 0 <= i < |password| && password[i] in Specials
  {
    [ Requirement(RequirementLabels[0], |password| >= 8),
      Requirement(RequirementLabels[1], Test(Upper, password)),
      Requirement(RequirementLabels[2], Test(Lower, password)),
      Requirement(RequirementLabels[3], Test(Digit, password)),
      Requirement(RequirementLabels[4], Test(Special, password)) ]
  }

  const RequirementLabels: seq<string> := [
    "At least 8 characters",
    "Contains uppercase letter",
    "Contains lowercase letter",
    "Contains number",
    "Contains special character"
  ]

  /** The checklist and the validator agree: the password is accepted
      exactly when every line of the checklist is ticked. */
  lemma ChecklistMatchesValidator(password: string)
    ensures ValidatePassword(password) <==>
              forall i :: 0 <= i < |PasswordRequirements(password)| ==> PasswordRequirements(password)[i].met
  {
    var rs := PasswordRequirements(password);
    if !ValidatePassword(password) {
      if |password| < MinLength {
        assert !rs[0].met;
      } else if !Test(Upper, password) {
        assert !rs[1].met;
      } else if !Test(Lower, password) {
        assert !rs[2].met;
      } else if !Test(Digit, password) {
        assert !rs[3].met;
      } else {
        assert !rs[4].met;
      }
    }
  }

  /** The rule can be met: "Passw0rd!" passes. */
  lemma ValidatorAcceptsExample()
    ensures ValidatePassword("Passw0rd!")
  {
    var p := "Passw0rd!";
    assert 'A' <= p[0] <= 'Z' && 'a' <= p[1] <= 'z' && '0' <= p[5] <= '9' && p[8] in Specials;
  }

  /** The rule needs every class: a password is accepted exactly when it is
      long enough and each of the four classes occurs in it, so one missing
      class is refused however long the password is and whatever else it
      contains. */
  lemma ValidatorNeedsEveryClass(password: string)
    ensures ValidatePassword(password) <==> |password| >= MinLength && forall k: CharClass :: Test(k, password)
  {
    if ValidatePassword(password) {
      forall k: CharClass ensures Test(k, password) {
        match k
        case Upper => case Lower => case Digit => case Special =>
      }
    } else if |password| >= MinLength {
      assert !Test(Upper, password) || !Test(Lower, password) || !Test(Digit, password) || !Test(Special, password);
    }
  }
}
