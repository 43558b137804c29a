/** The registration page: password-strength scoring, the requirement
    checklist shown under the password field, the ordered form validator and
    the state cells (form record, error message, loading flag) that the change
    and submit handlers update.  Navigation is recorded as the list of
    destinations passed to the router; the 1500 ms registration delay is an
    explicit completion event. */
module Register {

  datatype Option<T> = None | Some(value: T)

  // ---------------------------------------------------------------------
  // Character classes of the three regular expressions /[A-Z]/, /[0-9]/ and
  // /[^A-Za-z0-9]/.

  predicate IsUpper(c: char) { 'A' <= c <= 'Z' }
  predicate IsLower(c: char) { 'a' <= c <= 'z' }
  predicate IsDigit(c: char) { '0' <= c <= '9' }
  predicate IsSymbol(c: char) { !IsUpper(c) && !IsLower(c) && !IsDigit(c) }

  predicate HasUpper(s: string) { exists i :: 0 <= i < |s| && IsUpper(s[i]) }
  predicate HasDigit(s: string) { exists i :: 0 <= i < |s| && IsDigit(s[i]) }
  predicate HasSymbol(s: string) { exists i :: 0 <= i < |s| && IsSymbol(s[i]) }

  /** The minimum password length, used by the scorer, the checklist and the validator. */
  const MinLength: nat := 8

  // ---------------------------------------------------------------------
  // The requirement checklist

  datatype Requirement = Requirement(text: string, valid: bool)

  /** Number of items marked valid. */
  function CountValid(items: seq<Requirement>): (n: nat)
    ensures n <= |items|
    ensures n == |items| <==> forall k :: 0 <= k < |items| ==> items[k].valid
    ensures n == 0 <==> forall k :: 0 <= k < |items| ==> !items[k].valid
  {
    if items == [] then 0
    else (if items[0].valid then 1 else 0) + CountValid(items[1..])
  }

  // ---------------------------------------------------------------------
  // Password strength

  datatype Strength = Strength(score: nat, text: string)

  /** The label table, indexed by score. */
  const Labels: seq<string> := ["", "Weak", "Fair", "Good", "Strong"]

  /** Reference rating: empty gives nothing, a short password is "Weak"
      whatever it contains, and otherwise the score is the number of
      checklist items that hold, looked up in the label table. */
  function Rated(password: string): (r: Strength)
  {
    if password == [] then Strength(0, "")
    else if |password| < MinLength then Strength(1, "Weak")
    else
      var n := CountValid(Checklist(password));
      Strength(n, Labels[n])
  }

  /** The page's scorer: the score is built up in a mutable local, one
      rule at a time, after the two early returns. */
  method GetPasswordStrength(password: string) returns (r: Strength)
    ensures r == Rated(password)
    ensures r.score < |Labels| && r.text == Labels[r.score]
  {
    if password == [] {
      return Strength(0, "");
    }
    if |password| < MinLength {
      return Strength(1, "Weak");
    }
    var strength := 0;
    if |password| >= MinLength { strength := strength + 1; }
    if HasUpper(password) { strength := strength + 1; }
    if HasDigit(password) { strength := strength + 1; }
    if HasSymbol(password) { strength := strength + 1; }
    r := Strength(strength, Labels[strength]);
  }

  function Bit(b: bool): (n: nat) { if b then 1 else 0 }

  /** The four checklist items, in display order; the number shown as
      satisfied is one per rule that holds. */
  function Checklist(password: string): (items: seq<Requirement>)
    ensures |items| == 4
    ensures CountValid(items)
            == Bit(|password| >= MinLength) + Bit(HasUpper(password))
               + Bit(HasDigit(password)) + Bit(HasSymbol(password))
  {
    var items :=
      [ Requirement("At least 8 characters", |password| >= MinLength),
        Requirement("At least 1 uppercase letter", HasUpper(password)),
        Requirement("At least 1 number", HasDigit(password)),
        Requirement("At least 1 special character", HasSymbol(password)) ];
    assert CountValid(items) == Bit(items[0].valid) + CountValid(items[1..]);
    assert CountValid(items[1..]) == Bit(items[1].valid) + CountValid(items[2..]);
    assert CountValid(items[2..]) == Bit(items[2].valid) + CountValid(items[3..]);
    assert CountValid(items[3..]) == Bit(items[3].valid) + CountValid(items[4..]);
    assert items[4..] == [];
    items
  }

  /** In the additive branch the score is one for the length rule plus one
      for each character class present, so it lies between 1 and 4. */
  lemma LongPasswordScore(password: string)
    requires |password| >= MinLength
    ensures Rated(password).score
            == 1 + Bit(HasUpper(password)) + Bit(HasDigit(password)) + Bit(HasSymbol(password))
    ensures 1 <= Rated(password).score <= 4
  {
  }

  /** A non-empty password below the minimum length is "Weak" with score 1,
      regardless of which character classes it contains. */
  lemma ShortPasswordIsWeak(password: string)
    requires 0 < |password| < MinLength
    ensures Rated(password) == Strength(1, "Weak")
    ensures forall q :: 0 < |q| < MinLength ==> Rated(q) == Rated(password)
  {
  }

  /** The label is always the table entry at the score, and the index is in range. */
  lemma LabelMatchesTable(password: string)
    ensures Rated(password).score < |Labels|
    ensures Rated(password).text == Labels[Rated(password).score]
    ensures password == [] <==> Rated(password).text == ""
  {
    if |password| >= MinLength {
      LongPasswordScore(password);
    }
  }

  /** "Strong" exactly when the password is long enough and has all three character classes. */
  lemma StrongExactly(password: string)
    ensures Rated(password).text == "Strong"
            <==> |password| >= MinLength && HasUpper(password) && HasDigit(password) && HasSymbol(password)
  {
    if |password| >= MinLength {
      LongPasswordScore(password);
    }
  }

  /** "Weak" is reached by two different branches: any short non-empty
      password, or a long one with none of the three character classes. */
  lemma WeakExactly(password: string)
    ensures Rated(password).text == "Weak"
            <==> (0 < |password| < MinLength)
                 || (|password| >= MinLength && !HasUpper(password) && !HasDigit(password) && !HasSymbol(password))
  {
    if |password| >= MinLength {
      LongPasswordScore(password);
    }
  }

  /** The score and the number of checklist items shown as satisfied agree
      for every password of the minimum length or more (the scorer's
      additive count and the checklist use the same four rules; the
      scorer's postcondition ties it to this rating).  Below that length
      the score is fixed at 1, so they agree only when exactly one
      character class is present: a seven-character password with every
      class scores 1 while three items are satisfied. */
  lemma ChecklistAgreement(password: string)
    ensures Rated(password).score == CountValid(Checklist(password))
            <==> password == [] || |password| >= MinLength
                 || Bit(HasUpper(password)) + Bit(HasDigit(password)) + Bit(HasSymbol(password)) == 1
    ensures Rated("Abcde1!").score == 1 && CountValid(Checklist("Abcde1!")) == 3
  {
    var p := "Abcde1!";
    assert IsUpper(p[0]) && IsDigit(p[5]) && IsSymbol(p[6]);
  }

  /** The boundary between lengths 7 and 8: both score 1 and "Weak", one by
      the early return, the other by the additive count. */
  lemma LengthBoundary()
    ensures Rated("abcdefg") == Strength(1, "Weak")
    ensures Rated("abcdefgh") == Strength(1, "Weak")
    ensures [Checklist("abcdefgh")[0].valid, Checklist("abcdefgh")[1].valid,
             Checklist("abcdefgh")[2].valid, Checklist("abcdefgh")[3].valid]
            == [true, false, false, false]
    ensures Rated("Abcdefg1!") == Strength(4, "Strong")
    ensures Rated("") == Strength(0, "")
  {
    var p := "abcdefgh";
    assert !HasUpper(p) && !HasDigit(p) && !HasSymbol(p) by {
      forall i | 0 <= i < |p| ensures IsLower(p[i]) {}
    }
    LongPasswordScore(p);
    var q := "Abcdefg1!";
    assert IsUpper(q[0]) && IsDigit(q[7]) && IsSymbol(q[8]);
    LongPasswordScore(q);
  }

  // ---------------------------------------------------------------------
  // The form record and its validator

  datatype FormData = FormData(fullName: string, email: string, qualification: string,
                               dob: string, password: string, confirmPassword: string)

  /** The names of the form's inputs. */
  datatype Field = FullName | Email | Qualification | Dob | Password | ConfirmPassword

  const EmptyForm := FormData("", "", "", "", "", "")

  function Get(f: FormData, name: Field): (v: string)
  {
    match name
    case FullName => f.fullName
    case Email => f.email
    case Qualification => f.qualification
    case Dob => f.dob
    case Password => f.password
    case ConfirmPassword => f.confirmPassword
  }

  /** The record spread with one field overwritten. */
  function WithField(f: FormData, name: Field, value: string): (g: FormData)
    ensures Get(g, name) == value
    ensures forall other :: other != name ==> Get(g, other) == Get(f, other)
  {
    match name
    case FullName => f.(fullName := value)
    case Email => f.(email := value)
    case Qualification => f.(qualification := value)
    case Dob => f.(dob := value)
    case Password => f.(password := value)
    case ConfirmPassword => f.(confirmPassword := value)
  }

  datatype FormError = MissingRequired | PasswordMismatch | PasswordTooShort

  function Message(e: FormError): (m: string)
  {
    match e
    case MissingRequired => "Please fill in all required fields"
    case PasswordMismatch => "Passwords do not match"
    case PasswordTooShort => "Password must be at least 8 characters long"
  }

  predicate RequiredFilled(f: FormData)
  {
    f.fullName != "" && f.email != "" && f.password != "" && f.confirmPassword != ""
  }

  /** The first failing check, or None when the form is acceptable. */
  function Validate(f: FormData): (r: Option<FormError>)
  {
    if !RequiredFilled(f) then Some(MissingRequired)
    else if f.password != f.confirmPassword then Some(PasswordMismatch)
    else if |f.password| < MinLength then Some(PasswordTooShort)
    else None
  }

  /** The checks are reported in a fixed order: each error is reported
      exactly when every earlier check passed and its own fails. */
  lemma ValidationOrder(f: FormData)
    ensures Validate(f) == Some(MissingRequired)
            <==> Get(f, FullName) == "" || Get(f, Email) == "" || Get(f, Password) == "" || Get(f, ConfirmPassword) == ""
    ensures Validate(f) == Some(PasswordMismatch)
            <==> RequiredFilled(f) && f.password != f.confirmPassword
    ensures Validate(f) == Some(PasswordTooShort)
            <==> RequiredFilled(f) && f.password == f.confirmPassword && |f.password| < MinLength
  {
  }

  /** A form passes exactly when the four required fields are filled, the
      passwords match and the password is long enough; such a password is
      rated in the additive branch. */
  lemma ValidationSuccess(f: FormData)
    ensures Validate(f).None?
            <==> RequiredFilled(f) && f.password == f.confirmPassword && |f.password| >= MinLength
    ensures Validate(f).None? ==> 1 <= Rated(f.password).score <= 4
  {
    if Validate(f).None? {
      LongPasswordScore(f.password);
    }
  }

  /** The optional fields are never checked. */
  lemma ValidationIgnoresOptional(f: FormData, qualification: string, dob: string)
    ensures Validate(f.(qualification := qualification, dob := dob)) == Validate(f)
  {
  }

  /** Typing into an optional field never changes the outcome of validation. */
  lemma OptionalEditsKeepValidation(f: FormData, name: Field, value: string)
    requires name == Qualification || name == Dob
    ensures Validate(WithField(f, name, value)) == Validate(f)
  {
    var g := WithField(f, name, value);
    assert Get(g, FullName) == Get(f, FullName) && Get(g, Email) == Get(f, Email);
    assert Get(g, Password) == Get(f, Password) && Get(g, ConfirmPassword) == Get(f, ConfirmPassword);
  }

  // ---------------------------------------------------------------------
  // The page's state cells

  class RegisterPage {
    var formData: FormData
    var error: string
    var isLoading: bool
    /** Registration completions scheduled and not yet fired. */
    var pendingCompletions: nat
    /** Every destination passed to the router, in order. */
    var navigated: seq<string>

    constructor ()
      ensures formData == EmptyForm && error == "" && !isLoading
      ensures pendingCompletions == 0 && navigated == []
    {
      formData := EmptyForm;
      error := "";
      isLoading := false;
      pendingCompletions := 0;
      navigated := [];
    }

    /** An input's change event: only the named field of the record changes. */
    method HandleChange(name: Field, value: string)
      modifies this`formData
      ensures formData == WithField(old(formData), name, value)
    {
      formData := WithField(formData, name, value);
    }

    /** Runs the checks and writes the error cell when one fails. */
    method ValidateForm() returns (ok: bool)
      modifies this`error
      ensures ok <==> Validate(formData).None?
      ensures error == if ok then old(error) else Message(Validate(formData).value)
    {
      if !RequiredFilled(formData) {
        error := Message(MissingRequired);
        return false;
      }
      if formData.password != formData.confirmPassword {
        error := Message(PasswordMismatch);
        return false;
      }
      if |formData.password| < MinLength {
        error := Message(PasswordTooShort);
        return false;
      }
      return true;
    }

    /** Submit: clear the error, validate, and on success enter loading and
        schedule the completion.  A failed validation leaves the loading
        flag, the schedule and the navigation history as they were. */
    method HandleSubmit()
      modifies this`error, this`isLoading, this`pendingCompletions
      ensures Validate(formData).Some? ==>
                error == Message(Validate(formData).value) && isLoading == old(isLoading)
                && pendingCompletions == old(pendingCompletions)
      ensures Validate(formData).None? ==>
                error == "" && isLoading && pendingCompletions == old(pendingCompletions) + 1
    {
      error := "";
      var ok := ValidateForm();
      if !ok {
        return;
      }
      isLoading := true;
      pendingCompletions := pendingCompletions + 1;
    }

    /** The delayed completion: go to the login page and leave loading. */
    method CompleteRegistration()
      requires pendingCompletions > 0
      modifies this`navigated, this`isLoading, this`pendingCompletions
      ensures navigated == old(navigated) + ["/login"]
      ensures !isLoading && pendingCompletions == old(pendingCompletions) - 1
    {
      navigated := navigated + ["/login"];
      isLoading := false;
      pendingCompletions := pendingCompletions - 1;
    }
  }

  /** Mismatched passwords block the submission: an error is shown, nothing
      is scheduled and nothing navigates. */
  method MismatchScenario()
  {
    var page := new RegisterPage();
    page.HandleChange(FullName, "Ada");
    page.HandleChange(Email, "ada@example.com");
    page.HandleChange(Password, "abcdefgh");
    page.HandleChange(ConfirmPassword, "abcdefghx");
    page.HandleSubmit();
    assert page.error == "Passwords do not match";
    assert !page.isLoading && page.pendingCompletions == 0 && page.navigated == [];
  }
}
