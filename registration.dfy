/** The registration wizard of the sign-in dialog (`AuthModal`): four steps of fields, the
    checks each step runs before moving on, and the profile kept after registering. */
module Registration {
  import opened Wrappers
  import opened Text

  const TotalSteps := 4

  /** The registration fields as typed. The preparation date is `null` or a picked date. */
  datatype Form = Form(
    username: string,
    name: string,
    email: string,
    password: string,
    confirmPassword: string,
    phone: string,
    examCategory: string,
    customExamCategory: string,
    targetExam: string,
    customTargetExam: string,
    preparationStartDate: Option<string>,
    selectedState: string)

  /** The record stored under `userProfile`; the two custom fields may be `undefined`. */
  datatype UserProfile = UserProfile(
    username: string,
    email: string,
    phone: string,
    examCategory: string,
    customExamCategory: Option<string>,
    targetExam: string,
    customTargetExam: Option<string>,
    preparationStartDate: Option<string>,
    state: string)

  /** `!s.trim()`. */
  predicate Blank(s: string) {
    AllSpace(s)
  }

  /** `Blank` is `!s.trim()`: the trimmed text is empty. */
  lemma BlankIsTrimEmpty(s: string)
    ensures Blank(s) <==> Trim(s) == ""
  {
    AllSpaceIffTrimEmpty(s);
  }

  /** `/\S+@\S+\.\S+/.test(email)`: somewhere in the address, a non-space run, '@', a non-space
      run, '.', and one more non-space character, with no white space in between. */
  predicate EmailPattern(email: string)
    ensures EmailPattern(email) ==> |email| >= 5 && '@' in email && '.' in email
  {
    exists at, dot :: 0 <= at < |email| && 0 <= dot < |email| && MatchAt(email, at, dot)
  }

  /** The pattern matched with its '@' at `at` and its '.' at `dot`. */
  predicate MatchAt(email: string, at: int, dot: int) {
    && 1 <= at && at + 1 < dot && dot + 1 < |email|
    && email[at] == '@' && email[dot] == '.'
    && !IsSpace(email[at - 1]) && !IsSpace(email[dot + 1])
    && forall m :: at < m < dot ==> !IsSpace(email[m])
  }

  /** The keys of the error record, one per field that can be refused. */
  datatype Field = Username | FullName | Email | Phone | Password | ConfirmPassword | ExamCategory
                 | CustomExamCategory | TargetExam | CustomTargetExam | PreparationStartDate | SelectedState

  /** One check of `validateStep`: when `broken`, `message` is written under `key`. */
  datatype Rule = Rule(key: Field, broken: bool, message: string)

  /** The step whose screen holds a field. */
  function StepOf(k: Field): int {
    match k
    case Username | FullName | Email | Phone => 1
    case Password | ConfirmPassword => 2
    case ExamCategory | CustomExamCategory | TargetExam | CustomTargetExam => 3
    case PreparationStartDate | SelectedState => 4
  }

  /** The checks of each step, in the order the code runs them. A step checks only the fields
      on its own screen, and a step number outside 1..4 checks nothing. */
  function Rules(step: int, f: Form): (rules: seq<Rule>)
    ensures forall i :: 0 <= i < |rules| ==> StepOf(rules[i].key) == step
    ensures !(1 <= step <= TotalSteps) <==> rules == []
  {
    if step == 1 then
      [ Rule(Username, Blank(f.username), "Username is required"),
        Rule(FullName, Blank(f.name), "Full name is required"),
        Rule(Email, Blank(f.email), "Email is required"),
        Rule(Email, !EmailPattern(f.email), "Email is invalid"),
        Rule(Phone, Blank(f.phone), "Phone number is required") ]
    else if step == 2 then
      [ Rule(Password, f.password == "", "Password is required"),
        Rule(Password, Utf16Length(f.password) < 8, "Password must be at least 8 characters"),
        Rule(ConfirmPassword, f.password != f.confirmPassword, "Passwords do not match") ]
    else if step == 3 then
      [ Rule(ExamCategory, f.examCategory == "", "Exam category is required"),
        Rule(CustomExamCategory, f.examCategory == "others" && Blank(f.customExamCategory),
             "Please specify your exam category"),
        Rule(TargetExam, f.examCategory != "" && f.examCategory != "others" && f.targetExam == "",
             "Target exam is required"),
        Rule(CustomTargetExam, f.targetExam == "others" && Blank(f.customTargetExam),
             "Please specify your target exam") ]
    else if step == 4 then
      [ Rule(PreparationStartDate, f.preparationStartDate.None?, "Preparation start date is required"),
        Rule(SelectedState, f.selectedState == "", "State is required") ]
    else []
  }

  /** Running checks in order over an error record: a later message for a key replaces an
      earlier one. */
  function Collect(m: map<Field, string>, rules: seq<Rule>): map<Field, string>
    decreases |rules|
  {
    if rules == [] then m else Collect(Apply(m, rules[0]), rules[1..])
  }

  /** One check run over the record. */
  function Apply(m: map<Field, string>, r: Rule): map<Field, string> {
    if r.broken then m[r.key := r.message] else m
  }

  /** Running the checks from position `j` is running check `j`, then the rest. */
  lemma CollectStep(m: map<Field, string>, rules: seq<Rule>, j: nat)
    requires j < |rules|
    ensures Collect(m, rules[j..]) == Collect(Apply(m, rules[j]), rules[j + 1..])
  {
    assert rules[j..][1..] == rules[j + 1..];
  }

  /** The record `validateStep(step)` builds from the fields `f`: it names only fields of that
      step's screen, and it is empty for a step number outside 1..4. */
  function StepErrors(step: int, f: Form): (errors: map<Field, string>)
    ensures forall k :: k in errors ==> StepOf(k) == step
    ensures !(1 <= step <= TotalSteps) ==> errors == map[]
  {
    CollectOwnFields(map[], Rules(step, f), step);
    Collect(map[], Rules(step, f))
  }

  /** Checks of one step, run over a record of that step, leave a record of that step. */
  lemma {:induction false} CollectOwnFields(m: map<Field, string>, rules: seq<Rule>, step: int)
    requires forall k :: k in m ==> StepOf(k) == step
    requires forall i :: 0 <= i < |rules| ==> StepOf(rules[i].key) == step
    ensures forall k :: k in Collect(m, rules) ==> StepOf(k) == step
    decreases |rules|
  {
    if rules != [] {
      CollectOwnFields(Apply(m, rules[0]), rules[1..], step);
    }
  }

  /** A key ends up in the record exactly when it was there or one of its checks broke. */
  lemma {:induction false} CollectKeys(m: map<Field, string>, rules: seq<Rule>, key: Field)
    ensures key in Collect(m, rules) <==>
      key in m || exists i :: 0 <= i < |rules| && rules[i].key == key && rules[i].broken
    decreases |rules|
  {
    if rules != [] {
      var m' := Apply(m, rules[0]);
      CollectKeys(m', rules[1..], key);
      if exists i :: 0 <= i < |rules[1..]| && rules[1..][i].key == key && rules[1..][i].broken {
        var i :| 0 <= i < |rules[1..]| && rules[1..][i].key == key && rules[1..][i].broken;
        assert rules[i + 1] == rules[1..][i];
      }
      if exists i :: 0 <= i < |rules| && rules[i].key == key && rules[i].broken {
        var i :| 0 <= i < |rules| && rules[i].key == key && rules[i].broken;
        if i > 0 {
          assert rules[1..][i - 1] == rules[i];
        }
      }
    }
  }

  /** The message under a key is the one of the last broken check for it. */
  lemma {:induction false} CollectLastWins(m: map<Field, string>, rules: seq<Rule>, i: nat)
    requires i < |rules| && rules[i].broken
    requires forall j :: i < j < |rules| ==> rules[j].key != rules[i].key || !rules[j].broken
    ensures rules[i].key in Collect(m, rules) && Collect(m, rules)[rules[i].key] == rules[i].message
    decreases |rules|
  {
    var m' := Apply(m, rules[0]);
    if i == 0 {
      CollectUntouched(m', rules[1..], rules[0].key);
    } else {
      CollectLastWins(m', rules[1..], i - 1);
    }
  }

  /** Checks for other keys, or checks that pass, leave a key's message alone. */
  lemma {:induction false} CollectUntouched(m: map<Field, string>, rules: seq<Rule>, key: Field)
    requires key in m
    requires forall j :: 0 <= j < |rules| ==> rules[j].key != key || !rules[j].broken
    ensures key in Collect(m, rules) && Collect(m, rules)[key] == m[key]
    decreases |rules|
  {
    if rules != [] {
      var m' := Apply(m, rules[0]);
      CollectUntouched(m', rules[1..], key);
    }
  }

  /** `validateStep` answers true exactly when no check of the step breaks; a step outside
      1..4 has no check and always passes. */
  lemma StepErrorsEmptyIff(step: int, f: Form)
    ensures StepErrors(step, f) == map[] <==> forall i :: 0 <= i < |Rules(step, f)| ==> !Rules(step, f)[i].broken
    ensures !(1 <= step <= TotalSteps) ==> StepErrors(step, f) == map[]
  {
    var rules := Rules(step, f);
    if exists i :: 0 <= i < |rules| && rules[i].broken {
      var i :| 0 <= i < |rules| && rules[i].broken;
      CollectKeys(map[], rules, rules[i].key);
    } else {
      forall key ensures key !in StepErrors(step, f) {
        CollectKeys(map[], rules, key);
      }
    }
  }

  /** Step 1: the address must match the pattern, and a failing address always reads "Email is
      invalid", even when it is empty ("Email is required" is overwritten). */
  lemma EmailMessage(f: Form)
    ensures Email in StepErrors(1, f) <==> !EmailPattern(f.email)
    ensures Email in StepErrors(1, f) ==> StepErrors(1, f)[Email] == "Email is invalid"
    ensures f.email == "" ==> !EmailPattern(f.email)
  {
    var rules := Rules(1, f);
    CollectKeys(map[], rules, Email);
    assert forall i :: 0 <= i < |rules| ==> (rules[i].key == Email <==> i == 2 || i == 3);
    assert rules[3].broken <==> !EmailPattern(f.email);
    if EmailPattern(f.email) {
      PatternNotBlank(f.email);
      assert !rules[2].broken;
    } else {
      CollectLastWins(map[], rules, 3);
    }
  }

  /** An address that matches the pattern has a non-space character, so it is not blank. */
  lemma PatternNotBlank(email: string)
    requires EmailPattern(email)
    ensures !Blank(email)
  {
    var at, dot :| 0 <= at < |email| && 0 <= dot < |email| && MatchAt(email, at, dot);
    NonSpaceNotBlank(email, at);
    BlankIsTrimEmpty(email);
  }

  /** Step 2: a password shorter than eight UTF-16 code units (the empty one included) reads
      "Password must be at least 8 characters"; "Password is required" is never what is left. */
  lemma PasswordMessage(f: Form)
    ensures Password in StepErrors(2, f) <==> Utf16Length(f.password) < 8
    ensures Password in StepErrors(2, f) ==> StepErrors(2, f)[Password] == "Password must be at least 8 characters"
    ensures ConfirmPassword in StepErrors(2, f) <==> f.password != f.confirmPassword
  {
    var rules := Rules(2, f);
    CollectKeys(map[], rules, Password);
    CollectKeys(map[], rules, ConfirmPassword);
    assert forall i :: 0 <= i < |rules| ==> (rules[i].key == ConfirmPassword <==> i == 2);
    assert forall i :: 0 <= i < |rules| ==> (rules[i].key == Password <==> i < 2);
    assert rules[2].broken <==> f.password != f.confirmPassword;
    if Utf16Length(f.password) < 8 {
      CollectLastWins(map[], rules, 1);
    } else {
      assert f.password != "";
    }
  }

  /** What each step demands, stated field by field. */
  predicate StepValid(step: int, f: Form) {
    if step == 1 then
      !Blank(f.username) && !Blank(f.name) && EmailPattern(f.email) && !Blank(f.phone)
    else if step == 2 then
      Utf16Length(f.password) >= 8 && f.password == f.confirmPassword
    else if step == 3 then
      && f.examCategory != ""
      && (f.examCategory == "others" ==> !Blank(f.customExamCategory))
      && (f.examCategory != "others" ==> f.targetExam != "")
      && (f.targetExam == "others" ==> !Blank(f.customTargetExam))
    else if step == 4 then
      f.preparationStartDate.Some? && f.selectedState != ""
    else true
  }

  lemma AccountStepIffValid(f: Form)
    ensures StepErrors(1, f) == map[] <==> StepValid(1, f)
  {
    StepErrorsEmptyIff(1, f);
    var rules := Rules(1, f);
    if EmailPattern(f.email) {
      PatternNotBlank(f.email);
    }
    assert (forall i :: 0 <= i < |rules| ==> !rules[i].broken) <==>
      !rules[0].broken && !rules[1].broken && !rules[2].broken && !rules[3].broken && !rules[4].broken;
  }

  lemma PasswordStepIffValid(f: Form)
    ensures StepErrors(2, f) == map[] <==> StepValid(2, f)
  {
    StepErrorsEmptyIff(2, f);
    var rules := Rules(2, f);
    if Utf16Length(f.password) >= 8 {
      assert f.password != "";
    }
    assert (forall i :: 0 <= i < |rules| ==> !rules[i].broken) <==>
      !rules[0].broken && !rules[1].broken && !rules[2].broken;
  }

  lemma ExamStepIffValid(f: Form)
    ensures StepErrors(3, f) == map[] <==> StepValid(3, f)
  {
    StepErrorsEmptyIff(3, f);
    var rules := Rules(3, f);
    assert (forall i :: 0 <= i < |rules| ==> !rules[i].broken) <==>
      !rules[0].broken && !rules[1].broken && !rules[2].broken && !rules[3].broken;
  }

  lemma ScheduleStepIffValid(f: Form)
    ensures StepErrors(4, f) == map[] <==> StepValid(4, f)
  {
    StepErrorsEmptyIff(4, f);
    var rules := Rules(4, f);
    assert (forall i :: 0 <= i < |rules| ==> !rules[i].broken) <==> !rules[0].broken && !rules[1].broken;
  }

  /** The check table and the field-by-field statement agree. */
  lemma StepErrorsEmptyIffValid(step: int, f: Form)
    ensures StepErrors(step, f) == map[] <==> StepValid(step, f)
  {
    if step == 1 {
      AccountStepIffValid(f);
    } else if step == 2 {
      PasswordStepIffValid(f);
    } else if step == 3 {
      ExamStepIffValid(f);
    } else if step == 4 {
      ScheduleStepIffValid(f);
    } else {
      StepErrorsEmptyIff(step, f);
    }
  }

  /** The profile `handleRegister` stores. */
  function BuildProfile(f: Form): (p: UserProfile)
    ensures p.customExamCategory.Some? <==> f.examCategory == "others"
    ensures p.customExamCategory.Some? ==> p.customExamCategory.value == f.customExamCategory
    ensures p.customTargetExam.Some? <==> f.targetExam == "others"
    ensures p.customTargetExam.Some? ==> p.customTargetExam.value == f.customTargetExam
    ensures p.examCategory == f.examCategory && p.targetExam == f.targetExam
    ensures p.username == f.username && p.email == f.email && p.phone == f.phone
    ensures p.preparationStartDate == f.preparationStartDate && p.state == f.selectedState
  {
    UserProfile(
      f.username,
      f.email,
      f.phone,
      if f.examCategory == "others" then "others" else f.examCategory,
      if f.examCategory == "others" then Some(f.customExamCategory) else None,
      if f.targetExam == "others" then "others" else f.targetExam,
      if f.targetExam == "others" then Some(f.customTargetExam) else None,
      f.preparationStartDate,
      f.selectedState)
  }

  /** Step 1 of `validateStep`: the account fields, checked one after another. */
  method AccountErrors(f: Form) returns (errors: map<Field, string>)
    ensures errors == StepErrors(1, f)
  {
    ghost var rules := Rules(1, f);
    errors := map[];
    assert rules[0..] == rules;
    CollectStep(errors, rules, 0);
    if Blank(f.username) { errors := errors[Username := "Username is required"]; }
    CollectStep(errors, rules, 1);
    if Blank(f.name) { errors := errors[FullName := "Full name is required"]; }
    CollectStep(errors, rules, 2);
    if Blank(f.email) { errors := errors[Email := "Email is required"]; }
    CollectStep(errors, rules, 3);
    if !EmailPattern(f.email) { errors := errors[Email := "Email is invalid"]; }
    CollectStep(errors, rules, 4);
    if Blank(f.phone) { errors := errors[Phone := "Phone number is required"]; }
    assert rules[5..] == [];
  }

  /** Step 2: the password and its confirmation. */
  method PasswordErrors(f: Form) returns (errors: map<Field, string>)
    ensures errors == StepErrors(2, f)
  {
    ghost var rules := Rules(2, f);
    errors := map[];
    assert rules[0..] == rules;
    CollectStep(errors, rules, 0);
    if f.password == "" { errors := errors[Password := "Password is required"]; }
    CollectStep(errors, rules, 1);
    if Utf16Length(f.password) < 8 { errors := errors[Password := "Password must be at least 8 characters"]; }
    CollectStep(errors, rules, 2);
    if f.password != f.confirmPassword { errors := errors[ConfirmPassword := "Passwords do not match"]; }
    assert rules[3..] == [];
  }

  /** Step 3: the exam category and the target exam. */
  method ExamErrors(f: Form) returns (errors: map<Field, string>)
    ensures errors == StepErrors(3, f)
  {
    ghost var rules := Rules(3, f);
    errors := map[];
    assert rules[0..] == rules;
    CollectStep(errors, rules, 0);
    if f.examCategory == "" { errors := errors[ExamCategory := "Exam category is required"]; }
    CollectStep(errors, rules, 1);
    if f.examCategory == "others" && Blank(f.customExamCategory) {
      errors := errors[CustomExamCategory := "Please specify your exam category"];
    }
    CollectStep(errors, rules, 2);
    if f.examCategory != "" && f.examCategory != "others" && f.targetExam == "" {
      errors := errors[TargetExam := "Target exam is required"];
    }
    CollectStep(errors, rules, 3);
    if f.targetExam == "others" && Blank(f.customTargetExam) {
      errors := errors[CustomTargetExam := "Please specify your target exam"];
    }
    assert rules[4..] == [];
  }

  /** Step 4: the start date and the state. */
  method ScheduleErrors(f: Form) returns (errors: map<Field, string>)
    ensures errors == StepErrors(4, f)
  {
    ghost var rules := Rules(4, f);
    errors := map[];
    assert rules[0..] == rules;
    CollectStep(errors, rules, 0);
    if f.preparationStartDate.None? {
      errors := errors[PreparationStartDate := "Preparation start date is required"];
    }
    CollectStep(errors, rules, 1);
    if f.selectedState == "" { errors := errors[SelectedState := "State is required"]; }
    assert rules[2..] == [];
  }

  /** The wizard's state: the fields, the step shown and the errors on display. */
  class RegistrationWizard {
    var form: Form
    var currentStep: int
    var formErrors: map<Field, string>

    ghost predicate Valid()
      reads this
    {
      1 <= currentStep <= TotalSteps
    }

    constructor (blank: Form)
      ensures form == blank && currentStep == 1 && formErrors == map[] && Valid()
    {
      form := blank;
      currentStep := 1;
      formErrors := map[];
    }

    /** `validateStep(step)`: run the step's checks over the fields one by one, show the
        record, and answer whether it is empty. */
    method ValidateStep(step: int) returns (ok: bool)
      modifies this
      ensures formErrors == StepErrors(step, form)
      ensures ok <==> StepValid(step, form)
      ensures form == old(form) && currentStep == old(currentStep)
    {
      var f := form;
      var errors: map<Field, string> := map[];
      if step == 1 {
        errors := AccountErrors(f);
      } else if step == 2 {
        errors := PasswordErrors(f);
      } else if step == 3 {
        errors := ExamErrors(f);
      } else if step == 4 {
        errors := ScheduleErrors(f);
      }
      formErrors := errors;
      StepErrorsEmptyIffValid(step, f);
      ok := |errors| == 0;
    }

    /** "Next": advance one step, never past the last, only when the current step passes. */
    method NextStep()
      requires Valid()
      modifies this
      ensures Valid()
      ensures formErrors == StepErrors(old(currentStep), form)
      ensures StepValid(old(currentStep), form) ==>
        currentStep == if old(currentStep) + 1 < TotalSteps then old(currentStep) + 1 else TotalSteps
      ensures !StepValid(old(currentStep), form) ==> currentStep == old(currentStep)
      ensures form == old(form)
    {
      var ok := ValidateStep(currentStep);
      if ok {
        currentStep := if currentStep + 1 < TotalSteps then currentStep + 1 else TotalSteps;
      }
    }

    /** "Previous": back one step, never before the first. */
    method PrevStep()
      requires Valid()
      modifies this
      ensures Valid()
      ensures currentStep == if old(currentStep) - 1 > 1 then old(currentStep) - 1 else 1
      ensures form == old(form) && formErrors == old(formErrors)
    {
      currentStep := if currentStep - 1 > 1 then currentStep - 1 else 1;
    }

    /** `handleRegister`: only the step-4 checks run again; when they pass and the account
        service accepts (`registerOk`, the outcome of the call that is not modelled), the profile
        built from the fields is stored (`stored`). */
    method HandleRegister(registerOk: bool) returns (stored: Option<UserProfile>)
      modifies this
      ensures formErrors == StepErrors(4, form)
      ensures stored.Some? <==> StepValid(4, form) && registerOk
      ensures stored.Some? ==> stored.value == BuildProfile(form)
      ensures form == old(form) && currentStep == old(currentStep)
    {
      var ok := ValidateStep(4);
      if !ok {
        return None;
      }
      if !registerOk {
        return None;
      }
      stored := Some(BuildProfile(form));
    }
  }

  /** Only the step-4 rules gate registration: fields that step 1 would refuse, such as a blank
      user name, do not stop it. */
  lemma RegisterIgnoresEarlierSteps(f: Form)
    requires Blank(f.username) && f.preparationStartDate.Some? && f.selectedState != ""
    ensures StepValid(4, f) && !StepValid(1, f)
  {
  }
}
