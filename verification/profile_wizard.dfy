/** The two-step "complete your profile" wizard: basic details (names and
    phone) on the first step, health details (age, weight, condition and an
    optional file) on the second, each step validated before it is left,
    and the profile update sent from the second step. */
module ProfileWizard {
  import opened Wrappers
  import opened Js
  import opened Text

  /** `isValidPhone`: with all white space removed, a local mobile number
      starts with "05" and has at least nine characters. */
  predicate IsValidPhone(phone: string)
    ensures IsValidPhone(phone) ==> |phone| >= 9
    ensures (forall i | 0 <= i < |phone| :: !IsJsSpace(phone[i])) ==>
      (IsValidPhone(phone) <==> "05" <= phone && |phone| >= 9)
  {
    var normalized := RemoveSpaces(phone);
    "05" <= normalized && |normalized| >= 9
  }

  /** White space anywhere in the number is ignored. */
  lemma {:induction false} PhoneIgnoresSpaces(a: string, b: string)
    ensures IsValidPhone(a + " " + b) == IsValidPhone(a + b)
  {
    assert RemoveSpaces(" ") == [] by { assert " "[1..] == []; }
    RemoveSpacesConcat(a, " ");
    assert RemoveSpaces(a + " ") == RemoveSpaces(a);
    RemoveSpacesConcat(a + " ", b);
    RemoveSpacesConcat(a, b);
    assert RemoveSpaces(a + " " + b) == RemoveSpaces(a + b);
  }

  lemma {:induction false} RemoveSpacesConcat(a: string, b: string)
    ensures RemoveSpaces(a + b) == RemoveSpaces(a) + RemoveSpaces(b)
  {
    if a == [] {
      assert a + b == b;
    } else {
      assert (a + b)[1..] == a[1..] + b;
      RemoveSpacesConcat(a[1..], b);
    }
  }

  datatype Form = Form(firstName: string, lastName: string, phone: string,
                       age: string, weight: string, healthCondition: string,
                       healthFileData: Option<string>)

  /** The field errors: field name to message. */
  type Errors = map<string, string>

  const FirstNameRequired := "الاسم الأول مطلوب"
  const LastNameRequired := "اسم العائلة مطلوب"
  const PhoneRequired := "رقم الهاتف مطلوب"
  const PhoneInvalid := "رقم الهاتف غير صحيح"
  const AgeRequired := "العمر مطلوب"
  const AgeInvalid := "العمر غير صحيح"
  const WeightRequired := "الوزن مطلوب"
  const WeightInvalid := "الوزن غير صحيح"
  const ConditionRequired := "الحالة الصحية مطلوبة (يمكن كتابة: لا يوجد)"

  /** `!s.trim()`. */
  predicate Blank(s: string) {
    Trim(s) == []
  }

  /** `validateStep1`'s errors. */
  function Step1Errors(f: Form): (e: Errors)
    ensures "firstName" in e <==> IsBlank(f.firstName)
    ensures "lastName" in e <==> IsBlank(f.lastName)
    ensures "phone" in e <==> IsBlank(f.phone) || !IsValidPhone(f.phone)
    ensures "phone" in e ==> e["phone"] == if IsBlank(f.phone) then PhoneRequired else PhoneInvalid
    ensures e.Keys <= {"firstName", "lastName", "phone"}
  {
    TrimEmptyIffBlank(f.firstName);
    TrimEmptyIffBlank(f.lastName);
    TrimEmptyIffBlank(f.phone);
    var e1: Errors := if Blank(f.firstName) then map["firstName" := FirstNameRequired] else map[];
    var e2 := if Blank(f.lastName) then e1["lastName" := LastNameRequired] else e1;
    if Blank(f.phone) then e2["phone" := PhoneRequired]
    else if !IsValidPhone(f.phone) then e2["phone" := PhoneInvalid]
    else e2
  }

  predicate Step1Valid(f: Form) {
    !IsBlank(f.firstName) && !IsBlank(f.lastName) && !IsBlank(f.phone) && IsValidPhone(f.phone)
  }

  /** The first step passes exactly when no field is flagged. */
  lemma Step1PassesIffNoErrors(f: Form)
    ensures Step1Errors(f) == map[] <==> Step1Valid(f)
  {
    if !Step1Valid(f) {
      assert "firstName" in Step1Errors(f) || "lastName" in Step1Errors(f) || "phone" in Step1Errors(f);
    }
  }

  /** `Number(s)` restricted to finite results: `number(s)` is the value,
      or `None` for `NaN` and the infinities. */
  predicate PositiveNumber(s: string, number: string -> Option<real>) {
    number(s).Some? && number(s).value > 0.0
  }

  /** `validateStep2`'s errors. */
  function Step2Errors(f: Form, number: string -> Option<real>): (e: Errors)
    ensures "age" in e <==> IsBlank(f.age) || !PositiveNumber(f.age, number)
    ensures "age" in e ==> e["age"] == if IsBlank(f.age) then AgeRequired else AgeInvalid
    ensures "weight" in e <==> IsBlank(f.weight) || !PositiveNumber(f.weight, number)
    ensures "weight" in e ==> e["weight"] == if IsBlank(f.weight) then WeightRequired else WeightInvalid
    ensures "healthCondition" in e <==> IsBlank(f.healthCondition)
    ensures e.Keys <= {"age", "weight", "healthCondition"}
  {
    TrimEmptyIffBlank(f.age);
    TrimEmptyIffBlank(f.weight);
    TrimEmptyIffBlank(f.healthCondition);
    var e1: Errors :=
      if Blank(f.age) then map["age" := AgeRequired]
      else if !PositiveNumber(f.age, number) then map["age" := AgeInvalid]
      else map[];
    var e2 :=
      if Blank(f.weight) then e1["weight" := WeightRequired]
      else if !PositiveNumber(f.weight, number) then e1["weight" := WeightInvalid]
      else e1;
    if Blank(f.healthCondition) then e2["healthCondition" := ConditionRequired] else e2
  }

  predicate Step2Valid(f: Form, number: string -> Option<real>) {
    !IsBlank(f.age) && PositiveNumber(f.age, number)
    && !IsBlank(f.weight) && PositiveNumber(f.weight, number)
    && !IsBlank(f.healthCondition)
  }

  lemma Step2PassesIffNoErrors(f: Form, number: string -> Option<real>)
    ensures Step2Errors(f, number) == map[] <==> Step2Valid(f, number)
  {
    if !Step2Valid(f, number) {
      var e := Step2Errors(f, number);
      assert "age" in e || "weight" in e || "healthCondition" in e;
    }
  }

  /** `progressValue`. */
  function ProgressValue(step: int): (v: int)
    ensures step == 1 ==> v == 50
    ensures step != 1 ==> v == 100
    ensures step == 1 || step == 2 ==> v * 2 == step * 100
  {
    if step == 1 then 50 else 100
  }

  datatype Wizard = Wizard(step: int, form: Form, errors: Errors)

  /** The profile update `handleSubmit` sends: trimmed texts, the two
      numbers, and the uploaded file's address when there is one. */
  datatype ProfilePatch = ProfilePatch(firstName: string, lastName: string, phone: string,
                                       age: real, weight: real, healthCondition: string,
                                       healthFileUrl: Option<string>)

  /** The health-file upload's answer: the address it returned (possibly
      none), or a rejected upload. */
  datatype Upload = Uploaded(url: Option<string>) | UploadFailed

  datatype Event =
    | EditBasics(firstName: string, lastName: string, phone: string)
    | EditHealth(age: string, weight: string, healthCondition: string, healthFileData: Option<string>)
    | NextPressed
    | BackPressed
    | SubmitPressed(upload: Upload)

  const Start := Wizard(1, Form("", "", "", "", "", "", None), map[])

  /** What a press on submit leads to: nothing when step two does not
      validate, the error toast when the upload is rejected (the update is
      then never sent), or the update. */
  datatype SubmitOutcome = StepTwoInvalid | UploadError | Sends(patch: ProfilePatch)

  /** `handleSubmit` up to the update request. The file is uploaded only
      when non-empty data is attached, and `upload` is the answer of that
      upload; without a file it is not consulted. */
  function Submit(w: Wizard, number: string -> Option<real>, upload: Upload): (r: (Wizard, SubmitOutcome))
    ensures r.0 == w.(errors := Step2Errors(w.form, number))
    ensures r.1.StepTwoInvalid? <==> !Step2Valid(w.form, number)
    ensures r.1.UploadError? <==>
      Step2Valid(w.form, number) && Truthy(w.form.healthFileData, "") && upload.UploadFailed?
    ensures r.1.Sends? ==> var p := r.1.patch;
      && p.firstName == Trim(w.form.firstName) && p.lastName == Trim(w.form.lastName)
      && p.phone == Trim(w.form.phone) && p.healthCondition == Trim(w.form.healthCondition)
      && p.age > 0.0 && p.weight > 0.0
      && (p.healthFileUrl.Some? <==>
            Truthy(w.form.healthFileData, "") && upload.Uploaded? && Truthy(upload.url, ""))
      && (p.healthFileUrl.Some? ==> p.healthFileUrl == upload.url)
  {
    Step2PassesIffNoErrors(w.form, number);
    var e := Step2Errors(w.form, number);
    if e != map[] then (w.(errors := e), StepTwoInvalid)
    else if Truthy(w.form.healthFileData, "") && upload.UploadFailed? then (w.(errors := e), UploadError)
    else
      var url := if Truthy(w.form.healthFileData, "") then upload.url else None;
      (w.(errors := e),
       Sends(ProfilePatch(Trim(w.form.firstName), Trim(w.form.lastName), Trim(w.form.phone),
                          number(w.form.age).value, number(w.form.weight).value,
                          Trim(w.form.healthCondition),
                          if Truthy(url, "") then url else None)))
  }

  /** One event: the new wizard and the update sent, if any. The basic
      fields are on screen only at step one and the health fields only at
      step two; the back and submit buttons belong to step two. */
  function Step(w: Wizard, ev: Event, number: string -> Option<real>): (r: (Wizard, Option<ProfilePatch>))
    ensures r.1.Some? ==> ev.SubmitPressed? && w.step == 2
    ensures ev.NextPressed? && w.step == 1 ==>
      r.0.errors == Step1Errors(w.form) && (r.0.step == 2 <==> Step1Valid(w.form))
    ensures ev.BackPressed? && w.step == 2 ==> r.0 == w.(step := 1, errors := map[])
    ensures !ev.NextPressed? && !ev.BackPressed? ==> r.0.step == w.step
  {
    match ev
    case EditBasics(first, last, phone) =>
      if w.step == 1 then (w.(form := w.form.(firstName := first, lastName := last, phone := phone)), None)
      else (w, None)
    case EditHealth(age, weight, condition, data) =>
      if w.step == 2 then
        (w.(form := w.form.(age := age, weight := weight, healthCondition := condition, healthFileData := data)), None)
      else (w, None)
    case NextPressed =>
      if w.step == 1 then
        Step1PassesIffNoErrors(w.form);
        var e := Step1Errors(w.form);
        (if e == map[] then w.(step := 2, errors := e) else w.(errors := e), None)
      else (w, None)
    case BackPressed =>
      if w.step == 2 then (w.(step := 1, errors := map[]), None) else (w, None)
    case SubmitPressed(upload) =>
      if w.step == 2 then
        var s := Submit(w, number, upload);
        (s.0, if s.1.Sends? then Some(s.1.patch) else None)
      else (w, None)
  }

  /** The wizard is on one of its two steps, and the second is reached only
      with valid basic details. */
  predicate Consistent(w: Wizard) {
    (w.step == 1 || w.step == 2) && (w.step == 2 ==> Step1Valid(w.form))
  }

  function Run(w: Wizard, events: seq<Event>, number: string -> Option<real>): (r: (Wizard, seq<ProfilePatch>))
    decreases |events|
  {
    if events == [] then (w, [])
    else
      var s := Step(w, events[0], number);
      var rest := Run(s.0, events[1..], number);
      (rest.0, (if s.1.Some? then [s.1.value] else []) + rest.1)
  }

  /** A sent profile always has both names, a phone number and a health
      condition, and a positive age and weight, whatever the user did
      before pressing submit. */
  predicate Complete(p: ProfilePatch) {
    p.firstName != [] && p.lastName != [] && p.phone != [] && p.healthCondition != []
    && p.age > 0.0 && p.weight > 0.0
  }

  lemma {:induction false} SentProfilesAreComplete(w: Wizard, events: seq<Event>, number: string -> Option<real>)
    requires Consistent(w)
    ensures Consistent(Run(w, events, number).0)
    ensures forall i | 0 <= i < |Run(w, events, number).1| :: Complete(Run(w, events, number).1[i])
    decreases |events|
  {
    if events != [] {
      var s := Step(w, events[0], number);
      StepConsistent(w, events[0], number);
      SentProfilesAreComplete(s.0, events[1..], number);
    }
  }

  lemma StepConsistent(w: Wizard, ev: Event, number: string -> Option<real>)
    requires Consistent(w)
    ensures Consistent(Step(w, ev, number).0)
    ensures Step(w, ev, number).1.Some? ==> Complete(Step(w, ev, number).1.value)
  {
    var r := Step(w, ev, number);
    match ev
    case EditBasics(_, _, _) =>
    case EditHealth(age, weight, condition, data) =>
      if w.step == 2 {
        var f := w.form.(age := age, weight := weight, healthCondition := condition, healthFileData := data);
        assert r.0.form == f;
        assert f.firstName == w.form.firstName && f.lastName == w.form.lastName && f.phone == w.form.phone;
      }
    case NextPressed =>
    case BackPressed =>
    case SubmitPressed(upload) =>
      if w.step == 2 && r.1.Some? {
        TrimEmptyIffBlank(w.form.firstName);
        TrimEmptyIffBlank(w.form.lastName);
        TrimEmptyIffBlank(w.form.phone);
        TrimEmptyIffBlank(w.form.healthCondition);
      }
  }

  lemma StartConsistent()
    ensures Consistent(Start)
  {
  }

  /** The progress bar tells the steps apart wherever the user has got
      to: half full exactly on step one, and full only on step two, which
      is reached only with valid basic details. */
  lemma ProgressShowsStep(events: seq<Event>, number: string -> Option<real>)
    ensures var w := Run(Start, events, number).0;
      && (ProgressValue(w.step) == 50 <==> w.step == 1)
      && (ProgressValue(w.step) == 100 <==> w.step == 2)
      && (ProgressValue(w.step) == 100 ==> Step1Valid(w.form))
  {
    StartConsistent();
    SentProfilesAreComplete(Start, events, number);
  }

  datatype Outcome = Saved | Incomplete | Failed

  /** After the update: the server's `profileCompleted`, or `None` when the
      upload or the update failed. Only a completed profile leaves the
      wizard, for the customer tabs. */
  function AfterSubmit(profileCompleted: Option<bool>): (r: (Outcome, bool))
    ensures r.1 <==> profileCompleted == Some(true)
    ensures r.0 == Failed <==> profileCompleted.None?
    ensures r.0 == Saved <==> r.1
  {
    match profileCompleted
    case None => (Failed, false)
    case Some(true) => (Saved, true)
    case Some(false) => (Incomplete, false)
  }
}
