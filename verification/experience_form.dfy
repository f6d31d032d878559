/** The experience page: a free-text summary, years and months typed as
    digits (months at most twelve), and two checkbox lists, each with an
    exclusive "Not Applicable" entry. */
module ExperienceForm {
  import opened Wrappers
  import opened Text
  import opened Sequences

  datatype Form = Form(
    professionalSummary: string,
    yearsOfExperience: string,
    monthsOfExperience: string,
    cloudPlatforms: seq<string>,
    codeAIExperience: seq<string>)

  const InitialForm: Form := Form("", "", "", [], [])

  const NotApplicableCloud: string := "Not Applicable-Cloud"
  const NotApplicableAI: string := "Not Applicable-AI"

  /** The largest number of months accepted. */
  const MaxMonths: nat := 12

  datatype InputField = ProfessionalSummary | YearsOfExperience | MonthsOfExperience

  datatype Alert = MonthsTooLarge | NegativeYears

  /** The form after an edit, and the alert raised, if any. */
  datatype Outcome = Outcome(form: Form, alert: Option<Alert>)

  function FieldOf(form: Form, f: InputField): string {
    match f
    case ProfessionalSummary => form.professionalSummary
    case YearsOfExperience => form.yearsOfExperience
    case MonthsOfExperience => form.monthsOfExperience
  }

  function WithField(form: Form, f: InputField, value: string): Form {
    match f
    case ProfessionalSummary => form.(professionalSummary := value)
    case YearsOfExperience => form.(yearsOfExperience := value)
    case MonthsOfExperience => form.(monthsOfExperience := value)
  }

  /** A field that only takes digits. */
  predicate IsNumeric(f: InputField) {
    f == YearsOfExperience || f == MonthsOfExperience
  }

  /** `handleInputChange`: years and months must match `^\d*$`, or the edit
      is dropped silently; months above twelve raise an alert and are
      dropped; the negative-years alert can never fire, since a digit string
      never parses to a negative number. */
  function HandleInputChange(form: Form, f: InputField, value: string): (o: Outcome)
    ensures IsNumeric(f) && !AllDigits(value) ==> o == Outcome(form, None)
    ensures o.alert == Some(MonthsTooLarge) <==>
              f == MonthsOfExperience && AllDigits(value) && value != [] && DecimalValue(value) > MaxMonths
    ensures o.alert != Some(NegativeYears)
    ensures o.alert.Some? ==> o.form == form
    ensures o.form != form ==> FieldOf(o.form, f) == value
    ensures (!IsNumeric(f) || AllDigits(value)) && o.alert.None? ==> o.form == WithField(form, f, value)
  {
    if IsNumeric(f) && !AllDigits(value) then Outcome(form, None)
    else if f == MonthsOfExperience && value != [] && DecimalValue(value) > MaxMonths then
      Outcome(form, Some(MonthsTooLarge))
    else if f == YearsOfExperience && value != [] && DecimalValue(value) < 0 then
      Outcome(form, Some(NegativeYears))
    else Outcome(WithField(form, f, value), None)
  }

  /** `list.filter(x => x !== name)`. */
  function Remove(list: seq<string>, name: string): (r: seq<string>)
    ensures name !in r
    ensures forall x :: x != name ==> (x in r <==> x in list)
    ensures IsSubseq(r, list)
    ensures forall x :: multiset(r)[x] == if x == name then 0 else multiset(list)[x]
  {
    if list == [] then []
    else
      assert list == [list[0]] + list[1..];
      if list[0] == name then Remove(list[1..], name)
      else [list[0]] + Remove(list[1..], name)
  }

  /** The shared body of the two regular checkbox handlers, for the list whose
      exclusive entry is `na`. The exclusive entry's own checkbox has its own
      handler, so this one ignores it. */
  function ToggleRegular(list: seq<string>, name: string, checked: bool, na: string): (r: seq<string>)
    ensures name == na ==> r == list
    ensures name != na && checked && na in list ==> r == [name]
    ensures name != na && checked && na !in list ==> r == list + [name]
    ensures name != na && !checked ==> IsSubseq(r, list) && name !in r
                                       && forall x :: multiset(r)[x] == if x == name then 0 else multiset(list)[x]
  {
    if name == na then list
    else if checked && na in list then [name]
    else if checked then list + [name]
    else Remove(list, name)
  }

  /** The handler of an exclusive entry's own checkbox: checking it leaves it
      alone in the list; unchecking it removes it. */
  function ToggleNotApplicable(list: seq<string>, checked: bool, na: string): (r: seq<string>)
    ensures checked ==> r == [na]
    ensures !checked ==> na !in r && IsSubseq(r, list)
                         && forall x :: multiset(r)[x] == if x == na then 0 else multiset(list)[x]
  {
    if checked then [na] else Remove(list, na)
  }

  /** `handleCheckboxChange`, for the cloud platforms. */
  function HandleCheckboxChange(form: Form, name: string, checked: bool): (r: Form)
    ensures r.cloudPlatforms == ToggleRegular(form.cloudPlatforms, name, checked, NotApplicableCloud)
    ensures r == form.(cloudPlatforms := r.cloudPlatforms)
  {
    form.(cloudPlatforms := ToggleRegular(form.cloudPlatforms, name, checked, NotApplicableCloud))
  }

  /** `handleCodeAICheckboxChange`, for the code assistants. */
  function HandleCodeAICheckboxChange(form: Form, name: string, checked: bool): (r: Form)
    ensures r.codeAIExperience == ToggleRegular(form.codeAIExperience, name, checked, NotApplicableAI)
    ensures r == form.(codeAIExperience := r.codeAIExperience)
  {
    form.(codeAIExperience := ToggleRegular(form.codeAIExperience, name, checked, NotApplicableAI))
  }

  /** The inline handler of the "Not Applicable" cloud checkbox. */
  function HandleCloudNotApplicable(form: Form, checked: bool): (r: Form)
    ensures r.cloudPlatforms == ToggleNotApplicable(form.cloudPlatforms, checked, NotApplicableCloud)
    ensures r == form.(cloudPlatforms := r.cloudPlatforms)
  {
    form.(cloudPlatforms := ToggleNotApplicable(form.cloudPlatforms, checked, NotApplicableCloud))
  }

  /** The inline handler of the "Not Applicable" code-assistant checkbox. */
  function HandleAINotApplicable(form: Form, checked: bool): (r: Form)
    ensures r.codeAIExperience == ToggleNotApplicable(form.codeAIExperience, checked, NotApplicableAI)
    ensures r == form.(codeAIExperience := r.codeAIExperience)
  {
    form.(codeAIExperience := ToggleNotApplicable(form.codeAIExperience, checked, NotApplicableAI))
  }

  /** `isFormValid`: the three texts are not blank and both lists have an entry. */
  predicate IsFormValid(form: Form) {
    && !IsBlank(form.professionalSummary)
    && !IsBlank(form.yearsOfExperience)
    && !IsBlank(form.monthsOfExperience)
    && |form.cloudPlatforms| > 0
    && |form.codeAIExperience| > 0
  }

  /** A list where the exclusive entry, when present, is alone. */
  predicate Exclusive(list: seq<string>, na: string) {
    na in list ==> list == [na]
  }

  /** What the page keeps true from its empty start: years and months are
      digit strings, months at most twelve, and each exclusive entry alone
      when present. */
  predicate WellFormed(form: Form) {
    && AllDigits(form.yearsOfExperience)
    && AllDigits(form.monthsOfExperience)
    && (form.monthsOfExperience != [] ==> DecimalValue(form.monthsOfExperience) <= MaxMonths)
    && Exclusive(form.cloudPlatforms, NotApplicableCloud)
    && Exclusive(form.codeAIExperience, NotApplicableAI)
  }

  /** The events of the page. */
  datatype Event =
    | Input(field: InputField, value: string)
    | CloudBox(name: string, checked: bool)
    | AIBox(name: string, checked: bool)
    | CloudNotApplicable(checked: bool)
    | AINotApplicable(checked: bool)

  function Step(form: Form, e: Event): Form {
    match e
    case Input(f, v) => HandleInputChange(form, f, v).form
    case CloudBox(n, c) => HandleCheckboxChange(form, n, c)
    case AIBox(n, c) => HandleCodeAICheckboxChange(form, n, c)
    case CloudNotApplicable(c) => HandleCloudNotApplicable(form, c)
    case AINotApplicable(c) => HandleAINotApplicable(form, c)
  }

  function Run(form: Form, events: seq<Event>): Form
    decreases |events|
  {
    if events == [] then form else Run(Step(form, events[0]), events[1..])
  }

  lemma InitialWellFormed()
    ensures WellFormed(InitialForm)
  {
  }

  /** Checking or unchecking a regular entry keeps the exclusive entry alone. */
  lemma ToggleRegularKeepsExclusive(list: seq<string>, name: string, checked: bool, na: string)
    requires Exclusive(list, na)
    ensures Exclusive(ToggleRegular(list, name, checked, na), na)
  {
    var r := ToggleRegular(list, name, checked, na);
    if name != na && !checked && na in list {
      assert list == [na];
      assert na in r;
      assert r == [na] by {
        assert Remove([na], name) == [na] + Remove([], name);
      }
    }
  }

  /** Every event keeps the form well formed. */
  lemma StepKeepsWellFormed(form: Form, e: Event)
    requires WellFormed(form)
    ensures WellFormed(Step(form, e))
  {
    match e
    case CloudBox(n, c) => ToggleRegularKeepsExclusive(form.cloudPlatforms, n, c, NotApplicableCloud);
    case AIBox(n, c) => ToggleRegularKeepsExclusive(form.codeAIExperience, n, c, NotApplicableAI);
    case _ =>
  }

  /** From the empty form, any sequence of events leaves the form well formed. */
  lemma {:induction false} RunKeepsWellFormed(form: Form, events: seq<Event>)
    requires WellFormed(form)
    ensures WellFormed(Run(form, events))
    decreases |events|
  {
    if events != [] {
      StepKeepsWellFormed(form, events[0]);
      RunKeepsWellFormed(Step(form, events[0]), events[1..]);
    }
  }

  /** On a well-formed form, years and months count as filled in exactly when
      they are not empty, since digits are never whitespace. */
  lemma ValidOnWellFormed(form: Form)
    requires WellFormed(form)
    ensures IsFormValid(form) <==>
              && !IsBlank(form.professionalSummary)
              && form.yearsOfExperience != [] && form.monthsOfExperience != []
              && form.cloudPlatforms != [] && form.codeAIExperience != []
  {
    DigitsNotBlank(form.yearsOfExperience);
    DigitsNotBlank(form.monthsOfExperience);
  }

  /** A non-empty digit string is not blank. */
  lemma DigitsNotBlank(s: string)
    requires AllDigits(s)
    ensures IsBlank(s) <==> s == []
  {
    if s != [] {
      assert !IsSpace(s[0]);
    }
  }

  /** When each checkbox event reports the opposite of the box's current state,
      a list never holds an entry twice. */
  lemma ToggleKeepsDistinct(list: seq<string>, name: string, checked: bool, na: string, naChecked: bool)
    requires Distinct(list)
    requires checked == (name !in list) && naChecked == (na !in list)
    ensures Distinct(ToggleRegular(list, name, checked, na))
    ensures Distinct(ToggleNotApplicable(list, naChecked, na))
  {
    if name != na && name in list {
      RemoveKeepsDistinct(list, name);
    }
    if na in list {
      RemoveKeepsDistinct(list, na);
    }
    var r := ToggleRegular(list, name, checked, na);
    if name != na && name !in list && na !in list {
      forall i, j | 0 <= i < j < |r| ensures r[i] != r[j] {
        if j == |list| {
          assert r[j] == name;
          assert r[i] == list[i];
        }
      }
    }
  }

  predicate Distinct(list: seq<string>) {
    forall i, j :: 0 <= i < j < |list| ==> list[i] != list[j]
  }

  lemma {:induction false} RemoveKeepsDistinct(list: seq<string>, name: string)
    requires Distinct(list)
    ensures Distinct(Remove(list, name))
  {
    if list != [] {
      assert Distinct(list[1..]);
      RemoveKeepsDistinct(list[1..], name);
      var rest := Remove(list[1..], name);
      if list[0] != name {
        var r := [list[0]] + rest;
        forall i, j | 0 <= i < j < |r| ensures r[i] != r[j] {
          if i == 0 {
            assert r[j] in rest;
            assert list[0] !in list[1..];
          }
        }
      }
    }
  }
}
