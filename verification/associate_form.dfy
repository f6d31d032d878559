/** The associate details page: name and mobile fields checked as they are
    typed, a country → state → city cascade over a fixed table, two fixed
    menus, and the rule that enables the Next button. */
module AssociateForm {
  import opened Text
  import opened Locations

  /** The page's location table: two countries, two states each. */
  const LocationData: seq<Country> := [
    Country("USA", [
      Region("California", ["Los Angeles", "San Francisco", "San Diego"]),
      Region("Texas", ["Houston", "Austin", "Dallas"])]),
    Country("India", [
      Region("Karnataka", ["Bangalore", "Mysore", "Hubli"]),
      Region("TamilNadu", ["Chennai", "Coimbatore", "Madurai"])])]

  const Suffixes: seq<string> := ["Mr", "Miss", "Mrs"]
  const Practices: seq<string> := ["Horizontal", "Vertical"]

  datatype Field =
    | FirstName | MiddleName | LastName | Suffix | MobileNumber
    | CountryField | StateField | CityField | Practice

  datatype Form = Form(
    firstName: string, middleName: string, lastName: string, suffix: string,
    mobileNumber: string, country: string, state: string, city: string, practice: string)

  const InitialForm: Form := Form("", "", "", "", "", "", "", "", "")

  /** The error messages kept per field; "" means no error. */
  datatype Errors = Errors(
    firstName: string, middleName: string, lastName: string, city: string, mobileNumber: string)

  const NoErrors: Errors := Errors("", "", "", "", "")

  /** The page state: the form, the state and city menus, and the errors. */
  datatype Page = Page(form: Form, states: seq<string>, cities: seq<string>, errors: Errors)

  const InitialPage: Page := Page(InitialForm, [], [], NoErrors)

  /** The name the page uses for a field, as it appears in error messages. */
  function Key(f: Field): string {
    match f
    case FirstName => "firstName"
    case MiddleName => "middleName"
    case LastName => "lastName"
    case Suffix => "suffix"
    case MobileNumber => "mobileNumber"
    case CountryField => "country"
    case StateField => "state"
    case CityField => "city"
    case Practice => "practice"
  }

  function FieldOf(form: Form, f: Field): string {
    match f
    case FirstName => form.firstName
    case MiddleName => form.middleName
    case LastName => form.lastName
    case Suffix => form.suffix
    case MobileNumber => form.mobileNumber
    case CountryField => form.country
    case StateField => form.state
    case CityField => form.city
    case Practice => form.practice
  }

  /** `{...formData, [name]: value}`. */
  function WithField(form: Form, f: Field, value: string): (r: Form)
    ensures forall g :: FieldOf(r, g) == if g == f then value else FieldOf(form, g)
  {
    match f
    case FirstName => form.(firstName := value)
    case MiddleName => form.(middleName := value)
    case LastName => form.(lastName := value)
    case Suffix => form.(suffix := value)
    case MobileNumber => form.(mobileNumber := value)
    case CountryField => form.(country := value)
    case StateField => form.(state := value)
    case CityField => form.(city := value)
    case Practice => form.(practice := value)
  }

  /** `[a-zA-Z\s]`. */
  predicate IsLetterOrSpace(c: char) {
    ('a' <= c <= 'z') || ('A' <= c <= 'Z') || IsSpace(c)
  }

  /** `^[a-zA-Z\s]*$`. */
  predicate LettersOrSpaces(s: string) {
    forall i :: 0 <= i < |s| ==> IsLetterOrSpace(s[i])
  }

  /** `^[0-9]{10}$`. */
  predicate IsTenDigits(s: string) {
    |s| == 10 && AllDigits(s)
  }

  /** The fields checked for letters and spaces only. */
  predicate IsLettersChecked(f: Field) {
    f == FirstName || f == MiddleName || f == LastName || f == CityField
  }

  const MobileError: string := "Mobile number must be 10 digits"

  function LettersError(f: Field): string {
    Key(f) + " must contain only letters"
  }

  /** The error kept for a field checked for letters and spaces. */
  function ErrorOf(errors: Errors, f: Field): string {
    match f
    case FirstName => errors.firstName
    case MiddleName => errors.middleName
    case LastName => errors.lastName
    case CityField => errors.city
    case _ => ""
  }

  /** The errors after an edit: a field checked for letters gets an error exactly when
      the value has a character other than a letter or whitespace, the mobile number exactly when it is
      not ten digits; every other error is kept. */
  function NewErrors(errors: Errors, f: Field, value: string): (r: Errors)
    ensures IsLettersChecked(f) ==> (ErrorOf(r, f) == "" <==> LettersOrSpaces(value))
    ensures IsLettersChecked(f) && !LettersOrSpaces(value) ==> ErrorOf(r, f) == LettersError(f)
    ensures f == MobileNumber ==> (r.mobileNumber == "" <==> IsTenDigits(value))
    ensures f != MobileNumber ==> r.mobileNumber == errors.mobileNumber
    ensures forall g :: g != f ==> ErrorOf(r, g) == ErrorOf(errors, g)
  {
    if IsLettersChecked(f) then
      var msg := if LettersOrSpaces(value) then "" else LettersError(f);
      match f
      case FirstName => errors.(firstName := msg)
      case MiddleName => errors.(middleName := msg)
      case LastName => errors.(lastName := msg)
      case _ => errors.(city := msg)
    else if f == MobileNumber then
      errors.(mobileNumber := if IsTenDigits(value) then "" else MobileError)
    else errors
  }

  /** The state menu after an edit: the keys of the chosen country's entry, or
      nothing for an unknown country. */
  function NewStates(page: Page, f: Field, value: string): seq<string> {
    if f == CountryField then StateOptions(LocationData, value) else page.states
  }

  /** The city menu after an edit: emptied by a country change, the chosen
      state's list (or nothing) after a state change. */
  function NewCities(page: Page, f: Field, value: string): seq<string> {
    if f == CountryField then []
    else if f == StateField then CityOptions(LocationData, page.form.country, value)
    else page.cities
  }

  /** `handleInputChange` as written. The country and state branches queue a
      form with the dependent fields cleared, but the closing update, built
      from the same pre-edit form, is queued last and wins: only the edited
      field changes. */
  function HandleInputChangeAsWritten(page: Page, f: Field, value: string): (r: Page)
    ensures forall g :: FieldOf(r.form, g) == if g == f then value else FieldOf(page.form, g)
    ensures r.states == NewStates(page, f, value) && r.cities == NewCities(page, f, value)
    ensures r.errors == NewErrors(page.errors, f, value)
  {
    Page(WithField(page.form, f, value), NewStates(page, f, value), NewCities(page, f, value),
         NewErrors(page.errors, f, value))
  }

  /** The form the country and state branches ask for: a new country clears
      the state and the city, a new state clears the city. */
  function CascadeForm(form: Form, f: Field, value: string): (r: Form)
    ensures FieldOf(r, f) == value
    ensures forall g :: g != f && g != StateField && g != CityField ==> FieldOf(r, g) == FieldOf(form, g)
    ensures f == CountryField ==> r.state == "" && r.city == ""
    ensures f == StateField ==> r.city == ""
    ensures f != CountryField && f != StateField ==> r == WithField(form, f, value)
  {
    if f == CountryField then form.(country := value, state := "", city := "")
    else if f == StateField then form.(state := value, city := "")
    else WithField(form, f, value)
  }

  /** `handleInputChange` with the resets of the country and state branches
      kept, as the cascade evidently intends. */
  function HandleInputChange(page: Page, f: Field, value: string): (r: Page)
    ensures r.form == CascadeForm(page.form, f, value)
    ensures r.states == NewStates(page, f, value) && r.cities == NewCities(page, f, value)
    ensures r.errors == NewErrors(page.errors, f, value)
  {
    Page(CascadeForm(page.form, f, value), NewStates(page, f, value), NewCities(page, f, value),
         NewErrors(page.errors, f, value))
  }

  /** The values a field can receive: anything for a typed field, a menu entry
      for a menu (the state and city menus are disabled while empty). */
  predicate Offered(page: Page, f: Field, value: string) {
    match f
    case Suffix => value in Suffixes
    case CountryField => value in CountryNames(LocationData)
    case StateField => value in page.states
    case CityField => value in page.cities
    case Practice => value in Practices
    case _ => true
  }

  /** `isFormValid`: the required fields are filled in and the first name, last
      name and mobile number carry no error. */
  predicate IsFormValid(page: Page) {
    && page.form.firstName != "" && page.form.lastName != "" && page.form.mobileNumber != ""
    && page.form.country != "" && page.form.state != "" && page.form.city != ""
    && page.form.practice != "" && page.form.suffix != ""
    && page.errors.firstName == "" && page.errors.lastName == "" && page.errors.mobileNumber == ""
  }

  /** The menus follow the chosen country and state, and the chosen state and
      city are entries of their menus. */
  predicate Consistent(page: Page) {
    && page.states == StateOptions(LocationData, page.form.country)
    && page.cities == CityOptions(LocationData, page.form.country, page.form.state)
    && (page.form.state == "" || page.form.state in page.states)
    && (page.form.city == "" || page.form.city in page.cities)
  }

  /** The typed name fields: the letters-and-whitespace fields other than the city menu. */
  predicate IsNameField(f: Field) {
    IsLettersChecked(f) && f != CityField
  }

  /** The errors describe the current field values: a name field has an error
      exactly when it holds another character, and the mobile number has none
      only while it is ten digits or still untouched. (The city's error is left
      out: clearing the city on a new country keeps its error.) */
  predicate ErrorsAgree(page: Page) {
    && (forall g :: IsNameField(g) ==> (ErrorOf(page.errors, g) == "" <==> LettersOrSpaces(FieldOf(page.form, g))))
    && (page.errors.mobileNumber == "" ==> page.form.mobileNumber == "" || IsTenDigits(page.form.mobileNumber))
    && (page.errors.mobileNumber != "" ==> !IsTenDigits(page.form.mobileNumber))
  }

  /** No key of the table is empty. */
  lemma NoEmptyKeys()
    ensures forall i :: 0 <= i < |LocationData| ==> LocationData[i].name != ""
    ensures forall i, j :: 0 <= i < |LocationData| && 0 <= j < |LocationData[i].regions| ==>
              LocationData[i].regions[j].name != ""
  {
  }

  /** A country with no state chosen offers no cities. */
  lemma NoStateNoCities(country: string)
    ensures CityOptions(LocationData, country, "") == []
  {
    NoEmptyKeys();
  }

  lemma InitialHolds()
    ensures Consistent(InitialPage) && ErrorsAgree(InitialPage)
  {
    NoEmptyKeys();
    assert StateOptions(LocationData, "") == [];
    NoStateNoCities("");
  }

  /** An edit through a menu entry keeps the menus and the chosen location
      consistent. */
  lemma EditKeepsConsistent(page: Page, f: Field, value: string)
    requires Consistent(page) && Offered(page, f, value)
    ensures Consistent(HandleInputChange(page, f, value))
  {
    if f == CountryField {
      NoStateNoCities(value);
    }
  }

  /** Every edit keeps the errors in step with the field values. */
  lemma EditKeepsErrorsAgree(page: Page, f: Field, value: string)
    requires ErrorsAgree(page)
    ensures ErrorsAgree(HandleInputChange(page, f, value))
  {
    var r := HandleInputChange(page, f, value);
    forall g | IsNameField(g)
      ensures ErrorOf(r.errors, g) == "" <==> LettersOrSpaces(FieldOf(r.form, g))
    {
      if g != f {
        assert FieldOf(r.form, g) == FieldOf(page.form, g);
      }
    }
  }

  /** The edit as written keeps the errors in step too: the errors do not
      depend on the dependent fields. */
  lemma EditAsWrittenKeepsErrorsAgree(page: Page, f: Field, value: string)
    requires ErrorsAgree(page)
    ensures ErrorsAgree(HandleInputChangeAsWritten(page, f, value))
  {
    var r := HandleInputChangeAsWritten(page, f, value);
    forall g | IsNameField(g)
      ensures ErrorOf(r.errors, g) == "" <==> LettersOrSpaces(FieldOf(r.form, g))
    {
      if g != f {
        assert FieldOf(r.form, g) == FieldOf(page.form, g);
      }
    }
  }

  /** A sequence of edits, each through what the page offers at that point. */
  datatype Edit = Edit(field: Field, value: string)

  predicate AllOffered(page: Page, edits: seq<Edit>)
    decreases |edits|
  {
    edits == [] ||
    (Offered(page, edits[0].field, edits[0].value) &&
     AllOffered(HandleInputChange(page, edits[0].field, edits[0].value), edits[1..]))
  }

  function Run(page: Page, edits: seq<Edit>): Page
    decreases |edits|
  {
    if edits == [] then page
    else Run(HandleInputChange(page, edits[0].field, edits[0].value), edits[1..])
  }

  /** From the empty page, any sequence of offered edits keeps the page
      consistent and its errors in step. */
  lemma {:induction false} RunKeepsInvariants(page: Page, edits: seq<Edit>)
    requires Consistent(page) && ErrorsAgree(page) && AllOffered(page, edits)
    ensures Consistent(Run(page, edits)) && ErrorsAgree(Run(page, edits))
    decreases |edits|
  {
    if edits != [] {
      EditKeepsConsistent(page, edits[0].field, edits[0].value);
      EditKeepsErrorsAgree(page, edits[0].field, edits[0].value);
      RunKeepsInvariants(HandleInputChange(page, edits[0].field, edits[0].value), edits[1..]);
    }
  }

  /** A valid, consistent page names a real location: a listed country, one
      of its states and one of that state's cities. */
  lemma ValidMeansRealLocation(page: Page)
    requires Consistent(page) && IsFormValid(page)
    ensures page.form.country in CountryNames(LocationData)
    ensures page.form.state in StateOptions(LocationData, page.form.country)
    ensures page.form.city in CityOptions(LocationData, page.form.country, page.form.state)
  {
    match FindKey(CountryNames(LocationData), page.form.country)
    case Some(i) => assert CountryNames(LocationData)[i] == page.form.country;
    case None =>
  }

  /** A valid page whose errors are in step has clean names and a ten-digit
      mobile number. */
  lemma ValidMeansCleanFields(page: Page)
    requires ErrorsAgree(page) && IsFormValid(page)
    ensures LettersOrSpaces(page.form.firstName) && LettersOrSpaces(page.form.lastName)
    ensures IsTenDigits(page.form.mobileNumber)
  {
    assert ErrorOf(page.errors, FirstName) == "";
    assert ErrorOf(page.errors, LastName) == "";
  }

  /** A filled-in page: Miss Asha Rao, in Austin, Texas, USA. */
  const Austin: Page := Page(
    Form("Asha", "", "Rao", "Miss", "9876543210", "USA", "Texas", "Austin", "Vertical"),
    ["California", "Texas"], ["Houston", "Austin", "Dallas"], NoErrors)

  /** As written, picking India on that page keeps "Texas" and "Austin": the
      page stays valid with a state India does not have. */
  lemma StaleStateAsWritten()
    ensures Consistent(Austin) && ErrorsAgree(Austin) && IsFormValid(Austin)
    ensures Offered(Austin, CountryField, "India")
    ensures var r := HandleInputChangeAsWritten(Austin, CountryField, "India");
            && IsFormValid(r) && r.form.state == "Texas" && r.form.city == "Austin"
            && r.states == ["Karnataka", "TamilNadu"] && !Consistent(r)
  {
    AustinHolds();
    IndiaStatesListed();
    var r := HandleInputChangeAsWritten(Austin, CountryField, "India");
    assert "Texas" !in r.states;
  }

  lemma AustinHolds()
    ensures Consistent(Austin) && ErrorsAgree(Austin) && IsFormValid(Austin)
    ensures Offered(Austin, CountryField, "India")
  {
    assert CountryNames(LocationData)[1] == "India";
    assert ErrorOf(Austin.errors, FirstName) == "" && LettersOrSpaces(Austin.form.firstName);
  }

  lemma IndiaStatesListed()
    ensures StateOptions(LocationData, "India") == ["Karnataka", "TamilNadu"]
  {
  }

  /** As written, picking California on that page keeps "Austin" as the city,
      which the new city menu does not hold. */
  lemma StaleCityAsWritten()
    ensures Offered(Austin, StateField, "California")
    ensures var r := HandleInputChangeAsWritten(Austin, StateField, "California");
            && IsFormValid(r) && r.form.city == "Austin"
            && r.cities == ["Los Angeles", "San Francisco", "San Diego"] && !Consistent(r)
  {
    var r := HandleInputChangeAsWritten(Austin, StateField, "California");
    assert CityOptions(LocationData, "USA", "California") == ["Los Angeles", "San Francisco", "San Diego"];
    assert "Austin" !in r.cities;
  }

  /** With the resets kept, the same edit clears the state and the city, so the
      page cannot be submitted until a state and a city of India are chosen. */
  lemma IntendedClearsLocation()
    ensures var r := HandleInputChange(Austin, CountryField, "India");
            && r.form.state == "" && r.form.city == "" && !IsFormValid(r) && Consistent(r)
  {
    StaleStateAsWritten();
    EditKeepsConsistent(Austin, CountryField, "India");
  }
}
