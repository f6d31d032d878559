# Resume wizard rules, modelled in Dafny

This project models the rule-based parts of a resume-building wizard. The wizard is a React front end plus a small Gradio helper. Each part is a pure Dafny function over immutable records, and the properties each promises are proved:

- **Profile summariser** (`summarizer.dfy` and its helpers):
  - a validity gate;
  - a technical-skill scan over a 63-entry catalog;
  - a management score over 18 keywords;
  - the "N years of experience" pattern, written as an explicit left-to-right scan;
  - key topics taken from a given list of sentences;
  - a first-match-wins role classifier;
  - the summary built from four clauses.
- **Project list** (`project_list.dfy`) of the projects page:
  - text edits;
  - date edits, with duplicate-date, in-progress and end-after-start rules;
  - adding a project;
  - the "Add Next Project" condition.
- **Experience page** (`experience_form.dfy`):
  - digit-only years and months, with months at most twelve;
  - two checkbox lists, each with an exclusive "Not Applicable" entry;
  - the validity check.
- **Associate details page** (`associate_form.dfy`):
  - letters-and-whitespace and ten-digit checks;
  - the country → state → city menus;
  - the validity check.
- **Python details helper** (`professional_details.dfy`):
  - its location table, with the `update_states` and `update_cities` lookups;
  - the Markdown text built by `collect_details`.

Shared pieces:

- `text.dfy` holds JavaScript string semantics: `trim`, `\s`, ASCII `toLowerCase`, `includes`, digit strings and `join`.
- `locations.dfy` holds the nested country/state/city lookup that both location pickers use.
- `wrappers.dfy` holds `Option`.

Dates are day numbers (`Option<int>`, where `None` is `null`). An `alert` is modelled as a refused transition that returns an alert value. Each page handler is a function from the old page state to the new one. Invariants are proved for one step and then for any sequence of steps.

## Model

| member | source | states |
|---|---|---|
| Summarizer.GenerateSummaryAndRole | my-app/src/components/Summarize.js:10-65 | Details that fail the gate give exactly the "Invalid Details…" summary and "Invalid Role". Valid details give the summary composed from the years, skills, topics and score found in them. |
| Summarizer.InvalidMarkedIffRefused | my-app/src/components/Summarize.js:11-17 | The summary starts with "Invalid", which the page shows in red, exactly when the details are blank or shorter than 20 characters. |
| Summarizer.InvalidRoleIffRefused | my-app/src/components/Summarize.js:11-17 | The role is "Invalid Role" exactly when the gate refuses the details. The classifier never produces that title. |
| Summarizer.ClassifierNeverSaysInvalid | my-app/src/components/Summarize.js:144-181 | None of the classifier's fifteen titles is "Invalid Role". |
| Summarizer.ExperienceClauseRoundTrip | my-app/src/components/Summarize.js:35-39 | The number in the opening clause reads back as the years it was built from, whatever follows it. |
| Summarizer.SummaryReportsYears | my-app/src/components/Summarize.js:26-39 | The summary of valid details reports exactly the years the pattern extracted. |
| Summarizer.ComposeReportsYears | my-app/src/components/Summarize.js:32-58 | The experience clause comes first, so the years can be read back from the start of the composed summary. |
| Summarizer.SkillsClauseNamesShown | my-app/src/components/Summarize.js:42-44 | Each of the first five skills found occurs in the skills clause. |
| Summarizer.SkillsClauseMarksMore | my-app/src/components/Summarize.js:43 | The skills clause ends with ", and other technologies. " exactly when more than five skills were found. This holds for skill names shorter than 22 characters. |
| Summarizer.SummaryMarksMoreSkills | my-app/src/components/Summarize.js:23-43 | The same if-and-only-if holds for the skills the catalog scan actually returns, since every catalog entry is short. |
| Summarizer.TopicsClauseNamesEach | my-app/src/components/Summarize.js:49-51 | Every key topic occurs in the topics clause. |
| Summarizer.ComposeMentions | my-app/src/components/Summarize.js:32-58 | The summary names the first five skills and every key topic. It carries the "strong leadership" sentence when the score is above 3, and the "potential" sentence when the score is 2 or 3. It ends with the "strong" sentence above 3, with the "potential" sentence at 2 or 3, and with the topics clause at 1 or below. The summary is the leadership-free summary followed by the leadership clause, so at 1 or below it is exactly the leadership-free summary. |
| Summarizer.ComposeEnds | my-app/src/components/Summarize.js:32-58 | Nothing follows the leadership clause, and with no leadership clause nothing follows the topics clause. The score only appends its clause to the summary built without one, so at a score of 1 or below no leadership sentence appears after the topics, even when there are no topics. |
| Summarizer.SummaryRoleIsClassified | my-app/src/components/Summarize.js:61-64 | For valid details, the role shown is the classifier's role for the skills, score and text found in them. |
| SkillScan.ExtractTechnicalSkills | my-app/src/components/Summarize.js:68-96 | The result keeps catalog order. A skill is reported exactly when it is in the catalog and its lower-cased name occurs in the lower-cased text. At most 63 skills are reported. Each found skill is reported as often as the catalog lists it, and no other skill is reported. |
| SkillScan.HitsCount | my-app/src/components/Summarize.js:89-93 | A found entry is reported as often as the catalog lists it. An entry that is not found is not reported. |
| SkillScan.DynamoDBReportedTwice | my-app/src/components/Summarize.js:75-79 | A text mentioning "dynamodb" gets "DynamoDB" reported at two positions of the skill list. |
| SkillScan.SkillsMonotone | my-app/src/components/Summarize.js:89-93 | Appending text never loses a skill already found. |
| SkillScan.CalculateManagementScore | my-app/src/components/Summarize.js:106-123 | The score is the number of keyword positions whose keyword occurs in the lower-cased text. It is at most 18. |
| SkillScan.ScoreMonotone | my-app/src/components/Summarize.js:116-120 | Appending text never lowers the management score. |
| SkillScan.LeadershipScoresThree | my-app/src/components/Summarize.js:108 | A text containing "leadership" scores at least 3, because "lead" and "leader" are found too. |
| SkillScan.HitsInOrder | my-app/src/components/Summarize.js:89-93 | A scan's hits are a subsequence of its catalog, and each hit is found in the text. |
| SkillScan.HitsMembership | my-app/src/components/Summarize.js:89-93 | An entry is a hit exactly when it is in the catalog and found in the text. |
| SkillScan.HitsAppend | my-app/src/components/Summarize.js:89-93 | Scanning two catalog groups one after the other gives the two scans one after the other. |
| YearsPattern.ExtractExperienceYears | my-app/src/components/Summarize.js:99-103 | With no match the result is 0. Otherwise it is the value of the digits captured at the leftmost match. A positive result comes from a match. |
| YearsPattern.MatchAtIffPattern | my-app/src/components/Summarize.js:100 | The greedy scan matches at a position exactly when `(\d+)[\s-]*years? of experience` (ignoring ASCII case) matches there. Every split of such a match is the greedy one, so backtracking cannot change the capture. |
| YearsPattern.FirstMatch | my-app/src/components/Summarize.js:101 | The match found is the leftmost one at or after the start. When no match is found, the pattern matches nowhere. |
| YearsPattern.DigitRunEnd | my-app/src/components/Summarize.js:100 | `\d+` taken greedily: the run is all digits and is followed by a non-digit or the end. |
| YearsPattern.SepRunEnd | my-app/src/components/Summarize.js:100 | `[\s-]*` taken greedily: the run is all separators and is followed by a non-separator or the end. |
| KeyTopics.FirstVerb | my-app/src/components/Summarize.js:128-131 | The leftmost position where an action verb and a space begin, with the end of the first alternative that matches there. When nothing is found, no position matches. |
| KeyTopics.VerbMatchEnd | my-app/src/components/Summarize.js:128 | The alternatives are tried in the pattern's order. The first that fits, followed by a space, gives the end of the verb. |
| KeyTopics.UntilPeriod | my-app/src/components/Summarize.js:128 | `[^.]*` taken greedily: a prefix with no period, followed by a period or the end. |
| KeyTopics.TopicOfShape | my-app/src/components/Summarize.js:130-137 | A sentence's topic is a trimmed factor of the sentence. It is 6 to 49 characters long, has no period and no edge whitespace. A sentence with no action verb gives no topic. |
| KeyTopics.ExtractKeyTopics | my-app/src/components/Summarize.js:126-141 | The result is the first min(3, n) of the n topics the sentences yield, each 6 to 49 characters long. |
| KeyTopics.TopicsOfAppend | my-app/src/components/Summarize.js:130 | Topics follow sentence order: the topics of two runs of sentences are the topics of each, one after the other. |
| KeyTopics.OneTopicPerSentence | my-app/src/components/Summarize.js:130-138 | A sentence contributes its own topic or nothing. |
| KeyTopics.TopicsAtMostSentences | my-app/src/components/Summarize.js:130-138 | There are never more topics than sentences. |
| KeyTopics.LaterSentencesIgnored | my-app/src/components/Summarize.js:140 | Once three topics are found, later sentences change nothing. |
| RoleClassifier.TrackOf | my-app/src/components/Summarize.js:148-166 | The chosen track is mentioned by the skills, and no earlier track in the order cloud, AI/ML, frontend, backend, DevOps is. With no track chosen, none is mentioned. |
| RoleClassifier.DetermineBestRole | my-app/src/components/Summarize.js:144-181 | The returned title reads back as the classified role, so it is one of the fifteen titles. |
| RoleClassifier.ParseTitleInverts | my-app/src/components/Summarize.js:149-180 | Every role's title reads back as that role, so no two roles share a title. |
| RoleClassifier.MentionsAnyIff | my-app/src/components/Summarize.js:148 | `skills.some(s => list.includes(s))` holds exactly when some skill is in the list. |
| RoleClassifier.RoleFollowsTrack | my-app/src/components/Summarize.js:148-166 | The role's track is the first track the skills mention, whatever the score. |
| RoleClassifier.LeadershipIffScoreAboveThree | my-app/src/components/Summarize.js:149-180 | The role is a leading one (architect, manager or team lead) exactly when the score is above 3. |
| RoleClassifier.LeadershipMonotone | my-app/src/components/Summarize.js:149-180 | Raising the score keeps the track and never takes leadership away. |
| RoleClassifier.TeamLeadAtFour | my-app/src/components/Summarize.js:168-180 | With no track and a score of exactly 4, the role is Technical Team Lead whatever the text says. |
| RoleClassifier.DeveloperAtThreeOrLess | my-app/src/components/Summarize.js:168-180 | With no track and a score of 3 or less, the role is Software Developer. |
| RoleClassifier.ProductBeforeProject | my-app/src/components/Summarize.js:169-177 | With no track and a score above 4, a text mentioning "product" gets Product Manager. Failing that, one mentioning "project" gets Project Manager, and otherwise the role is Engineering Manager. |
| RoleClassifier.CloudSkillWins | my-app/src/components/Summarize.js:148-150 | Any reported cloud skill makes the role a cloud role, whatever else is reported. |
| ProjectList.HandleDateChange | my-app/src/components/ProjectsSummary.js:60-99 | A duplicate date is refused exactly when `isDateDuplicate` holds, and the list is unchanged. Clearing an end date while another project is in progress is refused the same way. An end date not after the start raises an alert and leaves no end date. Other projects and all text fields are untouched, and every accepted edit leaves the project's dates in order. A duplicate-date alert names the edited field. An end-date edit keeps the start date. An accepted start-date edit clears an end date that is not after the new start, and keeps it otherwise. |
| ProjectList.RefusedEndDateDropsPrevious | my-app/src/components/ProjectsSummary.js:61-95 | A refused end date leaves the project with no end date at all, not its previous one. |
| ProjectList.DateChangeKeepsConsistent | my-app/src/components/ProjectsSummary.js:60-99 | Date edits keep start dates pairwise distinct, end dates pairwise distinct, and each project's dates in order. |
| ProjectList.AddKeepsConsistent | my-app/src/components/ProjectsSummary.js:102-118 | Adding a project keeps that invariant. |
| ProjectList.InputChangeKeepsConsistent | my-app/src/components/ProjectsSummary.js:27-46 | Text edits keep that invariant. |
| ProjectList.StepKeepsConsistent | my-app/src/components/ProjectsSummary.js:27-117 | Every event of the page keeps that invariant: a text edit, a date edit, or adding a project. |
| ProjectList.RunKeepsConsistent | my-app/src/components/ProjectsSummary.js:27-117 | From a consistent list, any sequence of events keeps start dates distinct, end dates distinct and every project's dates in order. |
| ProjectList.InitialConsistent | my-app/src/components/ProjectsSummary.js:11-24 | The page's single empty starting project satisfies the invariant. |
| ProjectList.TwoInProgressReachable | my-app/src/components/ProjectsSummary.js:70-118 | Two projects in progress are reachable with no alert, so "at most one in progress" is not an invariant. |
| ProjectList.HandleInputChange | my-app/src/components/ProjectsSummary.js:27-46 | Only the named text field of the named project changes. |
| ProjectList.AddNextProject | my-app/src/components/ProjectsSummary.js:102-118 | The list grows by one empty project, and the existing projects stay as they were. |
| ProjectList.AddKeepsEnabled | my-app/src/components/ProjectsSummary.js:102-132 | A fresh project is never complete, so adding one does not change whether "Add Next Project" is enabled. |
| ProjectList.OptionalFields | my-app/src/components/ProjectsSummary.js:121-132 | The DevOps tools never matter for completeness. The legacy-tools note matters only when the version controller is "Legacy-Tools", and then it is required. |
| ProjectList.RequiredFields | my-app/src/components/ProjectsSummary.js:121-132 | A blank required text, or a missing start date, makes a project incomplete. |
| ProjectList.WithText | my-app/src/components/ProjectsSummary.js:30 | Setting a text field changes that field only. |
| ProjectList.WithDate | my-app/src/components/ProjectsSummary.js:78 | Setting a date field changes that field only. |
| ExperienceForm.HandleInputChange | my-app/src/components/ExperienceSummary.js:18-42 | A years or months value that is not all digits is dropped without an alert. Months above 12 raise an alert and are dropped. The negative-years alert never fires. An accepted edit sets exactly the edited field. |
| ExperienceForm.ToggleRegular | my-app/src/components/ExperienceSummary.js:45-88 | Checking an entry while "Not Applicable" is present gives exactly that entry. Otherwise checking appends it, and unchecking removes every copy while keeping the others in order and with their multiplicities. The exclusive entry's own name is ignored. |
| ExperienceForm.ToggleNotApplicable | my-app/src/components/ExperienceSummary.js:250-263 | Checking the exclusive entry leaves it alone in the list. Unchecking it removes every copy of it and keeps every other entry in order and with its multiplicity. |
| ExperienceForm.Remove | my-app/src/components/ExperienceSummary.js:59-62 | `filter(x => x !== name)` drops every copy of the name, keeps every other entry as often as it occurred, and keeps the order. |
| ExperienceForm.HandleCheckboxChange | my-app/src/components/ExperienceSummary.js:45-65 | The cloud handler toggles the cloud list and leaves the summary, years, months and code-assistant list as they were. |
| ExperienceForm.HandleCodeAICheckboxChange | my-app/src/components/ExperienceSummary.js:68-88 | The code-assistant handler toggles the code-assistant list and leaves the summary, years, months and cloud list as they were. |
| ExperienceForm.HandleCloudNotApplicable | my-app/src/components/ExperienceSummary.js:250-263 | The inline cloud handler toggles "Not Applicable" in the cloud list and leaves every other field as it was. |
| ExperienceForm.HandleAINotApplicable | my-app/src/components/ExperienceSummary.js:333-346 | The inline code-assistant handler toggles "Not Applicable" in the code-assistant list and leaves every other field as it was. |
| ExperienceForm.RunKeepsWellFormed | my-app/src/components/ExperienceSummary.js:9-88 | From the empty form, any sequence of events keeps these true: years and months are digit strings, months are at most 12, and each exclusive entry is alone when present. |
| ExperienceForm.StepKeepsWellFormed | my-app/src/components/ExperienceSummary.js:18-88 | Every event keeps the form well formed. |
| ExperienceForm.ValidOnWellFormed | my-app/src/components/ExperienceSummary.js:91-99 | On a well-formed form, the page is valid exactly when the summary is not blank, years and months are not empty, and both lists have an entry. |
| ExperienceForm.ToggleKeepsDistinct | my-app/src/components/ExperienceSummary.js:45-88 | When every checkbox event flips the box's current state, a list never holds an entry twice. |
| AssociateForm.NewErrors | my-app/src/components/ResumeForm.js:43-60 | A first, middle or last name, or a city, gets an error exactly when it holds a character other than an ASCII letter or whitespace. The mobile error is empty exactly when the value is ten ASCII digits. Other errors stay. |
| AssociateForm.HandleInputChangeAsWritten | my-app/src/components/ResumeForm.js:39-77 | As written, only the edited field changes in the form: the final update at line 76 wins over the resets at lines 66 and 72. The menus follow the new country or state. |
| AssociateForm.HandleInputChange | my-app/src/components/ResumeForm.js:63-76 | The corrected handler keeps the resets: a new country clears the state and city, and a new state clears the city. |
| AssociateForm.CascadeForm | my-app/src/components/ResumeForm.js:63-76 | The edited field takes the value. A new country clears state and city, a new state clears city, and every other field stays. |
| AssociateForm.EditKeepsConsistent | my-app/src/components/ResumeForm.js:63-73 | With the resets, an edit through what the page offers keeps the menus equal to the table's entries for the chosen country and state. The chosen state and city stay empty or on the menus. |
| AssociateForm.EditKeepsErrorsAgree | my-app/src/components/ResumeForm.js:43-60 | Every edit keeps the name errors and the mobile error in step with the field values. |
| AssociateForm.EditAsWrittenKeepsErrorsAgree | my-app/src/components/ResumeForm.js:43-60 | The handler as written keeps the errors in step too. |
| AssociateForm.RunKeepsInvariants | my-app/src/components/ResumeForm.js:17-77 | From the empty page, any sequence of offered edits keeps the menus consistent and the errors in step. |
| AssociateForm.ValidMeansRealLocation | my-app/src/components/ResumeForm.js:87-98 | A valid, consistent page names a listed country, one of its states and one of that state's cities. |
| AssociateForm.ValidMeansCleanFields | my-app/src/components/ResumeForm.js:87-98 | A valid page with errors in step has first and last names of letters and whitespace only and a ten-digit mobile number. |
| AssociateForm.StaleStateAsWritten | my-app/src/components/ResumeForm.js:63-76 | As written, picking India on a valid Austin, Texas page keeps "Texas" and "Austin", so the page stays valid with a state India does not have. |
| AssociateForm.StaleCityAsWritten | my-app/src/components/ResumeForm.js:69-76 | As written, picking California on that page keeps "Austin" as the city, although the new city menu does not hold it. |
| AssociateForm.IntendedClearsLocation | my-app/src/components/ResumeForm.js:63-67 | With the resets, the same edit clears state and city, so the page is not valid until a state and a city of India are chosen. |
| AssociateForm.NoStateNoCities | my-app/src/components/ResumeForm.js:71 | A country with no state chosen offers no cities. |
| Locations.FindKey | professional_details_input.py:68-75 | A lookup on one level of the table finds the first position holding the key, or reports that the key is not listed. |
| Locations.CitiesIffBothKnown | professional_details_input.py:72-76 | On a well-formed table, cities are offered exactly when the country is listed and the state is listed under it. |
| Locations.LookupsReturnEntries | professional_details_input.py:66-76 | Looking up a listed country gives its states, and looking up one of those states gives its cities. |
| Locations.UnknownCountry | my-app/src/components/ResumeForm.js:64-71 | An unknown country has no states and no cities (the empty-object fallback). |
| Locations.StatesAreKeys | my-app/src/components/ResumeForm.js:64 | A state is offered exactly when the country's entry lists it. |
| Locations.AscendingDistinct | professional_details_input.py:9-38 | Keys listed in strictly increasing order are distinct, as a dictionary's keys are. |
| ProfessionalDetails.UpdateStates | professional_details_input.py:66-70 | An unlisted country gives no states. A listed country gives its entry's state keys. |
| ProfessionalDetails.UpdateCities | professional_details_input.py:72-76 | Cities are offered exactly when the country is listed and the state is one of its states. |
| ProfessionalDetails.UpdateCitiesReturnsEntry | professional_details_input.py:72-76 | A listed state of a listed country gives back that state's own city list. |
| ProfessionalDetails.TableWellFormed | professional_details_input.py:4-39 | The table is a proper nested dictionary: no key repeats at any level, and every state lists cities. |
| ProfessionalDetails.IndiaAlphabetical | professional_details_input.py:9-38 | India's states are offered in alphabetical order. |
| ProfessionalDetails.ThreeCitiesEach | professional_details_input.py:5-38 | Every state of the table lists exactly three cities. |
| ProfessionalDetails.UdaipurUnderTwoStates | professional_details_input.py:30-34 | Udaipur is offered under both Rajasthan and Tripura, so city names are not unique. |
| ProfessionalDetails.CollectDetails | professional_details_input.py:41-64 | The text opens with the contact block, followed by the photo line, followed by exactly the project blocks. |
| ProfessionalDetails.LastBlockEnds | professional_details_input.py:56-64 | With projects, the text ends with the block of the last project, numbered with the count of projects. |
| ProfessionalDetails.NoProjectsEndsWithPhoto | professional_details_input.py:51-64 | Without projects, the text ends with the photo line. |
| ProfessionalDetails.PhotoReported | professional_details_input.py:51-54 | The text after the contact block announces "Photo Uploaded Successfully" exactly when a photo was given, and "No Photo Uploaded" exactly when none was. |
| ProfessionalDetails.ProjectsNumberedInOrder | professional_details_input.py:56-63 | Project k, counting from 0, appears after the blocks of the projects before it. It is built as block k + 1, and its number reads back as k + 1. |
| ProfessionalDetails.BlocksAppend | professional_details_input.py:56-63 | The blocks of two lists one after the other are the blocks of the joined list, the second list numbered on from the first. |
| ProfessionalDetails.BlockNumberRoundTrip | professional_details_input.py:58 | A block's number reads back as the number it was built with. |
| Text.Trim | my-app/src/components/Summarize.js:11 | `trim()` is empty exactly when the text is all whitespace. Otherwise it neither starts nor ends with whitespace. It is the factor of the text that starts after the leading whitespace and is followed by whitespace only. |
| Text.TrimPosition | my-app/src/components/Summarize.js:11 | Trimming the start and then the end drops only whitespace at the two edges. |
| Text.TrimStart | my-app/src/components/ExperienceSummary.js:93 | Only leading whitespace is dropped. |
| Text.TrimEnd | my-app/src/components/ExperienceSummary.js:93 | Only trailing whitespace is dropped. |
| Text.Includes | my-app/src/components/Summarize.js:90 | The left-to-right search `includes` performs decides substring containment. |
| Text.Lower | my-app/src/components/Summarize.js:87 | ASCII lower-casing keeps the length and maps each character on its own. |
| Text.DecimalRoundTrip | my-app/src/components/Summarize.js:102 | A number printed by a template literal parses back (`parseInt`) to the same number. |
| Text.NatToStringInjective | my-app/src/components/Summarize.js:36 | Distinct numbers print differently. |
| Text.JoinContainsEach | my-app/src/components/Summarize.js:43-50 | Every joined part occurs in `join`'s result. |
| Text.JoinLast | my-app/src/components/Summarize.js:43 | A join of several parts ends with the separator and the last part. |

## Left out

- The `compromise` sentence splitter (my-app/src/components/Summarize.js:20, 47) is a foreign library. `GenerateSummaryAndRole` takes the sentences as an input.
- Full Unicode `toLowerCase` and the case-insensitive regular expressions are modelled as ASCII lower-casing. Non-ASCII letters are left as they are.
- JavaScript string length counts UTF-16 code units. The model counts characters, so the 20-character gate and the topic-length bounds differ only for text outside the Basic Multilingual Plane.
- `parseInt` is modelled on unbounded naturals. Precision loss above 2^53 is not modelled.
- I/O, rendering, navigation, styling, `alert` (modelled as an alert value), `console.log`, and the `setTimeout`/`focus`/`dispatchEvent` autocomplete hack in the projects page are left out.
- Dates are day numbers. dayjs objects, time of day and time zones are not modelled. `isSame(…, 'day')` and `isBefore` become `==` and `<` on day numbers.
- The summariser page receives no state from the projects page (my-app/src/components/ProjectsSummary.js:612), so on the live path it always shows the invalid summary. The summariser is modelled on its input anyway.
- Properties inherited by JavaScript objects (`locationData["constructor"]`) are not modelled. Lookups see only the listed keys.
- AssociateForm.NoErrors: the middle-name and city error keys are absent from the initial errors object and are modelled as "". Neither is consulted by `isFormValid`.
- AssociateForm.ErrorsAgree: does not track the city error. A country change clears the city without re-checking it, so the stored city error may describe an earlier city. `isFormValid` never reads it.
- ProfessionalDetails.CollectDetails: Python `None` field values are not modelled; every field is a string. A photo is modelled as a truth value, which is all `if photo:` reads.
- The Gradio interface wiring in professional_details_input.py:79-119 is I/O and is not modelled.
- The suggestion lists and menu items the pages render are presentation only.

## Findings

| source | as written | input that shows it | evidently intended | confidence | as-written member | corrected member |
|---|---|---|---|---|---|---|
| my-app/src/components/ResumeForm.js:63-76 | After the country and state branches, the last `setFormData({ ...formData, [name]: value })` is built from the pre-change form. It replaces the reset of state and city queued at lines 66 and 72. | A valid page with country USA, state Texas and city Austin, then choosing country India: the page stays valid with state "Texas" and city "Austin", which the India menus do not offer. Choosing state California keeps city "Austin". | A new country clears state and city, and a new state clears city, so the chosen location always sits on the menus. | not executed | AssociateForm.HandleInputChangeAsWritten (shown by AssociateForm.StaleStateAsWritten and AssociateForm.StaleCityAsWritten) | AssociateForm.HandleInputChange (proved by AssociateForm.EditKeepsConsistent, AssociateForm.RunKeepsInvariants, AssociateForm.IntendedClearsLocation) |
