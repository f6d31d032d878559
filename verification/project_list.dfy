/** The project list of the projects page: text-field edits, date edits with
    their duplicate, in-progress and ordering rules, and adding a project.
    Dates are day numbers; a missing date is `None`. Every alert the page
    raises is a transition that reports the alert. */
module ProjectList {
  import opened Wrappers
  import opened Text

  datatype Project = Project(
    title: string,
    description: string,
    role: string,
    programmingLanguages: string,
    devOpsTools: string,
    versionController: string,
    legacyToolsInfo: string,
    databases: string,
    startDate: Option<int>,
    endDate: Option<int>)

  /** The record a new project starts as: every text empty, no dates. */
  const EmptyProject: Project := Project("", "", "", "", "", "", "", "", None, None)

  /** The version-controller choice that asks for more information. */
  const LegacyTools: string := "Legacy-Tools"

  datatype TextField =
    | Title | Description | Role | ProgrammingLanguages | DevOpsTools
    | VersionController | LegacyToolsInfo | Databases

  datatype DateField = StartDate | EndDate

  /** The alerts a date edit can raise. */
  datatype Alert = DuplicateDate(field: DateField) | SecondInProgress | EndNotAfterStart

  /** The list after a date edit, and the alert raised, if any. */
  datatype Outcome = Outcome(projects: seq<Project>, alert: Option<Alert>)

  function TextOf(p: Project, f: TextField): string {
    match f
    case Title => p.title
    case Description => p.description
    case Role => p.role
    case ProgrammingLanguages => p.programmingLanguages
    case DevOpsTools => p.devOpsTools
    case VersionController => p.versionController
    case LegacyToolsInfo => p.legacyToolsInfo
    case Databases => p.databases
  }

  function DateOf(p: Project, f: DateField): Option<int> {
    match f
    case StartDate => p.startDate
    case EndDate => p.endDate
  }

  /** `project[name] = value` for a text field. */
  function WithText(p: Project, f: TextField, value: string): (q: Project)
    ensures TextOf(q, f) == value
    ensures forall g :: g != f ==> TextOf(q, g) == TextOf(p, g)
    ensures q.startDate == p.startDate && q.endDate == p.endDate
  {
    match f
    case Title => p.(title := value)
    case Description => p.(description := value)
    case Role => p.(role := value)
    case ProgrammingLanguages => p.(programmingLanguages := value)
    case DevOpsTools => p.(devOpsTools := value)
    case VersionController => p.(versionController := value)
    case LegacyToolsInfo => p.(legacyToolsInfo := value)
    case Databases => p.(databases := value)
  }

  /** `project[name] = value` for a date field. */
  function WithDate(p: Project, f: DateField, value: Option<int>): (q: Project)
    ensures DateOf(q, f) == value
    ensures forall g :: g != f ==> DateOf(q, g) == DateOf(p, g)
    ensures forall t :: TextOf(q, t) == TextOf(p, t)
  {
    match f
    case StartDate => p.(startDate := value)
    case EndDate => p.(endDate := value)
  }

  /** `isProjectInProgress`: started and not ended. */
  predicate IsProjectInProgress(p: Project) {
    p.startDate.Some? && p.endDate.None?
  }

  /** `isDateDuplicate(date, field, current)`: a project other than `current`
      already has this date in the same field. A missing date is never a duplicate. */
  predicate IsDateDuplicate(projects: seq<Project>, date: Option<int>, f: DateField, current: int) {
    date.Some? && exists i :: 0 <= i < |projects| && i != current && DateOf(projects[i], f) == date
  }

  /** A project other than `current` is in progress. */
  predicate OtherInProgress(projects: seq<Project>, current: int) {
    exists i :: 0 <= i < |projects| && i != current && IsProjectInProgress(projects[i])
  }

  /** `handleDateChange(index, name, value)`.

      A duplicate date, or clearing an end date while another project is in
      progress, is refused and nothing changes. A new start date clears an
      end date that is not after it. An end date that is not after the start
      date is refused too, but by then the project object, which the list
      copy shares with the current list, has already had its end date set and
      then cleared: the project is left with no end date at all. */
  function HandleDateChange(projects: seq<Project>, index: nat, f: DateField, value: Option<int>): (o: Outcome)
    requires index < |projects|
    ensures |o.projects| == |projects|
    ensures forall j :: 0 <= j < |projects| && j != index ==> o.projects[j] == projects[j]
    ensures forall t :: TextOf(o.projects[index], t) == TextOf(projects[index], t)
    ensures IsDateDuplicate(projects, value, f, index) <==> o.alert == Some(DuplicateDate(f))
    ensures o.alert == Some(DuplicateDate(f)) || o.alert == Some(SecondInProgress) ==> o.projects == projects
    ensures o.alert == Some(SecondInProgress) <==>
              !IsDateDuplicate(projects, value, f, index) && f == EndDate && value.None? && OtherInProgress(projects, index)
    ensures o.alert.None? ==> DateOf(o.projects[index], f) == value
    ensures o.alert == Some(EndNotAfterStart) <==>
              && f == EndDate && value.Some? && !IsDateDuplicate(projects, value, f, index)
              && projects[index].startDate.Some? && value.value <= projects[index].startDate.value
    ensures o.alert == Some(EndNotAfterStart) ==> o.projects[index].endDate.None?
    ensures o.alert != Some(DuplicateDate(f)) && o.alert != Some(SecondInProgress) ==> Ordered(o.projects[index])
    ensures o.alert.Some? && o.alert.value.DuplicateDate? ==> o.alert.value.field == f
    ensures f == EndDate ==> o.projects[index].startDate == projects[index].startDate
    ensures f == StartDate && o.alert.None? ==>
              o.projects[index].endDate ==
                if projects[index].endDate.Some? && value.Some? && projects[index].endDate.value <= value.value
                then None else projects[index].endDate
  {
    if IsDateDuplicate(projects, value, f, index) then
      Outcome(projects, Some(DuplicateDate(f)))
    else if f == EndDate && value.None? && OtherInProgress(projects, index) then
      Outcome(projects, Some(SecondInProgress))
    else
      var edited := WithDate(projects[index], f, value);
      var p :=
        if f == StartDate && edited.endDate.Some? && value.Some? && edited.endDate.value <= value.value
        then edited.(endDate := None) else edited;
      if f == EndDate && value.Some? && p.startDate.Some? && value.value <= p.startDate.value then
        Outcome(projects[index := p.(endDate := None)], Some(EndNotAfterStart))
      else
        Outcome(projects[index := p], None)
  }

  /** `handleInputChange(index, e)` for a text field: only that field of that
      project changes. */
  function HandleInputChange(projects: seq<Project>, index: nat, f: TextField, value: string): (r: seq<Project>)
    requires index < |projects|
    ensures |r| == |projects|
    ensures TextOf(r[index], f) == value
    ensures forall g :: g != f ==> TextOf(r[index], g) == TextOf(projects[index], g)
    ensures r[index].startDate == projects[index].startDate && r[index].endDate == projects[index].endDate
    ensures forall j :: 0 <= j < |projects| && j != index ==> r[j] == projects[j]
  {
    projects[index := WithText(projects[index], f, value)]
  }

  /** `addNextProject`: one empty project is appended. */
  function AddNextProject(projects: seq<Project>): (r: seq<Project>)
    ensures |r| == |projects| + 1
    ensures r[..|projects|] == projects
    ensures r[|projects|] == EmptyProject
  {
    projects + [EmptyProject]
  }

  /** A project filled in enough to allow adding the next one. The tools
      field is optional; the legacy-tools details are needed only when the
      version controller is "Legacy-Tools". */
  predicate IsComplete(p: Project) {
    && !IsBlank(p.title)
    && !IsBlank(p.description)
    && !IsBlank(p.role)
    && !IsBlank(p.programmingLanguages)
    && !IsBlank(p.versionController)
    && (p.versionController != LegacyTools || !IsBlank(p.legacyToolsInfo))
    && !IsBlank(p.databases)
    && p.startDate.Some?
  }

  /** `isAddNextProjectEnabled`: some project is complete. */
  predicate IsAddNextProjectEnabled(projects: seq<Project>) {
    exists i :: 0 <= i < |projects| && IsComplete(projects[i])
  }

  /** A project whose two dates, when both present, are in order. */
  predicate Ordered(p: Project) {
    p.startDate.Some? && p.endDate.Some? ==> p.startDate.value < p.endDate.value
  }

  /** No two projects share a date in field `f`. */
  predicate DistinctDates(projects: seq<Project>, f: DateField) {
    forall i, j :: 0 <= i < |projects| && 0 <= j < |projects| && i != j && DateOf(projects[i], f).Some?
      ==> DateOf(projects[i], f) != DateOf(projects[j], f)
  }

  /** The invariant the page keeps: start dates distinct, end dates distinct,
      every project ordered. */
  predicate Consistent(projects: seq<Project>) {
    && DistinctDates(projects, StartDate)
    && DistinctDates(projects, EndDate)
    && forall i :: 0 <= i < |projects| ==> Ordered(projects[i])
  }

  /** The page starts with one empty project, which is consistent. */
  lemma InitialConsistent()
    ensures Consistent([EmptyProject])
  {
  }

  /** Date edits keep the list consistent. */
  lemma DateChangeKeepsConsistent(projects: seq<Project>, index: nat, f: DateField, value: Option<int>)
    requires index < |projects| && Consistent(projects)
    ensures Consistent(HandleDateChange(projects, index, f, value).projects)
  {
    var o := HandleDateChange(projects, index, f, value);
    var q := o.projects;
    if o.projects != projects {
      forall g: DateField, i, j | 0 <= i < |q| && 0 <= j < |q| && i != j && DateOf(q[i], g).Some?
        ensures DateOf(q[i], g) != DateOf(q[j], g)
      {
        DistinctAfterEdit(projects, q, index, f, value, g, i, j);
      }
    }
  }

  /** One pair of projects after an accepted date edit still differs in field `g`. */
  lemma DistinctAfterEdit(projects: seq<Project>, q: seq<Project>, index: nat, f: DateField, value: Option<int>,
                          g: DateField, i: nat, j: nat)
    requires index < |projects| && Consistent(projects)
    requires q == HandleDateChange(projects, index, f, value).projects
    requires i < |q| && j < |q| && i != j && DateOf(q[i], g).Some?
    ensures DateOf(q[i], g) != DateOf(q[j], g)
  {
    var o := HandleDateChange(projects, index, f, value);
    var edited := DateOf(q[index], g);
    // The edited project's date in `g` is the new value, nothing, or unchanged.
    assert edited == DateOf(projects[index], g) || edited.None? || (g == f && edited == value);
    if edited.Some? && g == f && edited == value && edited != DateOf(projects[index], g) {
      assert !IsDateDuplicate(projects, value, f, index);
    }
  }

  /** Adding a project keeps the list consistent. */
  lemma AddKeepsConsistent(projects: seq<Project>)
    requires Consistent(projects)
    ensures Consistent(AddNextProject(projects))
  {
    var r := AddNextProject(projects);
    forall g: DateField, i, j | 0 <= i < |r| && 0 <= j < |r| && i != j && DateOf(r[i], g).Some?
      ensures DateOf(r[i], g) != DateOf(r[j], g)
    {
      if j < |projects| && i < |projects| {
        assert r[i] == projects[i] && r[j] == projects[j];
      }
    }
  }

  /** Text edits keep the list consistent. */
  lemma InputChangeKeepsConsistent(projects: seq<Project>, index: nat, f: TextField, value: string)
    requires index < |projects| && Consistent(projects)
    ensures Consistent(HandleInputChange(projects, index, f, value))
  {
    var r := HandleInputChange(projects, index, f, value);
    assert forall i :: 0 <= i < |r| ==> r[i].startDate == projects[i].startDate && r[i].endDate == projects[i].endDate;
  }

  /** An end date refused for not being after the start date does not leave
      the previous end date in place: the project ends up with none. */
  lemma RefusedEndDateDropsPrevious(projects: seq<Project>, index: nat, value: int)
    requires index < |projects|
    requires projects[index].startDate.Some? && value <= projects[index].startDate.value
    requires !IsDateDuplicate(projects, Some(value), EndDate, index)
    ensures var o := HandleDateChange(projects, index, EndDate, Some(value));
            o.alert == Some(EndNotAfterStart) && o.projects[index].endDate.None?
            && o.projects[index].startDate == projects[index].startDate
  {
  }

  /** Clearing an end date is refused while another project is in progress,
      but that does not make "at most one project in progress" an invariant:
      two start dates set on two fresh projects put both in progress with no
      alert. */
  lemma TwoInProgressReachable()
    ensures var s0 := AddNextProject([EmptyProject]);
            var o1 := HandleDateChange(s0, 0, StartDate, Some(1));
            var o2 := HandleDateChange(o1.projects, 1, StartDate, Some(2));
            && o1.alert.None? && o2.alert.None?
            && IsProjectInProgress(o2.projects[0]) && IsProjectInProgress(o2.projects[1])
  {
    var s0 := AddNextProject([EmptyProject]);
    assert !IsDateDuplicate(s0, Some(1), StartDate, 0);
    var o1 := HandleDateChange(s0, 0, StartDate, Some(1));
    assert !IsDateDuplicate(o1.projects, Some(2), StartDate, 1);
  }

  /** The events of the page: a text edit or a date edit of one project, or
      the "Add Next Project" button. The page only renders handlers for
      projects it lists, so an edit naming no listed project changes nothing. */
  datatype Event =
    | EditText(index: nat, text: TextField, value: string)
    | EditDate(index: nat, date: DateField, when: Option<int>)
    | AddProject

  function Step(projects: seq<Project>, e: Event): seq<Project> {
    match e
    case EditText(i, f, v) => if i < |projects| then HandleInputChange(projects, i, f, v) else projects
    case EditDate(i, f, v) => if i < |projects| then HandleDateChange(projects, i, f, v).projects else projects
    case AddProject => AddNextProject(projects)
  }

  function Run(projects: seq<Project>, events: seq<Event>): seq<Project>
    decreases |events|
  {
    if events == [] then projects else Run(Step(projects, events[0]), events[1..])
  }

  /** Every event keeps the list consistent. */
  lemma StepKeepsConsistent(projects: seq<Project>, e: Event)
    requires Consistent(projects)
    ensures Consistent(Step(projects, e))
  {
    match e
    case EditText(i, f, v) =>
      if i < |projects| {
        InputChangeKeepsConsistent(projects, i, f, v);
      }
    case EditDate(i, f, v) =>
      if i < |projects| {
        DateChangeKeepsConsistent(projects, i, f, v);
      }
    case AddProject => AddKeepsConsistent(projects);
  }

  /** From the starting list, any sequence of events keeps the start dates
      distinct, the end dates distinct and every project ordered. */
  lemma {:induction false} RunKeepsConsistent(projects: seq<Project>, events: seq<Event>)
    requires Consistent(projects)
    ensures Consistent(Run(projects, events))
    decreases |events|
  {
    if events != [] {
      StepKeepsConsistent(projects, events[0]);
      RunKeepsConsistent(Step(projects, events[0]), events[1..]);
    }
  }

  /** A fresh project is never complete, so adding one does not change
      whether the button is enabled. */
  lemma AddKeepsEnabled(projects: seq<Project>)
    ensures IsAddNextProjectEnabled(AddNextProject(projects)) == IsAddNextProjectEnabled(projects)
  {
    var r := AddNextProject(projects);
    if IsAddNextProjectEnabled(r) {
      var i :| 0 <= i < |r| && IsComplete(r[i]);
      if i == |projects| {
        EmptyProjectIncomplete();
      } else {
        assert r[i] == projects[i];
      }
    }
    if IsAddNextProjectEnabled(projects) {
      var i :| 0 <= i < |projects| && IsComplete(projects[i]);
      assert r[i] == projects[i];
    }
  }

  lemma EmptyProjectIncomplete()
    ensures !IsComplete(EmptyProject)
  {
    assert AllSpace(EmptyProject.title);
  }

  /** The tools field never matters for completeness, and the legacy-tools
      details matter only when the version controller is "Legacy-Tools". */
  lemma OptionalFields(p: Project, value: string)
    ensures IsComplete(WithText(p, DevOpsTools, value)) == IsComplete(p)
    ensures p.versionController != LegacyTools ==>
              IsComplete(WithText(p, LegacyToolsInfo, value)) == IsComplete(p)
    ensures p.versionController == LegacyTools && IsBlank(value) ==> !IsComplete(WithText(p, LegacyToolsInfo, value))
  {
  }

  /** A project needs a start date, and each required text, to be complete. */
  lemma RequiredFields(p: Project, f: TextField, value: string)
    requires f != DevOpsTools && f != LegacyToolsInfo && IsBlank(value)
    ensures !IsComplete(WithText(p, f, value))
    ensures !IsComplete(WithDate(p, StartDate, None))
  {
  }
}
