/** `determineBestRole`: the first specialist track any reported skill
    belongs to decides the role, the management score picks the lead or the
    individual-contributor title; with no track, a general title follows
    from the score and from the words "product" and "project". */
module RoleClassifier {
  import opened Wrappers
  import opened Text

  /** The specialist tracks, in the order they are tried. */
  datatype Track = Cloud | DataScience | Frontend | Backend | DevOps

  /** The skill names that place a candidate on a track. */
  function TrackSkills(t: Track): seq<string> {
    match t
    case Cloud => ["AWS", "Azure", "GCP", "EC2", "S3", "Lambda", "CloudFormation"]
    case DataScience => ["Machine Learning", "AI", "Deep Learning", "TensorFlow", "PyTorch", "NLP", "Data Mining"]
    case Frontend => ["React", "Angular", "Vue", "JavaScript", "TypeScript", "HTML", "CSS"]
    case Backend => ["Java", "Spring", "Node.js", "Express", "Django", "Flask", "ASP.NET"]
    case DevOps => ["Docker", "Kubernetes", "Jenkins", "GitLab CI", "GitHub Actions", "Terraform", "Ansible"]
  }

  /** The roles the classifier can suggest. */
  datatype Role =
    | TrackLead(track: Track)
    | TrackMember(track: Track)
    | ProductManager | ProjectManager | EngineeringManager | TechnicalTeamLead | SoftwareDeveloper
  {
    /** The track a role belongs to, if it is a specialist role. */
    function TrackOfRole(): Option<Track> {
      match this
      case TrackLead(t) => Some(t)
      case TrackMember(t) => Some(t)
      case _ => None
    }

    /** The role leads people. */
    predicate IsLeadership() {
      !(TrackMember? || SoftwareDeveloper?)
    }
  }

  /** The text shown for each role. */
  function Title(r: Role): string {
    match r
    case TrackLead(Cloud) => "Cloud Solutions Architect"
    case TrackMember(Cloud) => "Cloud Engineer"
    case TrackLead(DataScience) => "Data Science Manager"
    case TrackMember(DataScience) => "Data Scientist"
    case TrackLead(Frontend) => "Frontend Engineering Manager"
    case TrackMember(Frontend) => "Frontend Developer"
    case TrackLead(Backend) => "Backend Engineering Manager"
    case TrackMember(Backend) => "Backend Developer"
    case TrackLead(DevOps) => "DevOps Manager"
    case TrackMember(DevOps) => "DevOps Engineer"
    case ProductManager => "Product Manager"
    case ProjectManager => "Project Manager"
    case EngineeringManager => "Engineering Manager"
    case TechnicalTeamLead => "Technical Team Lead"
    case SoftwareDeveloper => "Software Developer"
  }

  /** Reads a title back into the role it names. */
  function ParseTitle(title: string): Option<Role> {
    if title == "Cloud Solutions Architect" then Some(TrackLead(Cloud))
    else if title == "Cloud Engineer" then Some(TrackMember(Cloud))
    else if title == "Data Science Manager" then Some(TrackLead(DataScience))
    else if title == "Data Scientist" then Some(TrackMember(DataScience))
    else if title == "Frontend Engineering Manager" then Some(TrackLead(Frontend))
    else if title == "Frontend Developer" then Some(TrackMember(Frontend))
    else if title == "Backend Engineering Manager" then Some(TrackLead(Backend))
    else if title == "Backend Developer" then Some(TrackMember(Backend))
    else if title == "DevOps Manager" then Some(TrackLead(DevOps))
    else if title == "DevOps Engineer" then Some(TrackMember(DevOps))
    else if title == "Product Manager" then Some(ProductManager)
    else if title == "Project Manager" then Some(ProjectManager)
    else if title == "Engineering Manager" then Some(EngineeringManager)
    else if title == "Technical Team Lead" then Some(TechnicalTeamLead)
    else if title == "Software Developer" then Some(SoftwareDeveloper)
    else None
  }

  /** Every role's title reads back as that role, so no two roles share a title. */
  lemma ParseTitleInverts(r: Role)
    ensures ParseTitle(Title(r)) == Some(r)
  {
    match r
    case TrackLead(t) => LeadTitlesInvert(t);
    case TrackMember(t) => MemberTitlesInvert(t);
    case ProductManager => ProductManagerInverts();
    case ProjectManager => ProjectManagerInverts();
    case EngineeringManager => EngineeringManagerInverts();
    case _ => OtherTitlesInvert();
  }

  lemma LeadTitlesInvert(t: Track)
    ensures ParseTitle(Title(TrackLead(t))) == Some(TrackLead(t))
  {
  }

  lemma MemberTitlesInvert(t: Track)
    ensures ParseTitle(Title(TrackMember(t))) == Some(TrackMember(t))
  {
  }

  lemma ProductManagerInverts()
    ensures ParseTitle(Title(ProductManager)) == Some(ProductManager)
  {
  }

  lemma ProjectManagerInverts()
    ensures ParseTitle(Title(ProjectManager)) == Some(ProjectManager)
  {
  }

  lemma EngineeringManagerInverts()
    ensures ParseTitle(Title(EngineeringManager)) == Some(EngineeringManager)
  {
  }

  lemma OtherTitlesInvert()
    ensures ParseTitle(Title(TechnicalTeamLead)) == Some(TechnicalTeamLead)
    ensures ParseTitle(Title(SoftwareDeveloper)) == Some(SoftwareDeveloper)
  {
  }

  /** Some skill of the list is reported: `techSkills.some(skill => list.includes(skill))`. */
  predicate MentionsAny(skills: seq<string>, list: seq<string>) {
    skills != [] && (skills[0] in list || MentionsAny(skills[1..], list))
  }

  lemma {:induction false} MentionsAnyIff(skills: seq<string>, list: seq<string>)
    ensures MentionsAny(skills, list) <==> exists s :: s in skills && s in list
  {
    if skills != [] {
      MentionsAnyIff(skills[1..], list);
      if s :| s in skills && s in list && s != skills[0] {
        assert s in skills[1..];
      }
    }
  }

  predicate Mentions(skills: seq<string>, t: Track) {
    MentionsAny(skills, TrackSkills(t))
  }

  /** The position of a track in the order tracks are tried. */
  function Rank(t: Track): nat {
    match t
    case Cloud => 0
    case DataScience => 1
    case Frontend => 2
    case Backend => 3
    case DevOps => 4
  }

  /** The first track, in the order they are tried, that the skills mention. */
  function TrackOf(skills: seq<string>): (r: Option<Track>)
    ensures r.Some? ==> Mentions(skills, r.value)
    ensures r.Some? ==> forall u: Track :: Rank(u) < Rank(r.value) ==> !Mentions(skills, u)
    ensures r.None? ==> forall u: Track :: !Mentions(skills, u)
  {
    if Mentions(skills, Cloud) then Some(Cloud)
    else if Mentions(skills, DataScience) then Some(DataScience)
    else if Mentions(skills, Frontend) then Some(Frontend)
    else if Mentions(skills, Backend) then Some(Backend)
    else if Mentions(skills, DevOps) then Some(DevOps)
    else None
  }

  /** The role `determineBestRole` chooses. */
  function ClassifyRole(skills: seq<string>, managementScore: nat, text: string): Role
  {
    match TrackOf(skills)
    case Some(t) => if managementScore > 3 then TrackLead(t) else TrackMember(t)
    case None =>
      if managementScore > 4 then
        var lower := Lower(text);
        if Includes(lower, "product") then ProductManager
        else if Includes(lower, "project") then ProjectManager
        else EngineeringManager
      else if managementScore > 3 then TechnicalTeamLead
      else SoftwareDeveloper
  }

  /** `determineBestRole(techSkills, managementScore, text)`: the chosen role's title. */
  function DetermineBestRole(skills: seq<string>, managementScore: nat, text: string): (title: string)
    ensures ParseTitle(title) == Some(ClassifyRole(skills, managementScore, text))
  {
    ParseTitleInverts(ClassifyRole(skills, managementScore, text));
    Title(ClassifyRole(skills, managementScore, text))
  }

  /** The first track in the fixed order that the skills mention decides the
      role: the role's track is exactly that track. */
  lemma RoleFollowsTrack(skills: seq<string>, managementScore: nat, text: string)
    ensures ClassifyRole(skills, managementScore, text).TrackOfRole() == TrackOf(skills)
  {
  }

  /** The role leads people exactly when the management score is above three. */
  lemma LeadershipIffScoreAboveThree(skills: seq<string>, managementScore: nat, text: string)
    ensures ClassifyRole(skills, managementScore, text).IsLeadership() <==> managementScore > 3
  {
  }

  /** Raising the management score keeps the track and never takes leadership away. */
  lemma LeadershipMonotone(skills: seq<string>, s1: nat, s2: nat, text: string)
    requires s1 <= s2
    requires ClassifyRole(skills, s1, text).IsLeadership()
    ensures ClassifyRole(skills, s2, text).IsLeadership()
    ensures ClassifyRole(skills, s2, text).TrackOfRole() == ClassifyRole(skills, s1, text).TrackOfRole()
  {
    LeadershipIffScoreAboveThree(skills, s1, text);
    LeadershipIffScoreAboveThree(skills, s2, text);
  }

  /** Without a track and with a score above four, a text mentioning
      "product" names a product manager, even when it also says "project";
      "project" alone names a project manager. */
  lemma ProductBeforeProject(skills: seq<string>, managementScore: nat, text: string)
    requires TrackOf(skills).None? && managementScore > 4
    ensures ClassifyRole(skills, managementScore, text) ==
              if Contains(Lower(text), "product") then ProductManager
              else if Contains(Lower(text), "project") then ProjectManager
              else EngineeringManager
  {
  }

  /** Without a track, a score of exactly four names a technical team lead,
      whatever the text says. */
  lemma TeamLeadAtFour(skills: seq<string>, managementScore: nat, text: string)
    requires TrackOf(skills).None? && 3 < managementScore <= 4
    ensures ClassifyRole(skills, managementScore, text) == TechnicalTeamLead
  {
  }

  /** Without a track, a score of three or less names a software developer. */
  lemma DeveloperAtThreeOrLess(skills: seq<string>, managementScore: nat, text: string)
    requires TrackOf(skills).None? && managementScore <= 3
    ensures ClassifyRole(skills, managementScore, text) == SoftwareDeveloper
  {
  }

  /** Any reported cloud skill makes the role a cloud role, whatever else is reported. */
  lemma CloudSkillWins(skills: seq<string>, managementScore: nat, text: string, s: string)
    requires s in skills && s in TrackSkills(Cloud)
    ensures ClassifyRole(skills, managementScore, text).TrackOfRole() == Some(Cloud)
  {
    MentionsAnyIff(skills, TrackSkills(Cloud));
  }
}
