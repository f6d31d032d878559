/** `generateSummaryAndRole`: the validity gate, then a summary assembled
    from four clauses (experience, skills, key topics, leadership) and the
    suggested role. The sentence split the natural-language library performs
    is an input here. */
module Summarizer {
  import opened Wrappers
  import opened Text
  import SkillScan
  import YearsPattern
  import KeyTopics
  import RoleClassifier

  /** The page colours any summary that starts with this word red. */
  const InvalidMarker: string := "Invalid"
  const InvalidSummary: string :=
    InvalidMarker + " Details entered. Not able to Summarize the candidate proficiency -> Please fill it correctly to ensure this application summarizes it correctly."
  const InvalidRole: string := "Invalid Role"

  /** The shortest details text that is summarised. */
  const MinDetailsLength: nat := 20

  /** How many skills are named before the rest are summed up. */
  const ShownSkillsMax: nat := 5

  const ExperiencePrefix: string := "Professional with "
  const MoreSkillsTail: string := ", and other technologies"
  const StrongLeadership: string := "Demonstrates strong leadership and project management capabilities. "
  const PotentialLeadership: string := "Shows potential for team leadership roles. "

  /** What the page shows: the summary text and the suggested role. */
  datatype Outcome = Outcome(summary: string, role: string)

  /** The gate: blank details, or details shorter than twenty characters, are refused. */
  predicate IsValidDetails(details: string) {
    !IsBlank(details) && |details| >= MinDetailsLength
  }

  /** The opening clause, naming the years of experience when some were found. */
  function ExperienceClause(years: nat): (c: string)
    ensures ExperiencePrefix <= c
  {
    if years > 0 then ExperiencePrefix + NatToString(years) + "+ years of experience. "
    else ExperiencePrefix + "relevant experience. "
  }

  /** The skills named in the summary: the first five. */
  function Shown(skills: seq<string>): (r: seq<string>)
    ensures r <= skills
    ensures |r| == if |skills| <= ShownSkillsMax then |skills| else ShownSkillsMax
  {
    if |skills| <= ShownSkillsMax then skills else skills[..ShownSkillsMax]
  }

  /** The skills clause; empty when no skill was found. */
  function SkillsClause(skills: seq<string>): string {
    if skills == [] then ""
    else "Proficient in " + (Join(Shown(skills), ", ") + SkillsEnd(|skills|))
  }

  /** The end of the skills clause, summing up the skills not named. */
  function SkillsEnd(found: nat): string {
    (if found > ShownSkillsMax then MoreSkillsTail else "") + ". "
  }

  /** The key-topics clause; empty when no topic was found. */
  function TopicsClause(topics: seq<string>): string {
    if topics == [] then "" else "Experienced in " + (Join(topics, ", ") + ". ")
  }

  /** The leadership clause chosen by the management score. */
  function LeadershipClause(score: nat): string {
    if score > 3 then StrongLeadership
    else if score > 1 then PotentialLeadership
    else ""
  }

  /** The summary of valid details: the four clauses in order. */
  function Compose(years: nat, skills: seq<string>, topics: seq<string>, score: nat): (summary: string)
    ensures ExperiencePrefix <= summary
  {
    ExperienceClause(years) + (SkillsClause(skills) + (TopicsClause(topics) + LeadershipClause(score)))
  }

  /** `generateSummaryAndRole(projectDetails, ...)`, with the sentences of the
      details given. */
  function GenerateSummaryAndRole(details: string, sentences: seq<string>): (o: Outcome)
    ensures IsValidDetails(details) ==> o.summary == Compose(YearsPattern.ExtractExperienceYears(details),
                                                             SkillScan.ExtractTechnicalSkills(details),
                                                             KeyTopics.ExtractKeyTopics(sentences),
                                                             SkillScan.CalculateManagementScore(details))
    ensures !IsValidDetails(details) ==> o.summary == InvalidSummary && o.role == InvalidRole
  {
    if !IsValidDetails(details) then Outcome(InvalidSummary, InvalidRole)
    else
      var skills := SkillScan.ExtractTechnicalSkills(details);
      var years := YearsPattern.ExtractExperienceYears(details);
      var score := SkillScan.CalculateManagementScore(details);
      var topics := KeyTopics.ExtractKeyTopics(sentences);
      Outcome(Compose(years, skills, topics, score), RoleClassifier.DetermineBestRole(skills, score, details))
  }

  /** The summary is shown in red exactly when it starts with "Invalid", which
      happens exactly when the details fail the gate. */
  lemma InvalidMarkedIffRefused(details: string, sentences: seq<string>)
    ensures InvalidMarker <= GenerateSummaryAndRole(details, sentences).summary <==> !IsValidDetails(details)
  {
    var o := GenerateSummaryAndRole(details, sentences);
    if IsValidDetails(details) {
      assert ExperiencePrefix <= o.summary;
      assert o.summary[0] == ExperiencePrefix[0];
    }
  }

  /** The role reads "Invalid Role" exactly when the details fail the gate:
      the classifier never gives that title. */
  lemma InvalidRoleIffRefused(details: string, sentences: seq<string>)
    ensures GenerateSummaryAndRole(details, sentences).role == InvalidRole <==> !IsValidDetails(details)
  {
    if IsValidDetails(details) {
      var skills := SkillScan.ExtractTechnicalSkills(details);
      var score := SkillScan.CalculateManagementScore(details);
      ClassifierNeverSaysInvalid(RoleClassifier.ClassifyRole(skills, score, details));
    }
  }

  lemma ClassifierNeverSaysInvalid(r: RoleClassifier.Role)
    ensures RoleClassifier.Title(r) != InvalidRole
  {
  }

  /** The number of years a summary reports: the digits after the opening
      words, or 0 when there are none. */
  function ReportedYears(summary: string): nat {
    if ExperiencePrefix <= summary then
      var e := YearsPattern.DigitRunEnd(summary, |ExperiencePrefix|);
      DecimalValue(summary[|ExperiencePrefix|..e])
    else 0
  }

  /** The years can be read back from the opening clause. */
  lemma ExperienceClauseRoundTrip(years: nat, rest: string)
    ensures ReportedYears(ExperienceClause(years) + rest) == years
  {
    var s := ExperienceClause(years) + rest;
    var n := |ExperiencePrefix|;
    if years > 0 {
      var d := NatToString(years);
      assert s[n..n + |d|] == d;
      assert s[n + |d|] == '+';
      YearsPattern.DigitRunEndIs(s, n, n + |d|);
      DecimalRoundTrip(years);
    } else {
      assert s[n] == 'r';
      YearsPattern.DigitRunEndIs(s, n, n);
    }
  }

  /** The summary of valid details reports exactly the years found in them. */
  lemma SummaryReportsYears(details: string, sentences: seq<string>)
    requires IsValidDetails(details)
    ensures ReportedYears(GenerateSummaryAndRole(details, sentences).summary)
            == YearsPattern.ExtractExperienceYears(details)
  {
    var years := YearsPattern.ExtractExperienceYears(details);
    var skills := SkillScan.ExtractTechnicalSkills(details);
    var topics := KeyTopics.ExtractKeyTopics(sentences);
    var score := SkillScan.CalculateManagementScore(details);
    ComposeReportsYears(years, skills, topics, score);
  }

  lemma ComposeReportsYears(years: nat, skills: seq<string>, topics: seq<string>, score: nat)
    ensures ReportedYears(Compose(years, skills, topics, score)) == years
  {
    ExperienceClauseRoundTrip(years, SkillsClause(skills) + (TopicsClause(topics) + LeadershipClause(score)));
  }

  /** Each of the first five skills is named in the skills clause. */
  lemma SkillsClauseNamesShown(skills: seq<string>, i: nat)
    requires i < |skills| && i < ShownSkillsMax
    ensures Contains(SkillsClause(skills), skills[i])
  {
    var shown := Shown(skills);
    JoinContainsEach(shown, ", ", i);
    ContainsAppend(Join(shown, ", "), skills[i], SkillsEnd(|skills|));
    ContainsPrepend(Join(shown, ", ") + SkillsEnd(|skills|), skills[i], "Proficient in ");
  }

  /** The clause ends with ", and other technologies. " exactly when more than
      five skills were found, provided no skill name is 22 characters or longer
      (every catalog entry is shorter). */
  lemma SkillsClauseMarksMore(skills: seq<string>)
    requires forall s :: s in skills ==> |s| < 22
    ensures EndsWith(SkillsClause(skills), MoreSkillsTail + ". ") <==> |skills| > ShownSkillsMax
  {
    var c := SkillsClause(skills);
    var t := MoreSkillsTail + ". ";
    if |skills| > ShownSkillsMax {
      var j := Join(Shown(skills), ", ");
      assert (j + t)[|j + t| - |t|..] == t;
      EndsWithPrepend(j + t, t, "Proficient in ");
    } else if skills != [] {
      var shown := Shown(skills);
      var last := shown[|shown| - 1];
      assert last in skills;
      if |shown| == 1 {
        assert c == "Proficient in " + (last + ". ");
        OneSkillUnmarked(last);
      } else {
        JoinLast(shown, ", ");
        assert c == "Proficient in " + ((Join(shown[..|shown| - 1], ", ") + ", " + last) + ". ");
        SeveralSkillsUnmarked(Join(shown[..|shown| - 1], ", "), last);
      }
    }
  }

  /** A clause naming one short skill does not end with the tail. */
  lemma OneSkillUnmarked(last: string)
    requires |last| < 22
    ensures !EndsWith("Proficient in " + (last + ". "), MoreSkillsTail + ". ")
  {
    var c := "Proficient in " + (last + ". ");
    var t := MoreSkillsTail + ". ";
    if |c| >= |t| {
      var q := |c| - |t|;
      assert c[q] == "Proficient in "[q];
      assert c[q] != t[0];
    }
  }

  /** A clause whose last named skill is short does not end with the tail: the
      comma before that skill falls where the tail has none. */
  lemma SeveralSkillsUnmarked(init: string, last: string)
    requires |last| < 22
    ensures !EndsWith("Proficient in " + ((init + ", " + last) + ". "), MoreSkillsTail + ". ")
  {
    var c := "Proficient in " + ((init + ", " + last) + ". ");
    var t := MoreSkillsTail + ". ";
    var p := |c| - |last| - 4;
    assert c[p] == ',';
    assert t[p - (|c| - |t|)] != ',';
  }


  /** Every entry of the catalog is shorter than `n` characters. */
  predicate Shorter(catalog: seq<string>, n: nat) {
    forall i :: 0 <= i < |catalog| ==> |catalog[i]| < n
  }

  /** Every skill of the catalog is shorter than 22 characters. */
  lemma CatalogEntriesShort()
    ensures Shorter(SkillScan.TechKeywords, 22)
  {
    assert Shorter(SkillScan.Languages, 22);
    assert Shorter(SkillScan.Frameworks, 22);
    assert Shorter(SkillScan.CloudPlatforms, 22);
    assert Shorter(SkillScan.DevOpsTools, 22);
    assert Shorter(SkillScan.Databases, 22);
    assert Shorter(SkillScan.DataScience, 22);
    assert Shorter(SkillScan.OtherTech, 22);
  }

  /** In a summary, the skills clause ends with ", and other technologies. "
      exactly when more than five skills were found in the details. */
  lemma SummaryMarksMoreSkills(details: string)
    ensures EndsWith(SkillsClause(SkillScan.ExtractTechnicalSkills(details)), MoreSkillsTail + ". ")
            <==> |SkillScan.ExtractTechnicalSkills(details)| > ShownSkillsMax
  {
    var skills := SkillScan.ExtractTechnicalSkills(details);
    CatalogEntriesShort();
    forall k | k in skills ensures |k| < 22 {
      var i :| 0 <= i < |SkillScan.TechKeywords| && SkillScan.TechKeywords[i] == k;
    }
    SkillsClauseMarksMore(skills);
  }

  /** Each key topic is named in the topics clause. */
  lemma TopicsClauseNamesEach(topics: seq<string>, i: nat)
    requires i < |topics|
    ensures Contains(TopicsClause(topics), topics[i])
  {
    JoinContainsEach(topics, ", ", i);
    ContainsAppend(Join(topics, ", "), topics[i], ". ");
    ContainsPrepend(Join(topics, ", ") + ". ", topics[i], "Experienced in ");
  }

  /** The summary names each of the first five skills, each key topic, and
      the leadership sentence the score calls for. */
  lemma ComposeMentions(years: nat, skills: seq<string>, topics: seq<string>, score: nat)
    ensures var summary := Compose(years, skills, topics, score);
            && (forall i :: 0 <= i < |skills| && i < ShownSkillsMax ==> Contains(summary, skills[i]))
            && (forall t :: t in topics ==> Contains(summary, t))
            && (score > 3 ==> Contains(summary, StrongLeadership))
            && (1 < score <= 3 ==> Contains(summary, PotentialLeadership))
            && (score > 3 ==> EndsWith(summary, StrongLeadership))
            && (1 < score <= 3 ==> EndsWith(summary, PotentialLeadership))
            && (score <= 1 ==> EndsWith(summary, TopicsClause(topics)))
            && summary == Compose(years, skills, topics, 0) + LeadershipClause(score)
            && (score <= 1 ==> summary == Compose(years, skills, topics, 0))
  {
    var e, sc, tc, lc := ExperienceClause(years), SkillsClause(skills), TopicsClause(topics), LeadershipClause(score);
    forall i | 0 <= i < |skills| && i < ShownSkillsMax ensures Contains(e + (sc + (tc + lc)), skills[i]) {
      SkillsClauseNamesShown(skills, i);
      ContainsAppend(sc, skills[i], tc + lc);
      ContainsPrepend(sc + (tc + lc), skills[i], e);
    }
    forall t | t in topics ensures Contains(e + (sc + (tc + lc)), t) {
      var i :| 0 <= i < |topics| && topics[i] == t;
      TopicsClauseNamesEach(topics, i);
      ContainsAppend(tc, t, lc);
      ContainsPrepend(tc + lc, t, sc);
      ContainsPrepend(sc + (tc + lc), t, e);
    }
    assert OccursAt(lc, lc, 0);
    ContainsPrepend(lc, lc, tc);
    ContainsPrepend(tc + lc, lc, sc);
    ContainsPrepend(sc + (tc + lc), lc, e);
    ComposeEnds(years, skills, topics, score);
  }

  /** The summary ends with its leadership clause; with no leadership clause
      it ends with the topics clause. The score only adds that trailing
      clause to the summary built without it, so at a score of one or less
      no leadership sentence follows the topics. */
  lemma ComposeEnds(years: nat, skills: seq<string>, topics: seq<string>, score: nat)
    ensures EndsWith(Compose(years, skills, topics, score), LeadershipClause(score))
    ensures score <= 1 ==> EndsWith(Compose(years, skills, topics, score), TopicsClause(topics))
    ensures Compose(years, skills, topics, score) == Compose(years, skills, topics, 0) + LeadershipClause(score)
    ensures score <= 1 ==> Compose(years, skills, topics, score) == Compose(years, skills, topics, 0)
  {
    var e, sc, tc, lc := ExperienceClause(years), SkillsClause(skills), TopicsClause(topics), LeadershipClause(score);
    var base := Compose(years, skills, topics, 0);
    BaseCompose(years, skills, topics);
    SplitLast(e, sc, tc, lc);
    assert EndsWith(base + lc, lc);
    if score <= 1 {
      assert base + lc == base;
      assert EndsWith(sc + tc, tc);
      EndsWithPrepend(sc + tc, tc, e);
    }
  }

  /** Without leadership the summary is the first three clauses. */
  lemma BaseCompose(years: nat, skills: seq<string>, topics: seq<string>)
    ensures Compose(years, skills, topics, 0) == ExperienceClause(years) + (SkillsClause(skills) + TopicsClause(topics))
  {
    assert TopicsClause(topics) + LeadershipClause(0) == TopicsClause(topics);
  }

  lemma SplitLast(a: string, b: string, c: string, d: string)
    ensures a + (b + (c + d)) == (a + (b + c)) + d
  {
  }

  /** The role of valid details is the classifier's role for the skills,
      score and text found in them. */
  lemma SummaryRoleIsClassified(details: string, sentences: seq<string>)
    requires IsValidDetails(details)
    ensures var o := GenerateSummaryAndRole(details, sentences);
            var skills := SkillScan.ExtractTechnicalSkills(details);
            var score := SkillScan.CalculateManagementScore(details);
            RoleClassifier.ParseTitle(o.role) == Some(RoleClassifier.ClassifyRole(skills, score, details))
  {
  }
}
