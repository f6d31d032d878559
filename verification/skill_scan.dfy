/** The keyword scans of the summariser: technical skills found in the
    profile text, and the management score. Matching is case-insensitive,
    un-anchored substring containment, so "Go" is found in "Google" and
    "lead" in "leadership". */
module SkillScan {
  import opened Text
  import opened Sequences

  const Languages: seq<string> :=
    ["Python", "Java", "JavaScript", "TypeScript", "C#", "C++", "Go", "Ruby", "PHP", "Swift", "Kotlin", "Rust"]
  const Frameworks: seq<string> :=
    ["React", "Angular", "Vue", "Node.js", "Express", "Django", "Flask", "Spring", "ASP.NET", "Laravel"]
  const CloudPlatforms: seq<string> :=
    ["AWS", "Azure", "GCP", "Google Cloud", "EC2", "S3", "Lambda", "DynamoDB", "CloudFormation"]
  const DevOpsTools: seq<string> :=
    ["Docker", "Kubernetes", "Jenkins", "GitLab CI", "GitHub Actions", "Terraform", "Ansible", "Puppet"]
  const Databases: seq<string> :=
    ["SQL", "MySQL", "PostgreSQL", "MongoDB", "DynamoDB", "Cassandra", "Redis", "Oracle", "SQL Server"]
  const DataScience: seq<string> :=
    ["Machine Learning", "AI", "Deep Learning", "TensorFlow", "PyTorch", "NLP", "Data Mining", "Big Data"]
  const OtherTech: seq<string> :=
    ["Microservices", "RESTful API", "GraphQL", "Serverless", "CI/CD", "Agile", "Scrum"]

  /** The 63-entry skill catalog, in the order skills are reported. "DynamoDB"
      is listed twice, once with the cloud services and once with the databases. */
  const TechKeywords: seq<string> :=
    Languages + Frameworks + CloudPlatforms + DevOpsTools + Databases + DataScience + OtherTech

  /** The 18 words that signal management experience. */
  const ManagementKeywords: seq<string> :=
    ["lead", "leader", "leadership", "manage", "manager", "management", "team lead",
     "supervised", "directed", "coordinated", "head", "chief", "executive",
     "strategy", "strategic", "decision-making", "stakeholder", "mentor"]

  /** The catalog entry `k` is found in the already lower-cased text. */
  predicate Found(lowerText: string, k: string) {
    Includes(lowerText, Lower(k))
  }

  /** The entries of `catalog`, in catalog order, that are found in `lowerText`. */
  function Hits(catalog: seq<string>, lowerText: string): seq<string>
  {
    if catalog == [] then []
    else if Found(lowerText, catalog[0]) then [catalog[0]] + Hits(catalog[1..], lowerText)
    else Hits(catalog[1..], lowerText)
  }

  /** The scan keeps the catalog order. */
  lemma {:induction false} HitsInOrder(catalog: seq<string>, lowerText: string)
    ensures IsSubseq(Hits(catalog, lowerText), catalog)
    ensures forall k :: k in Hits(catalog, lowerText) ==> Found(lowerText, k)
  {
    if catalog != [] {
      HitsInOrder(catalog[1..], lowerText);
    }
  }

  /** The scan reports exactly the catalog entries that are found. */
  lemma {:induction false} HitsMembership(catalog: seq<string>, lowerText: string)
    ensures forall k :: k in Hits(catalog, lowerText) <==> k in catalog && Found(lowerText, k)
  {
    if catalog != [] {
      HitsMembership(catalog[1..], lowerText);
      assert catalog == [catalog[0]] + catalog[1..];
    }
  }

  /** `r` holds every entry of `catalog` found in `lowerText` as often as the
      catalog lists it, and nothing else. */
  ghost predicate KeepsFoundCounts(r: seq<string>, catalog: seq<string>, lowerText: string) {
    forall k :: multiset(r)[k] == if Found(lowerText, k) then multiset(catalog)[k] else 0
  }

  /** The scan keeps every found entry as often as the catalog lists it and drops
      every other entry. */
  lemma {:induction false} HitsCount(catalog: seq<string>, lowerText: string)
    ensures KeepsFoundCounts(Hits(catalog, lowerText), catalog, lowerText)
  {
    if catalog != [] {
      HitsCount(catalog[1..], lowerText);
      assert catalog == [catalog[0]] + catalog[1..];
    }
  }

  /** `extractTechnicalSkills`: the catalog skills whose lower-cased name occurs
      in the lower-cased text, in catalog order. */
  function ExtractTechnicalSkills(text: string): (r: seq<string>)
    ensures IsSubseq(r, TechKeywords)
    ensures forall k :: k in r <==> k in TechKeywords && Contains(Lower(text), Lower(k))
    ensures |r| <= 63
    ensures KeepsFoundCounts(r, TechKeywords, Lower(text))
  {
    var r := Hits(TechKeywords, Lower(text));
    HitsInOrder(TechKeywords, Lower(text));
    HitsMembership(TechKeywords, Lower(text));
    HitsCount(TechKeywords, Lower(text));
    SubseqLength(r, TechKeywords);
    r
  }

  /** `calculateManagementScore`: one point per catalog position whose keyword
      is found, as the loop over the catalog counts them. */
  function CalculateManagementScore(text: string): (r: nat)
    ensures r <= 18
    ensures r == |FoundPositions(ManagementKeywords, Lower(text), 18)|
  {
    var h := Hits(ManagementKeywords, Lower(text));
    HitsCountsPositions(ManagementKeywords, Lower(text), 18);
    HitsInOrder(ManagementKeywords, Lower(text));
    SubseqLength(h, ManagementKeywords);
    assert ManagementKeywords[..18] == ManagementKeywords;
    |h|
  }

  /** The positions below `n` whose catalog entry is found in the text. */
  ghost function FoundPositions(catalog: seq<string>, lowerText: string, n: nat): set<nat>
    requires n <= |catalog|
  {
    set i: nat | i < n && Found(lowerText, catalog[i])
  }

  /** Scanning a catalog extended by one entry adds that entry's hit at the end. */
  lemma {:induction false} HitsSnoc(catalog: seq<string>, x: string, lowerText: string)
    ensures Hits(catalog + [x], lowerText)
         == Hits(catalog, lowerText) + (if Found(lowerText, x) then [x] else [])
  {
    if catalog != [] {
      HitsSnoc(catalog[1..], x, lowerText);
      assert (catalog + [x])[1..] == catalog[1..] + [x];
    } else {
      assert [] + [x] == [x];
    }
  }

  /** The number of hits in the first `n` entries is the number of found positions below `n`. */
  lemma {:induction false} HitsCountsPositions(catalog: seq<string>, lowerText: string, n: nat)
    requires n <= |catalog|
    ensures |Hits(catalog[..n], lowerText)| == |FoundPositions(catalog, lowerText, n)|
  {
    if n == 0 {
      assert FoundPositions(catalog, lowerText, 0) == {};
    } else {
      HitsCountsPositions(catalog, lowerText, n - 1);
      assert catalog[..n] == catalog[..n - 1] + [catalog[n - 1]];
      HitsSnoc(catalog[..n - 1], catalog[n - 1], lowerText);
      FoundPositionsStep(catalog, lowerText, n);
    }
  }

  /** Raising the bound by one adds at most the new position to the found set. */
  lemma FoundPositionsStep(catalog: seq<string>, lowerText: string, n: nat)
    requires 0 < n <= |catalog|
    ensures |FoundPositions(catalog, lowerText, n)|
         == |FoundPositions(catalog, lowerText, n - 1)| + (if Found(lowerText, catalog[n - 1]) then 1 else 0)
  {
    var prev := FoundPositions(catalog, lowerText, n - 1);
    if Found(lowerText, catalog[n - 1]) {
      assert FoundPositions(catalog, lowerText, n) == prev + {n - 1};
      assert n - 1 !in prev;
    } else {
      assert FoundPositions(catalog, lowerText, n) == prev;
    }
  }

  /** Appending text to the profile never loses a skill already found. */
  lemma SkillsMonotone(text: string, more: string)
    ensures forall k :: k in ExtractTechnicalSkills(text) ==> k in ExtractTechnicalSkills(text + more)
  {
    forall k | k in ExtractTechnicalSkills(text)
      ensures k in ExtractTechnicalSkills(text + more)
    {
      LowerTextGrows(text, more, Lower(k));
    }
  }

  /** A lower-cased text keeps every factor when more text is appended. */
  lemma LowerTextGrows(text: string, more: string, p: string)
    requires Contains(Lower(text), p)
    ensures Contains(Lower(text + more), p)
  {
    LowerAppend(text, more);
    ContainsExtend(Lower(text), p, "", Lower(more));
    assert "" + Lower(text) + Lower(more) == Lower(text + more);
  }

  /** Appending text to the profile never lowers the management score. */
  lemma ScoreMonotone(text: string, more: string)
    ensures CalculateManagementScore(text) <= CalculateManagementScore(text + more)
  {
    LowerAppend(text, more);
    var before := FoundPositions(ManagementKeywords, Lower(text), 18);
    var after := FoundPositions(ManagementKeywords, Lower(text + more), 18);
    forall i | i in before ensures i in after {
      LowerTextGrows(text, more, Lower(ManagementKeywords[i]));
    }
    SubsetCardinality(before, after);
  }

  lemma SubsetCardinality(a: set<nat>, b: set<nat>)
    requires a <= b
    ensures |a| <= |b|
  {
    assert b == a + (b - a);
  }

  /** "leadership" also contains "lead" and "leader": a text that mentions it scores at least 3. */
  lemma LeadershipScoresThree(text: string)
    requires Contains(Lower(text), "leadership")
    ensures CalculateManagementScore(text) >= 3
  {
    var found := FoundPositions(ManagementKeywords, Lower(text), 18);
    LeadWordsFound(Lower(text));
    assert {0, 1, 2} <= found;
    SubsetCardinality({0, 1, 2}, found);
  }

  /** A lower-cased text containing "leadership" also contains the first two
      management keywords, which are its prefixes. */
  lemma LeadWordsFound(lowerText: string)
    requires Contains(lowerText, "leadership")
    ensures Found(lowerText, ManagementKeywords[0])
    ensures Found(lowerText, ManagementKeywords[1])
    ensures Found(lowerText, ManagementKeywords[2])
  {
    assert ManagementKeywords[0] == "lead" && ManagementKeywords[1] == "leader"
           && ManagementKeywords[2] == "leadership";
    assert Lower("lead") == "lead" && Lower("leader") == "leader" && Lower("leadership") == "leadership";
    assert OccursAt("leadership", "lead", 0) && OccursAt("leadership", "leader", 0);
    ContainsTransitive(lowerText, "leadership", "lead");
    ContainsTransitive(lowerText, "leadership", "leader");
  }

  /** Scanning two catalogs one after the other gives the two scans one after the other. */
  lemma {:induction false} HitsAppend(a: seq<string>, b: seq<string>, lowerText: string)
    ensures Hits(a + b, lowerText) == Hits(a, lowerText) + Hits(b, lowerText)
  {
    if a != [] {
      HitsAppend(a[1..], b, lowerText);
      assert (a + b)[1..] == a[1..] + b;
    } else {
      assert a + b == b;
    }
  }

  /** A found catalog entry is reported. */
  lemma {:induction false} HitsMember(catalog: seq<string>, lowerText: string, k: string)
    requires k in catalog && Found(lowerText, k)
    ensures k in Hits(catalog, lowerText)
  {
    if catalog[0] != k {
      HitsMember(catalog[1..], lowerText, k);
    }
  }

  /** An entry listed in two different groups of a catalog, and found, is
      reported at two different positions. */
  lemma FoundInTwoGroups(g1: seq<string>, g2: seq<string>, g3: seq<string>, g4: seq<string>,
                         g5: seq<string>, g6: seq<string>, g7: seq<string>, lowerText: string, k: string)
    returns (i: nat, j: nat)
    requires k in g3 && k in g5 && Found(lowerText, k)
    ensures i < j < |Hits(g1 + g2 + g3 + g4 + g5 + g6 + g7, lowerText)|
    ensures Hits(g1 + g2 + g3 + g4 + g5 + g6 + g7, lowerText)[i] == k
    ensures Hits(g1 + g2 + g3 + g4 + g5 + g6 + g7, lowerText)[j] == k
  {
    HitsAppend(g1 + g2 + g3 + g4 + g5 + g6, g7, lowerText);
    HitsAppend(g1 + g2 + g3 + g4 + g5, g6, lowerText);
    HitsAppend(g1 + g2 + g3 + g4, g5, lowerText);
    HitsAppend(g1 + g2 + g3, g4, lowerText);
    HitsAppend(g1 + g2, g3, lowerText);
    HitsMember(g3, lowerText, k);
    HitsMember(g5, lowerText, k);
    var h3 := Hits(g3, lowerText);
    var h5 := Hits(g5, lowerText);
    var x :| 0 <= x < |h3| && h3[x] == k;
    var y :| 0 <= y < |h5| && h5[y] == k;
    var before3 := Hits(g1 + g2, lowerText);
    var before5 := Hits(g1 + g2 + g3 + g4, lowerText);
    var r := Hits(g1 + g2 + g3 + g4 + g5 + g6 + g7, lowerText);
    assert r == before3 + h3 + Hits(g4, lowerText) + h5 + Hits(g6, lowerText) + Hits(g7, lowerText);
    assert before5 == before3 + h3 + Hits(g4, lowerText);
    i, j := |before3| + x, |before5| + y;
    assert r[i] == k;
    assert r[j] == k;
  }

  /** "DynamoDB" sits twice in the catalog, once among the cloud services and
      once among the databases, so a text naming it reports it twice. */
  lemma DynamoDBReportedTwice(text: string)
    requires Contains(Lower(text), "dynamodb")
    ensures exists i, j :: 0 <= i < j < |ExtractTechnicalSkills(text)|
                           && ExtractTechnicalSkills(text)[i] == "DynamoDB"
                           && ExtractTechnicalSkills(text)[j] == "DynamoDB"
  {
    assert Lower("DynamoDB") == "dynamodb";
    assert CloudPlatforms[7] == "DynamoDB" && Databases[4] == "DynamoDB";
    var i, j := FoundInTwoGroups(Languages, Frameworks, CloudPlatforms, DevOpsTools, Databases, DataScience,
                                 OtherTech, Lower(text), "DynamoDB");
    var r := ExtractTechnicalSkills(text);
    assert r == Hits(Languages + Frameworks + CloudPlatforms + DevOpsTools + Databases + DataScience + OtherTech,
                     Lower(text));
    assert r[i] == "DynamoDB" && r[j] == "DynamoDB";
  }
}
