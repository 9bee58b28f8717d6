/** `AdvancedContentAnalyzer` (advanced_analyzer.py): the structured resume
    record extracted from cleaned resume text with keyword tests, vocabulary
    filters and two small case-insensitive patterns. */
module AdvancedAnalyzer {
  import opened Wrappers
  import opened Text
  import opened Seqs
  import opened Cues
  import opened Resume

  // ------------------------------------------------------------ personal

  /** Line 107, in the order tried. */
  const RolePatterns: seq<string> := ["WEB DEVELOPER", "DEVELOPER", "SOFTWARE ENGINEER"]

  /** Lines 107-111: the first role pattern whose lower-case form occurs in
      the lower-cased text. */
  function RoleIndex(text: string): (r: Option<nat>)
    ensures r.Some? ==> r.value < |RolePatterns| && Contains(Lower(text), Lower(RolePatterns[r.value]))
    ensures forall j :: 0 <= j < |RolePatterns| && (r.None? || j < r.value) ==> !Contains(Lower(text), Lower(RolePatterns[j]))
  {
    FirstWhere(RolePatterns, p => Contains(Lower(text), Lower(p)))
  }

  /** Line 114, `Lucknow\s*,?\s*Uttar Pradesh` matched case-insensitively at
      offset `j` of the lower-cased text: the spaces are taken greedily, then
      an optional comma, then spaces again. Because `uttar` starts with a
      letter, the greedy reading accepts exactly what the pattern accepts. */
  predicate LocationAt(l: string, j: nat) {
    PlacesAt(l, j, "lucknow", "uttar pradesh")
  }

  /** `city\s*,?\s*state` at offset `j`, read greedily. */
  predicate PlacesAt(l: string, j: nat, city: string, state: string) {
    && OccursAt(l, city, j)
    && var a := SkipSpaces(l, j + |city|);
       var b := if a < |l| && l[a] == ',' then a + 1 else a;
       OccursAt(l, state, SkipSpaces(l, b))
  }

  predicate MentionsLocation(text: string) {
    exists j: nat :: j <= |Lower(text)| && LocationAt(Lower(text), j)
  }

  /** Lines 97-118 (`_extract_personal_info`). */
  function ExtractPersonal(text: string): (r: Personal)
    ensures r.name.Some? <==> Contains(Lower(text), "aditya kumar")
    ensures r.role.Some? <==> exists k :: 0 <= k < |RolePatterns| && Contains(Lower(text), Lower(RolePatterns[k]))
    ensures r.role.Some? ==> exists k :: 0 <= k < |RolePatterns| && r.role.value == Title(RolePatterns[k])
    ensures r.location.Some? <==> MentionsLocation(text)
  {
    Personal(
      if Contains(Lower(text), "aditya kumar") then Some("Aditya Kumar") else None,
      match RoleIndex(text)
      case Some(k) => Some(Title(RolePatterns[k]))
      case None => None,
      if MentionsLocation(text) then Some("Lucknow, Uttar Pradesh") else None)
  }

  /** The lower-case and title-case forms of the role patterns. */
  lemma RoleForms()
    ensures Lower(RolePatterns[0]) == "web developer" && Title(RolePatterns[0]) == "Web Developer"
    ensures Lower(RolePatterns[1]) == "developer" && Title(RolePatterns[1]) == "Developer"
    ensures Lower(RolePatterns[2]) == "software engineer"
  {
    assert Lower("WEB DEVELOPER") == "web developer" && Title("WEB DEVELOPER") == "Web Developer" by {
      assert Lower("WEB DEVELOPER") == "web developer";
      assert Title("WEB DEVELOPER") == "Web Developer";
    }
    assert Lower("DEVELOPER") == "developer" && Title("DEVELOPER") == "Developer" by {
      assert Lower("DEVELOPER") == "developer";
      assert Title("DEVELOPER") == "Developer";
    }
    assert Lower("SOFTWARE ENGINEER") == "software engineer";
  }

  /** "web developer" is tried before "developer": a resume that mentions it
      gets the role "Web Developer". */
  lemma WebDeveloperWins(text: string)
    requires Contains(Lower(text), "web developer")
    ensures ExtractPersonal(text).role == Some("Web Developer")
  {
    RoleForms();
  }

  /** A resume that mentions "developer" but not "web developer" gets "Developer". */
  lemma DeveloperSecond(text: string)
    requires Contains(Lower(text), "developer") && !Contains(Lower(text), "web developer")
    ensures ExtractPersonal(text).role == Some("Developer")
  {
    RoleForms();
  }

  /** "Software Engineer" is chosen only when "developer" does not occur at
      all, since every "web developer" contains a "developer". */
  lemma SoftwareEngineerOnlyWithoutDeveloper(text: string)
    requires RoleIndex(text) == Some(2)
    ensures !Contains(Lower(text), "developer")
  {
    RoleForms();
  }

  /** Any whitespace, then an optional comma, then any whitespace, between
      the two place names is accepted. */
  lemma LocationAcceptsSeparators(pre: string, w1: string, comma: string, w2: string, post: string)
    requires AllSpace(w1) && AllSpace(w2) && (comma == "" || comma == ",")
    ensures LocationAt(pre + "lucknow" + w1 + comma + w2 + "uttar pradesh" + post, |pre|)
  {
    assert "uttar pradesh"[0] == 'u';
    PlacesAcceptSeparators(pre, "lucknow", w1, comma, w2, "uttar pradesh", post);
  }

  lemma PlacesAcceptSeparators(pre: string, city: string, w1: string, comma: string, w2: string,
                               state: string, post: string)
    requires AllSpace(w1) && AllSpace(w2) && (comma == "" || comma == ",")
    requires |state| > 0 && IsAsciiLetter(state[0])
    ensures PlacesAt(pre + city + w1 + comma + w2 + state + post, |pre|, city, state)
  {
    var p := pre + city + w1 + comma + w2 + state;
    var j := |pre|;
    PiecesOccur(pre, city, w1, comma, w2, state);
    OccursExtend(p, post, city, j);
    OccursExtend(p, post, w1, j + |city|);
    OccursExtend(p, post, comma, j + |city| + |w1|);
    OccursExtend(p, post, w2, j + |city| + |w1| + |comma|);
    OccursExtend(p, post, state, j + |city| + |w1| + |comma| + |w2|);
    PlacesFromParts(p + post, j, city, w1, comma, w2, state);
  }

  /** Each part of a concatenation occurs where it was put. */
  lemma PiecesOccur(pre: string, city: string, w1: string, comma: string, w2: string, state: string)
    ensures var p := pre + city + w1 + comma + w2 + state;
      && OccursAt(p, city, |pre|)
      && OccursAt(p, w1, |pre| + |city|)
      && OccursAt(p, comma, |pre| + |city| + |w1|)
      && OccursAt(p, w2, |pre| + |city| + |w1| + |comma|)
      && OccursAt(p, state, |pre| + |city| + |w1| + |comma| + |w2|)
  {
    var p1 := pre + city;
    var p2 := p1 + w1;
    var p3 := p2 + comma;
    var p4 := p3 + w2;
    OccursAtEnd(pre, city);
    OccursExtend(p1, w1, city, |pre|);
    OccursExtend(p2, comma, city, |pre|);
    OccursExtend(p3, w2, city, |pre|);
    OccursExtend(p4, state, city, |pre|);
    OccursAtEnd(p1, w1);
    OccursExtend(p2, comma, w1, |p1|);
    OccursExtend(p3, w2, w1, |p1|);
    OccursExtend(p4, state, w1, |p1|);
    OccursAtEnd(p2, comma);
    OccursExtend(p3, w2, comma, |p2|);
    OccursExtend(p4, state, comma, |p2|);
    OccursAtEnd(p3, w2);
    OccursExtend(p4, state, w2, |p3|);
    OccursAtEnd(p4, state);
  }

  /** The match at `j` assembled from its parts. */
  lemma PlacesFromParts(l: string, j: nat, city: string, w1: string, comma: string, w2: string, state: string)
    requires AllSpace(w1) && AllSpace(w2) && (comma == "" || comma == ",")
    requires |state| > 0 && IsAsciiLetter(state[0])
    requires OccursAt(l, city, j) && OccursAt(l, w1, j + |city|) && OccursAt(l, comma, j + |city| + |w1|)
    requires OccursAt(l, w2, j + |city| + |w1| + |comma|)
    requires OccursAt(l, state, j + |city| + |w1| + |comma| + |w2|)
    ensures PlacesAt(l, j, city, state)
  {
    var m := j + |city| + |w1| + |comma| + |w2|;
    assert l[m] == l[m..m + |state|][0] == state[0];
    SeparatorSkipped(l, j + |city|, w1, comma, w2);
    var a := SkipSpaces(l, j + |city|);
    var b := if a < |l| && l[a] == ',' then a + 1 else a;
    assert SkipSpaces(l, b) == m;
  }

  /** The greedy reading of `\s*,?\s*` over a separator that is followed
      by a letter ends at that letter. */
  lemma SeparatorSkipped(l: string, a0: nat, w1: string, comma: string, w2: string)
    requires AllSpace(w1) && AllSpace(w2) && (comma == "" || comma == ",")
    requires OccursAt(l, w1, a0) && OccursAt(l, comma, a0 + |w1|) && OccursAt(l, w2, a0 + |w1| + |comma|)
    requires a0 + |w1| + |comma| + |w2| < |l| && IsAsciiLetter(l[a0 + |w1| + |comma| + |w2|])
    ensures var a := SkipSpaces(l, a0);
            var b := if a < |l| && l[a] == ',' then a + 1 else a;
            SkipSpaces(l, b) == a0 + |w1| + |comma| + |w2|
  {
    var m := a0 + |w1| + |comma| + |w2|;
    forall k | a0 <= k < a0 + |w1| ensures IsSpace(l[k]) {
      assert l[k] == l[a0..a0 + |w1|][k - a0] == w1[k - a0];
    }
    forall k | a0 + |w1| + |comma| <= k < m ensures IsSpace(l[k]) {
      assert l[k] == l[a0 + |w1| + |comma|..m][k - a0 - |w1| - |comma|];
    }
    if comma == "," {
      assert l[a0 + |w1|] == l[a0 + |w1|..a0 + |w1| + 1][0] == ',';
      SkipSpacesTo(l, a0, a0 + |w1|);
    } else {
      SkipSpacesTo(l, a0, m);
    }
    SkipSpacesTo(l, a0 + |w1| + |comma|, m);
  }

  // ------------------------------------------------------------ skills

  /** Lines 162-166. */
  const TechVocab: seq<string> := [
    "HTML", "CSS", "JavaScript", "React", "ReactJS", "jQuery",
    "Tailwind CSS", "Python", "Java", "Node.js", "Express.js",
    "MongoDB", "MySQL", "Git", "GitHub"
  ]

  /** Lines 173-176. */
  const ToolVocab: seq<string> := [
    "AWS", "Canva AI", "Cursor AI", "ChatGPT", "Claude", "Gemini", "AutoML", "OpenAI", "Oracle Cloud"
  ]

  /** Lines 183-186. */
  const SoftVocab: seq<string> := [
    "Project Management", "Effective Communication", "Critical Thinking",
    "Problem Solving", "Leadership", "Team Collaboration"
  ]

  /** Lines 157-192: each list is its vocabulary filtered, in vocabulary
      order, by case-insensitive occurrence in the text. */
  function ExtractSkills(text: string): (r: Skills)
    ensures IsSubsequence(r.technical, TechVocab)
    ensures forall v {:trigger v in r.technical} :: v in r.technical <==> v in TechVocab && Contains(Lower(text), Lower(v))
    ensures IsSubsequence(r.tools, ToolVocab)
    ensures forall v {:trigger v in r.tools} :: v in r.tools <==> v in ToolVocab && Contains(Lower(text), Lower(v))
    ensures IsSubsequence(r.soft, SoftVocab)
    ensures forall v {:trigger v in r.soft} :: v in r.soft <==> v in SoftVocab && Contains(Lower(text), Lower(v))
  {
    Skills(VocabFilter(TechVocab, text), VocabFilter(ToolVocab, text), VocabFilter(SoftVocab, text))
  }

  // ------------------------------------------------------------ experience

  const TopTenEntry: string := "Top 10 position in CodeBlocks Hackathon 2024"
  const FinArvaEntry: string := "Finalist in FinArva AI Hackathon"
  const NationalEntry: string := "National Level Hackathon Finalist"

  /** Lines 206-211: the achievements attached to the hackathon entry. */
  function HackathonAchievements(text: string): (r: seq<string>)
    ensures |r| == (if Contains(Lower(text), "top 10") then 1 else 0) + (if Contains(Lower(text), "finalist") then 2 else 0)
    ensures TopTenEntry in r <==> Contains(Lower(text), "top 10")
    ensures FinArvaEntry in r <==> Contains(Lower(text), "finalist")
    ensures NationalEntry in r <==> Contains(Lower(text), "finalist")
    ensures IsSubsequence(r, [TopTenEntry, FinArvaEntry, NationalEntry])
  {
    var all := [TopTenEntry, FinArvaEntry, NationalEntry];
    var last := [FinArvaEntry, NationalEntry];
    assert all[1..] == last && last[1..] == [NationalEntry] && [NationalEntry][1..] == [];
    assert IsSubsequence(last, last);
    assert all[0] == TopTenEntry && all[1..] == last;
    assert IsSubsequence(all, all);
    assert IsSubsequence(last, all) && IsSubsequence([TopTenEntry], all);
    var top := if Contains(Lower(text), "top 10") then [TopTenEntry] else [];
    var fin := if Contains(Lower(text), "finalist") then last else [];
    assert top + fin == [] || top + fin == [TopTenEntry] || top + fin == last || top + fin == all by {
      if top != [] && fin != [] { assert top + fin == [TopTenEntry] + last == all; }
    }
    top + fin
  }

  /** Lines 194-215: at most one entry, present exactly when the text
      mentions a hackathon. */
  function ExtractExperience(text: string): (r: seq<Experience>)
    ensures |r| <= 1
    ensures r != [] <==> Contains(Lower(text), "hackathon")
    ensures forall e :: e in r ==> e.achievements == HackathonAchievements(text) && e.highlights == []
  {
    if Contains(Lower(text), "hackathon") then
      [Experience(
        Some("Hackathon Participation"),
        Some("Participated in multiple hackathons with notable achievements"),
        [],
        HackathonAchievements(text))]
    else []
  }

  // ------------------------------------------------------------ projects

  const FitnessProject: Project := Project(
    Some("Responsive Fitness-and-Sports Website"),
    Some("Built a responsive fitness and sports website"),
    ["HTML", "CSS", "JavaScript"],
    Some("Top 10 position in CodeBlocks Hackathon 2024"),
    [])

  const StressProject: Project := Project(
    Some("Stress Reduction Application"),
    Some("Developed stress reduction application using OpenAI API with guided exercises and meditation"),
    ["OpenAI API", "Python"],
    None,
    ["Guided exercises", "Meditation"])

  const BhasaVittProject: Project := Project(
    Some("BhasaVitt"),
    Some("Multilingual AI model developed for Gromo-AWS-Sarvam AI challenge"),
    ["AI/ML", "Multilingual Processing"],
    Some("National Level Hackathon Finalist (25,000+ participants)"),
    [])

  /** Lines 221-246, in this order. */
  const ProjectRules: Rules<Project> := [
    (Both(Mentions("fitness"), Mentions("website")), FitnessProject),
    (Both(Mentions("stress"), Mentions("meditation")), StressProject),
    (Mentions("bhasavitt"), BhasaVittProject)
  ]

  lemma ProjectPayloadsDistinct()
    ensures forall i, j :: 0 <= i < j < |ProjectRules| ==> ProjectRules[i].1 != ProjectRules[j].1
  {
    assert FitnessProject.features != StressProject.features;
    assert |FitnessProject.technologies| != |BhasaVittProject.technologies|;
    assert StressProject.features != BhasaVittProject.features;
  }

  /** Lines 217-248: at most the three known projects, in their fixed order,
      each present exactly when its keywords occur. */
  function ExtractProjects(text: string): (r: seq<Project>)
    ensures |r| <= 3 && IsSubsequence(r, [FitnessProject, StressProject, BhasaVittProject])
    ensures FitnessProject in r <==> Contains(Lower(text), "fitness") && Contains(Lower(text), "website")
    ensures StressProject in r <==> Contains(Lower(text), "stress") && Contains(Lower(text), "meditation")
    ensures BhasaVittProject in r <==> Contains(Lower(text), "bhasavitt")
  {
    assert Payloads(ProjectRules) == [FitnessProject, StressProject, BhasaVittProject];
    ProjectPayloadsDistinct();
    SelectExactly(ProjectRules, text, 0);
    SelectExactly(ProjectRules, text, 1);
    SelectExactly(ProjectRules, text, 2);
    assert ProjectRules[0].1 == FitnessProject && ProjectRules[1].1 == StressProject && ProjectRules[2].1 == BhasaVittProject;
    Select(ProjectRules, text)
  }

  // ------------------------------------------------------------ certifications and achievements

  const OracleCertificate: string := "Oracle Cloud Infrastructure 2025 Certified"
  const ManagementCertificate: string := "Project Management Professionalism"

  /** Lines 254-258. */
  const CertificationRules: Rules<string> := [
    (Mentions("oracle cloud infrastructure"), OracleCertificate),
    (Mentions("project management professionalism"), ManagementCertificate)
  ]

  /** Lines 250-260: at most the two certificates, in fixed order, each
      present exactly when its phrase occurs. */
  function ExtractCertifications(text: string): (r: seq<string>)
    ensures |r| <= 2 && IsSubsequence(r, [OracleCertificate, ManagementCertificate])
    ensures OracleCertificate in r <==> Contains(Lower(text), "oracle cloud infrastructure")
    ensures ManagementCertificate in r <==> Contains(Lower(text), "project management professionalism")
  {
    assert Payloads(CertificationRules) == [OracleCertificate, ManagementCertificate];
    assert |OracleCertificate| != |ManagementCertificate|;
    SelectExactly(CertificationRules, text, 0);
    SelectExactly(CertificationRules, text, 1);
    Select(CertificationRules, text)
  }

  const TopTenAchievement: string := "Top 10 position in CodeBlocks Hackathon 2024"
  const FinArvaAchievement: string := "FinArva AI Hackathon Finalist"
  const NationalAchievement: string := "National Level Hackathon Finalist in Gromo-AWS-Sarvam AI challenge"
  const CrowdAchievement: string := "Competed among 25,000+ participants in national hackathon"

  /** Lines 266-274. */
  const AchievementRules: Rules<string> := [
    (Both(Mentions("top 10"), Mentions("hackathon")), TopTenAchievement),
    (Mentions("finalist"), FinArvaAchievement),
    (Mentions("finalist"), NationalAchievement),
    (Verbatim("25,000"), CrowdAchievement)
  ]

  lemma AchievementPayloadsDistinct()
    ensures forall i, j :: 0 <= i < j < |AchievementRules| ==> AchievementRules[i].1 != AchievementRules[j].1
  {
    assert |TopTenAchievement| != |FinArvaAchievement|;
    assert |TopTenAchievement| != |NationalAchievement|;
    assert |TopTenAchievement| != |CrowdAchievement|;
    assert |FinArvaAchievement| != |NationalAchievement|;
    assert |FinArvaAchievement| != |CrowdAchievement|;
    assert |NationalAchievement| != |CrowdAchievement|;
  }

  /** Lines 262-276: "top 10" counts only together with "hackathon",
      "finalist" adds two entries, "25,000" (case-sensitive) adds one. */
  function ExtractAchievements(text: string): (r: seq<string>)
    ensures |r| <= 4
    ensures IsSubsequence(r, [TopTenAchievement, FinArvaAchievement, NationalAchievement, CrowdAchievement])
    ensures TopTenAchievement in r <==> Contains(Lower(text), "top 10") && Contains(Lower(text), "hackathon")
    ensures FinArvaAchievement in r <==> Contains(Lower(text), "finalist")
    ensures NationalAchievement in r <==> Contains(Lower(text), "finalist")
    ensures CrowdAchievement in r <==> Contains(text, "25,000")
  {
    AchievementPayloadsDistinct();
    SelectExactly(AchievementRules, text, 0);
    SelectExactly(AchievementRules, text, 1);
    SelectExactly(AchievementRules, text, 2);
    SelectExactly(AchievementRules, text, 3);
    assert Payloads(AchievementRules) == [TopTenAchievement, FinArvaAchievement, NationalAchievement, CrowdAchievement];
    Select(AchievementRules, text)
  }

  /** Lines 58-95 (`_extract_structured_info`). Contact details and
      education come from regular expressions and are passed in. */
  function ExtractStructuredInfo(text: string, contact: Contact, education: Education): (r: ResumeData)
    ensures r.contact == contact && r.education == education
    ensures r.personal.name.Some? <==> Contains(Lower(text), "aditya kumar")
    ensures r.experience != [] <==> Contains(Lower(text), "hackathon")
    ensures |r.projects| <= 3 && |r.certifications| <= 2 && |r.achievements| <= 4
    ensures CrowdAchievement in r.achievements <==> Contains(text, "25,000")
  {
    var personal := ExtractPersonal(text);
    var skills := ExtractSkills(text);
    var experience := ExtractExperience(text);
    var projects := ExtractProjects(text);
    var certifications := ExtractCertifications(text);
    var achievements := ExtractAchievements(text);
    ResumeData(personal, contact, education, skills, experience, projects, certifications, achievements)
  }
}
