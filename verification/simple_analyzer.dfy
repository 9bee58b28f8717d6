/** `SimpleContentAnalyzer` (simple_analyzer.py): keyword and vocabulary
    extraction of a structured resume record from cleaned resume text. */
module SimpleAnalyzer {
  import opened Wrappers
  import opened Text
  import opened Seqs
  import opened Cues
  import opened Cleaning
  import opened Resume

  /** Lines 56-60: the same personal record for every resume. */
  const FixedPersonal: Personal :=
    Personal(Some("Aditya Kumar"), Some("Web Developer"), Some("Lucknow, Uttar Pradesh"))

  /** Line 88. */
  const TechVocab: seq<string> := [
    "HTML", "CSS", "JavaScript", "React", "jQuery", "Tailwind CSS",
    "Python", "Java", "Node.js", "MongoDB", "MySQL"
  ]

  /** Line 94. */
  const ToolVocab: seq<string> := [
    "AWS", "Canva AI", "Cursor AI", "ChatGPT", "Claude", "Gemini", "AutoML", "OpenAI", "Oracle Cloud"
  ]

  /** Line 100. */
  const SoftVocab: seq<string> := [
    "Project Management", "Effective Communication", "Critical Thinking", "Problem Solving"
  ]

  const FitnessProject: Project := Project(
    Some("Responsive Fitness-and-Sports Website"),
    Some("Built a responsive fitness and sports website that achieved Top 10 position in CodeBlocks Hackathon 2024"),
    ["HTML", "CSS", "JavaScript"],
    Some("Top 10 position in CodeBlocks Hackathon 2024"),
    [])

  const StressProject: Project := Project(
    Some("Stress Reduction Application"),
    Some("Developed stress reduction application using OpenAI API with guided exercises and meditation"),
    ["OpenAI API", "Python"],
    None,
    ["Guided exercises", "Meditation"])

  const BhasaVittProject: Project := Project(
    Some("BhasaVitt - Multilingual AI Model"),
    Some("Developed multilingual AI model for Gromo-AWS-Sarvam AI challenge"),
    ["AI/ML", "Multilingual Processing"],
    Some("National Level Hackathon Finalist (25,000+ participants)"),
    [])

  /** Lines 106-128, in this order. */
  const ProjectRules: Rules<Project> := [
    (Both(Mentions("fitness"), Mentions("website")), FitnessProject),
    (Both(Mentions("stress"), Mentions("openai")), StressProject),
    (Either(Mentions("bhasavitt"), Both(Mentions("multilingual"), Mentions("ai"))), BhasaVittProject)
  ]

  /** Lines 131-134. */
  const CertificationRules: Rules<string> := [
    (Mentions("oracle cloud infrastructure"), "Oracle Cloud Infrastructure 2025 Certified"),
    (Mentions("project management professionalism"), "Project Management Professionalism")
  ]

  const TopTenAchievement: string := "Top 10 position in CodeBlocks Hackathon 2024"
  const FinArvaAchievement: string := "FinArva AI Hackathon Finalist"
  const NationalAchievement: string :=
    "National Level Hackathon Finalist in Gromo-AWS-Sarvam AI challenge (25,000+ participants)"

  /** Lines 137-142 as written: the FinArva test looks for `finArva`, with
      an upper-case letter, in the lower-cased text. */
  const AchievementRulesAsWritten: Rules<string> := [
    (Both(Mentions("top 10"), Mentions("hackathon")), TopTenAchievement),
    (Both(Mentions("finalist"), Mentions("finArva")), FinArvaAchievement),
    (Both(Mentions("finalist"), Verbatim("25,000")), NationalAchievement)
  ]

  /** Lines 137-142 with the FinArva test spelled in lower case, as the
      lower-cased text it is matched against requires. */
  const AchievementRules: Rules<string> := [
    (Both(Mentions("top 10"), Mentions("hackathon")), TopTenAchievement),
    (Both(Mentions("finalist"), Mentions("finarva")), FinArvaAchievement),
    (Both(Mentions("finalist"), Verbatim("25,000")), NationalAchievement)
  ]

  /** Lines 145-155. */
  const HackathonExperience: Experience := Experience(
    Some("Hackathon Participation & Development"),
    Some("Active participant in multiple national-level hackathons with consistent achievements"),
    [
      "Top 10 position in CodeBlocks Hackathon 2024",
      "Finalist in FinArva AI Hackathon",
      "National Level Hackathon Finalist (25,000+ participants)",
      "Built responsive websites and AI applications"
    ],
    [])

  /** Lower-casing yields no upper-case letter, so a pattern holding one
      never occurs in lower-cased text. */
  lemma LowerLacksFinArva(text: string)
    ensures !Contains(Lower(text), "finArva")
  {
    var l := Lower(text);
    var j := Find(l, "finArva");
    if j >= 0 {
      assert l[j..j + 7] == "finArva";
      assert l[j + 3] == 'A';
      LowerHasNoUpper(text, j + 3);
      assert false;
    }
  }

  /** The achievement payloads are pairwise distinct. */
  lemma AchievementPayloadsDistinct()
    ensures forall i, j :: 0 <= i < j < |AchievementRules| ==> AchievementRules[i].1 != AchievementRules[j].1
    ensures forall i, j :: 0 <= i < j < |AchievementRulesAsWritten| ==> AchievementRulesAsWritten[i].1 != AchievementRulesAsWritten[j].1
  {
    assert |TopTenAchievement| != |FinArvaAchievement|;
    assert |TopTenAchievement| != |NationalAchievement|;
    assert |FinArvaAchievement| != |NationalAchievement|;
  }

  /** As written, the FinArva achievement is never recorded, whatever the text. */
  lemma FinArvaNeverRecordedAsWritten(text: string)
    ensures FinArvaAchievement !in Select(AchievementRulesAsWritten, text)
  {
    LowerLacksFinArva(text);
    AchievementPayloadsDistinct();
    SelectExactly(AchievementRulesAsWritten, text, 1);
  }

  /** With the corrected spelling the FinArva achievement is recorded exactly
      when the text mentions both "finalist" and "finarva". */
  lemma FinArvaRecorded(text: string)
    ensures FinArvaAchievement in Select(AchievementRules, text)
        <==> Contains(Lower(text), "finalist") && Contains(Lower(text), "finarva")
  {
    AchievementPayloadsDistinct();
    SelectExactly(AchievementRules, text, 1);
  }

  /** Lines 79-85. */
  function ExtractEducation(text: string): (r: Education)
    ensures r.degree.Some? <==> Contains(Lower(text), "bachelor of technology")
    ensures r.university.Some? <==> Contains(Lower(text), "lovely professional")
    ensures r.years.Some? <==> Contains(text, "2023") && Contains(text, "2027")
  {
    Education(
      if Contains(Lower(text), "bachelor of technology")
      then Some("Bachelor of Technology in Computer Science and Engineering") else None,
      if Contains(Lower(text), "lovely professional") then Some("Lovely Professional University") else None,
      if Contains(text, "2023") && Contains(text, "2027") then Some("2023 - 2027") else None)
  }

  lemma ProjectPayloadsDistinct()
    ensures forall i, j :: 0 <= i < j < |ProjectRules| ==> ProjectRules[i].1 != ProjectRules[j].1
  {
    assert FitnessProject.features != StressProject.features;
    assert |FitnessProject.technologies| != |BhasaVittProject.technologies|;
    assert StressProject.features != BhasaVittProject.features;
  }

  /** Lines 87-103: each list is the vocabulary filtered, in vocabulary
      order, by case-insensitive occurrence in the text. */
  function ExtractSkills(text: string): (r: Skills)
    ensures IsSubsequence(r.technical, TechVocab)
    ensures forall v {:trigger v in r.technical} :: v in r.technical <==> v in TechVocab && Contains(Lower(text), Lower(v))
    ensures IsSubsequence(r.tools, ToolVocab)
    ensures forall v {:trigger v in r.tools} :: v in r.tools <==> v in ToolVocab && Contains(Lower(text), Lower(v))
    ensures IsSubsequence(r.soft, SoftVocab)
    ensures forall v {:trigger v in r.soft} :: v in r.soft <==> v in SoftVocab && Contains(Lower(text), Lower(v))
  {
    Skills(VocabFilter(TechVocab, text), VocabFilter(ToolVocab, text), VocabFilter(SoftVocab, text))
  }

  /** A project is listed exactly when its own test passes. */
  lemma ProjectSelected(text: string, k: nat)
    requires k < |ProjectRules|
    ensures ProjectRules[k].1 in Select(ProjectRules, text) <==> Passes(ProjectRules[k].0, text)
  {
    ProjectPayloadsDistinct();
    SelectExactly(ProjectRules, text, k);
  }

  /** Lines 105-128: at most the three known projects, in their fixed order,
      each present exactly when its keywords occur. */
  function ExtractProjects(text: string): (r: seq<Project>)
    ensures |r| <= 3 && IsSubsequence(r, [FitnessProject, StressProject, BhasaVittProject])
    ensures FitnessProject in r <==> Contains(Lower(text), "fitness") && Contains(Lower(text), "website")
    ensures StressProject in r <==> Contains(Lower(text), "stress") && Contains(Lower(text), "openai")
    ensures BhasaVittProject in r <==>
      Contains(Lower(text), "bhasavitt") || (Contains(Lower(text), "multilingual") && Contains(Lower(text), "ai"))
  {
    assert Payloads(ProjectRules) == [FitnessProject, StressProject, BhasaVittProject];
    ProjectSelected(text, 0);
    ProjectSelected(text, 1);
    ProjectSelected(text, 2);
    assert ProjectRules[2].1 == BhasaVittProject;
    assert Passes(ProjectRules[2].0, text) <==> Passes(Mentions("bhasavitt"), text) || Passes(Both(Mentions("multilingual"), Mentions("ai")), text);
    assert Passes(Both(Mentions("multilingual"), Mentions("ai")), text) <==> Contains(Lower(text), "multilingual") && Contains(Lower(text), "ai");
    Select(ProjectRules, text)
  }

  /** Lines 144-155: one experience entry exactly when the text mentions a hackathon. */
  function ExtractExperience(text: string): (r: seq<Experience>)
    ensures |r| <= 1
    ensures r != [] <==> Contains(Lower(text), "hackathon")
    ensures forall e :: e in r ==> |e.highlights| == 4
  {
    if Contains(Lower(text), "hackathon") then [HackathonExperience] else []
  }

  /** Lines 136-142 as written: the FinArva test never passes, so only the
      Top 10 and national entries can be recorded. */
  function ExtractAchievements(text: string): (r: seq<string>)
    ensures |r| <= 3 && IsSubsequence(r, [TopTenAchievement, FinArvaAchievement, NationalAchievement])
    ensures FinArvaAchievement !in r
    ensures TopTenAchievement in r <==> Contains(Lower(text), "top 10") && Contains(Lower(text), "hackathon")
    ensures NationalAchievement in r <==> Contains(Lower(text), "finalist") && Contains(text, "25,000")
  {
    FinArvaNeverRecordedAsWritten(text);
    AchievementPayloadsDistinct();
    SelectExactly(AchievementRulesAsWritten, text, 0);
    SelectExactly(AchievementRulesAsWritten, text, 2);
    assert Payloads(AchievementRulesAsWritten) == [TopTenAchievement, FinArvaAchievement, NationalAchievement];
    Select(AchievementRulesAsWritten, text)
  }

  /** Lines 136-142 with the FinArva test spelled in lower case: each entry
      is recorded exactly when its keywords occur. */
  function ExtractAchievementsCorrected(text: string): (r: seq<string>)
    ensures |r| <= 3 && IsSubsequence(r, [TopTenAchievement, FinArvaAchievement, NationalAchievement])
    ensures TopTenAchievement in r <==> Contains(Lower(text), "top 10") && Contains(Lower(text), "hackathon")
    ensures FinArvaAchievement in r <==> Contains(Lower(text), "finalist") && Contains(Lower(text), "finarva")
    ensures NationalAchievement in r <==> Contains(Lower(text), "finalist") && Contains(text, "25,000")
  {
    FinArvaRecorded(text);
    AchievementPayloadsDistinct();
    SelectExactly(AchievementRules, text, 0);
    SelectExactly(AchievementRules, text, 2);
    assert Payloads(AchievementRules) == [TopTenAchievement, FinArvaAchievement, NationalAchievement];
    Select(AchievementRules, text)
  }

  /** Lines 53-157 (`_extract_structured_info`). The phone and email come
      from regular expressions and are passed in as `contact`. */
  function ExtractStructuredInfo(text: string, contact: Contact): (r: ResumeData)
    ensures r.personal == FixedPersonal && r.contact == contact
    ensures r.experience != [] <==> Contains(Lower(text), "hackathon")
    ensures |r.projects| <= 3 && |r.certifications| <= 2
    ensures FinArvaAchievement !in r.achievements
  {
    var education := ExtractEducation(text);
    var skills := ExtractSkills(text);
    var experience := ExtractExperience(text);
    var projects := ExtractProjects(text);
    var certifications := Select(CertificationRules, text);
    assert |certifications| <= 2 by { assert |CertificationRules| == 2; }
    var achievements := ExtractAchievements(text);
    ResumeData(FixedPersonal, contact, education, skills, experience, projects, certifications, achievements)
  }

  /** Lines 27-44 without the PDF reading and the display: clean the raw
      text, then extract from it. */
  function AnalyzeContent(rawText: string, contact: Contact): (r: ResumeData)
    ensures r.personal == FixedPersonal && r.contact == contact
    ensures FinArvaAchievement !in r.achievements
  {
    ExtractStructuredInfo(SimpleClean(rawText), contact)
  }

  /** The personal record does not depend on the resume at all. */
  lemma PersonalIsConstant(a: string, b: string, c1: Contact, c2: Contact)
    ensures AnalyzeContent(a, c1).personal == AnalyzeContent(b, c2).personal
  {
  }
}
