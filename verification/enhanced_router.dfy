/** The question router of `EnhancedChatbotEngine._generate_structured_response`
    (app/utils/enhanced_chatbot_engine.py, lines 86-150): which formatted
    answer a chat message gets, decided by keyword tests on the lower-cased,
    stripped message. */
module EnhancedRouter {
  import opened Wrappers
  import opened Text
  import opened Seqs
  import opened Cues

  /** The formatter a message is routed to, or `Unrouted` (the router
      returns `None`). */
  datatype Reply =
    | PersonalInfo | AllSkills | ProjectsInfo | ContactInfo | EducationInfo
    | TechnicalSkills | ToolsSkills | ExperienceInfo | CertificationsInfo
    | AchievementsInfo | TechnologySpecific | Unrouted

  const ContactWords: seq<string> := ["contact", "email", "phone", "reach", "address"]
  const ProjectWords: seq<string> := ["project", "portfolio", "built", "developed", "created", "application"]
  const AboutWords: seq<string> := ["who", "about", "profile", "summary"]
  const AboutExclusions: seq<string> := ["project", "skill", "education", "experience"]
  const TellMeAbout: string := "tell me about"
  const TellProjectWords: seq<string> := ["project", "built", "developed"]
  const TellSkillWords: seq<string> := ["skill", "technology"]
  const TellEducationWords: seq<string> := ["education", "study"]
  const EducationWords: seq<string> := ["education", "degree", "university", "college", "study", "academic"]
  const SkillWords: seq<string> := ["skill", "technology", "programming", "language", "tool", "tech stack"]
  const TechnicalWords: seq<string> := ["technical", "programming", "coding", "language"]
  const ToolWords: seq<string> := ["tool", "ai", "platform"]
  const ExperienceWords: seq<string> := ["experience", "work", "job", "employment", "career"]
  const CertificationWords: seq<string> := ["certification", "certified", "certificate", "credential"]
  const AchievementWords: seq<string> := ["achievement", "award", "hackathon", "winner", "accomplishment"]
  const TechWords: seq<string> := ["react", "javascript", "python", "html", "css", "mongodb", "mysql"]

  /** Lines 89-150 on the already lower-cased and stripped message `u`, in
      the order the source tests them. */
  function RouteLowered(u: string): (r: Reply)
    ensures r == ContactInfo <==> u == "contact info" || (!IsButton(u) && AnyIn(u, ContactWords))
    ensures r == TechnologySpecific ==> AnyIn(u, TechWords) && !AnyIn(u, ContactWords) && !AnyIn(u, ProjectWords)
    ensures r == CertificationsInfo ==> AnyIn(u, CertificationWords) && !AnyIn(u, ContactWords)
  {
    if u == "who is aditya?" then PersonalInfo
    else if u == "technical skills" then AllSkills
    else if u == "projects" then ProjectsInfo
    else if u == "contact info" then ContactInfo
    else if AnyIn(u, ContactWords) then ContactInfo
    else if AnyIn(u, ProjectWords) then ProjectsInfo
    else if AnyIn(u, AboutWords) && !AnyIn(u, AboutExclusions) then PersonalInfo
    else if Contains(u, TellMeAbout) then
      if AnyIn(u, TellProjectWords) then ProjectsInfo
      else if AnyIn(u, TellSkillWords) then AllSkills
      else if AnyIn(u, TellEducationWords) then EducationInfo
      else PersonalInfo
    else if AnyIn(u, EducationWords) then EducationInfo
    else if AnyIn(u, SkillWords) then
      if AnyIn(u, TechnicalWords) then TechnicalSkills
      else if AnyIn(u, ToolWords) then ToolsSkills
      else AllSkills
    else if AnyIn(u, ExperienceWords) then ExperienceInfo
    else if AnyIn(u, CertificationWords) then CertificationsInfo
    else if AnyIn(u, AchievementWords) then AchievementsInfo
    else if AnyIn(u, TechWords) then TechnologySpecific
    else Unrouted
  }

  /** Line 86: `user_message.lower().strip()`, then the tests above. A
      message is left to the document search exactly when its normalised
      form is no button and names no keyword; it gets the projects answer
      exactly when that form is the projects button or names a project word
      and no contact word. */
  function Route(msg: string): (r: Reply)
    ensures var u := Strip(Lower(msg));
      r == Unrouted <==> !IsButton(u) && !AnyIn(u, RouterKeywords)
    ensures var u := Strip(Lower(msg));
      r == ProjectsInfo <==> u == "projects" || (!IsButton(u) && !AnyIn(u, ContactWords) && AnyIn(u, ProjectWords))
  {
    UnroutedIff(Strip(Lower(msg)));
    ProjectsIff(Strip(Lower(msg)));
    RouteLowered(Strip(Lower(msg)))
  }

  // ------------------------------------------------------------ what each answer means

  /** The four suggestion buttons, matched exactly (lines 89-96). */
  predicate IsButton(u: string) {
    u == "who is aditya?" || u == "technical skills" || u == "projects" || u == "contact info"
  }

  /** Every keyword the router tests outside the buttons. The "tell me
      about" phrase and the words looked for only inside a block are covered by
      words of this list. */
  const RouterKeywords: seq<string> :=
    ContactWords + ProjectWords + AboutWords + EducationWords + SkillWords
    + ExperienceWords + CertificationWords + AchievementWords + TechWords

  /** Every word of `small` is one of `big`, so a message naming one of
      `small` names one of `big`. */
  lemma AnyInWider(u: string, small: seq<string>, big: seq<string>)
    requires forall i :: 0 <= i < |small| ==> small[i] in big
    requires AnyIn(u, small)
    ensures AnyIn(u, big)
  {
    var k :| 0 <= k < |small| && Contains(u, small[k]);
    var m :| 0 <= m < |big| && big[m] == small[k];
  }

  /** A message naming "tell me about" names "about". */
  lemma TellMeAboutNamesAbout(u: string)
    requires Contains(u, TellMeAbout)
    ensures AnyIn(u, AboutWords)
  {
    var j := Find(u, TellMeAbout);
    assert OccursAt(TellMeAbout, "about", 8);
    OccursWithin(u, TellMeAbout, "about", j, 8);
    ContainsIff(u, "about", j + 8);
    assert AboutWords[1] == "about";
  }

  /** Naming a word of the whole keyword list is naming a word of one of
      the lists it is made of. */
  lemma KeywordsSplit(u: string)
    ensures AnyIn(u, RouterKeywords) <==>
      AnyIn(u, ContactWords) || AnyIn(u, ProjectWords) || AnyIn(u, AboutWords)
      || AnyIn(u, EducationWords) || AnyIn(u, SkillWords) || AnyIn(u, ExperienceWords)
      || AnyIn(u, CertificationWords) || AnyIn(u, AchievementWords) || AnyIn(u, TechWords)
  {
    var lists := [ContactWords, ProjectWords, AboutWords, EducationWords, SkillWords,
                  ExperienceWords, CertificationWords, AchievementWords, TechWords];
    if AnyIn(u, RouterKeywords) {
      var k :| 0 <= k < |RouterKeywords| && Contains(u, RouterKeywords[k]);
      var w := RouterKeywords[k];
      assert w in RouterKeywords;
      if w in ContactWords { AnyInWitness(u, ContactWords, w); }
      else if w in ProjectWords { AnyInWitness(u, ProjectWords, w); }
      else if w in AboutWords { AnyInWitness(u, AboutWords, w); }
      else if w in EducationWords { AnyInWitness(u, EducationWords, w); }
      else if w in SkillWords { AnyInWitness(u, SkillWords, w); }
      else if w in ExperienceWords { AnyInWitness(u, ExperienceWords, w); }
      else if w in CertificationWords { AnyInWitness(u, CertificationWords, w); }
      else if w in AchievementWords { AnyInWitness(u, AchievementWords, w); }
      else { AnyInWitness(u, TechWords, w); }
    } else {
      forall l | l in lists ensures forall i :: 0 <= i < |l| ==> l[i] in RouterKeywords { }
      if AnyIn(u, ContactWords) { AnyInWider(u, ContactWords, RouterKeywords); }
      if AnyIn(u, ProjectWords) { AnyInWider(u, ProjectWords, RouterKeywords); }
      if AnyIn(u, AboutWords) { AnyInWider(u, AboutWords, RouterKeywords); }
      if AnyIn(u, EducationWords) { AnyInWider(u, EducationWords, RouterKeywords); }
      if AnyIn(u, SkillWords) { AnyInWider(u, SkillWords, RouterKeywords); }
      if AnyIn(u, ExperienceWords) { AnyInWider(u, ExperienceWords, RouterKeywords); }
      if AnyIn(u, CertificationWords) { AnyInWider(u, CertificationWords, RouterKeywords); }
      if AnyIn(u, AchievementWords) { AnyInWider(u, AchievementWords, RouterKeywords); }
      if AnyIn(u, TechWords) { AnyInWider(u, TechWords, RouterKeywords); }
    }
  }

  lemma AnyInWitness(u: string, words: seq<string>, w: string)
    requires w in words && Contains(u, w)
    ensures AnyIn(u, words)
  {
    var k :| 0 <= k < |words| && words[k] == w;
  }

  /** A message is left to the document search exactly when it is no
      button and names none of the router's keywords: the "about" rule's
      exclusions and the inner tests of the blocks never send a message
      that names a keyword past every answer. */
  lemma UnroutedIff(u: string)
    ensures RouteLowered(u) == Unrouted <==> !IsButton(u) && !AnyIn(u, RouterKeywords)
  {
    KeywordsSplit(u);
    if AnyIn(u, AboutWords) && AnyIn(u, AboutExclusions) {
      var k :| 0 <= k < |AboutExclusions| && Contains(u, AboutExclusions[k]);
      if k == 0 { AnyInWitness(u, ProjectWords, "project"); }
      else if k == 1 { AnyInWitness(u, SkillWords, "skill"); }
      else if k == 2 { AnyInWitness(u, EducationWords, "education"); }
      else { AnyInWitness(u, ExperienceWords, "experience"); }
    }
    if Contains(u, TellMeAbout) { TellMeAboutNamesAbout(u); }
  }

  /** The projects answer is given exactly to the "projects" button and to
      messages naming a project word but no contact word. The "tell me
      about ... project" test (lines 111-113) adds nothing: each of its words
      is a project word already answered at line 103. */
  lemma ProjectsIff(u: string)
    ensures RouteLowered(u) == ProjectsInfo <==>
      u == "projects" || (!IsButton(u) && !AnyIn(u, ContactWords) && AnyIn(u, ProjectWords))
  {
    if !IsButton(u) && !AnyIn(u, ContactWords) && !AnyIn(u, ProjectWords) && AnyIn(u, TellProjectWords) {
      AnyInWider(u, TellProjectWords, ProjectWords);
    }
  }

  /** The "technical skills" suggestion button is answered with the complete
      skills overview, although it names both a skill word and a technical
      word, which after the buttons select the technical-skills answer
      (line 128). */
  lemma TechnicalSkillsButton()
    ensures RouteLowered("technical skills") == AllSkills
    ensures AnyIn("technical skills", SkillWords) && AnyIn("technical skills", TechnicalWords)
  {
    var u := "technical skills";
    ContainsIff(u, "skill", 10);
    ContainsIff(u, "technical", 0);
    AnyInWitness(u, SkillWords, "skill");
    AnyInWitness(u, TechnicalWords, "technical");
  }

  /** A question phrased "tell me about ..." that names experience but no
      contact, project, skill or education word is answered with the
      personal summary, not the experience listing. */
  lemma TellMeAboutExperience(u: string)
    requires Contains(u, TellMeAbout) && Contains(u, "experience")
    requires u != "who is aditya?" && u != "technical skills" && u != "projects" && u != "contact info"
    requires !AnyIn(u, ContactWords) && !AnyIn(u, ProjectWords)
    requires !AnyIn(u, TellSkillWords) && !AnyIn(u, TellEducationWords)
    ensures RouteLowered(u) == PersonalInfo
    ensures AnyIn(u, ExperienceWords)
  {
    assert AboutExclusions[3] == "experience";
    assert ExperienceWords[0] == "experience";
    if AnyIn(u, TellProjectWords) {
      AnyInWider(u, TellProjectWords, ProjectWords);
    }
  }

  // ------------------------------------------------------------ normalisation

  lemma LowerUpperChar(c: char)
    ensures LowerChar(UpperChar(c)) == LowerChar(c)
  {
  }

  /** Routing ignores the letter case of the message. */
  lemma RouteIgnoresCase(msg: string)
    ensures Route(Upper(msg)) == Route(msg)
  {
    forall i | 0 <= i < |msg| ensures Lower(Upper(msg))[i] == Lower(msg)[i] {
      LowerUpperChar(msg[i]);
    }
    assert Lower(Upper(msg)) == Lower(msg);
  }

  /** Routing ignores whitespace around the message. */
  lemma RouteIgnoresPadding(w1: string, msg: string, w2: string)
    requires AllSpace(w1) && AllSpace(w2)
    ensures Route(w1 + msg + w2) == Route(msg)
  {
    NormalisedIgnoresPadding(w1, msg, w2);
  }

  /** The lower-cased, stripped message the router matches on. */
  lemma NormalisedIgnoresPadding(w1: string, msg: string, w2: string)
    requires AllSpace(w1) && AllSpace(w2)
    ensures Strip(Lower(w1 + msg + w2)) == Strip(Lower(msg))
  {
    LowerAppend(w1, msg + w2);
    LowerAppend(msg, w2);
    LowerKeepsSpace(w1);
    LowerKeepsSpace(w2);
    assert w1 + msg + w2 == w1 + (msg + w2);
    StripDropsSpacePrefix(w1, Lower(msg) + w2);
    StripDropsSpaceSuffix(Lower(msg), w2);
  }

  lemma LowerAppend(a: string, b: string)
    ensures Lower(a + b) == Lower(a) + Lower(b)
  {
  }

  /** Whitespace has no case. */
  lemma LowerKeepsSpace(w: string)
    requires AllSpace(w)
    ensures Lower(w) == w
  {
  }
}
