/** `EnhancedChatbotEngine` (app/utils/enhanced_chatbot_engine.py): answers
    from the structured resume record when the router finds a topic, and
    otherwise from the document chunks the similarity search returns. */
module EnhancedEngine {
  import opened Wrappers
  import opened Text
  import opened Seqs
  import opened Resume
  import opened Retrieval
  import opened EnhancedRouter
  import AdvancedAnalyzer

  /** The engine state: the loaded record, if any, and the PDF processor. */
  datatype Engine = Engine(data: Option<ResumeData>, processor: Processor)

  /** Python truthiness of an optional string value. */
  predicate Present(o: Option<string>) {
    o.Some? && o.value != ""
  }

  // ------------------------------------------------------------ loading the record

  /** Lines 24-29, tried in this order. */
  const DataPaths: seq<string> := [
    "../data/structured_resume_data.json",
    "../../data/structured_resume_data.json",
    "/Users/aditya/Chatbot/data/structured_resume_data.json",
    "data/structured_resume_data.json"
  ]

  /** Lines 20-44. `files` maps each existing path to its parsed contents,
      `None` when the file does not parse. The first existing path decides:
      a file that does not parse leaves the record absent, and later paths
      are not tried. A file holding the empty object `{}` is given as
      `None`: line 83 treats the loaded empty dictionary as no record. */
  function LoadStructuredData(files: map<string, Option<ResumeData>>): (r: Option<ResumeData>)
    ensures (forall i :: 0 <= i < |DataPaths| ==> DataPaths[i] !in files) ==> r.None?
    ensures forall i ::
      0 <= i < |DataPaths| && DataPaths[i] in files && (forall j :: 0 <= j < i ==> DataPaths[j] !in files) ==> r == files[DataPaths[i]]
    ensures r.Some? ==> exists i :: 0 <= i < |DataPaths| && DataPaths[i] in files && files[DataPaths[i]] == r
                                  && (forall j :: 0 <= j < i ==> DataPaths[j] !in files)
  {
    match FirstWhere(DataPaths, path => path in files)
    case None => None
    case Some(i) => files[DataPaths[i]]
  }

  // ------------------------------------------------------------ answer lines

  /** Each formatter builds its answer by appending pieces to a string; the
      model keeps the pieces, in order, and renders them by concatenation. */
  function Render(lines: seq<string>): (r: string)
    ensures forall x :: x in lines ==> Contains(r, x)
    ensures Leads(lines) ==> r != ""
  {
    var r := Join(lines, "");
    assert forall x :: x in lines ==> Contains(r, x) by {
      forall x | x in lines
        ensures Contains(r, x)
      {
        var k :| 0 <= k < |lines| && lines[k] == x;
        JoinShows(lines, k);
      }
    }
    assert Leads(lines) ==> r != "" by {
      if Leads(lines) {
        JoinHead(lines);
      }
    }
    r
  }

  /** The first piece exists and is not empty, so the rendered answer is
      truthy. */
  predicate Leads(lines: seq<string>) {
    |lines| > 0 && lines[0] != ""
  }

  /** The piece `tag + value + "\n"` when the value is truthy, nothing otherwise. */
  function OptionalLine(tag: string, o: Option<string>): (r: seq<string>)
    ensures Present(o) ==> r == [tag + o.value + "\n"]
    ensures !Present(o) ==> r == []
  {
    if Present(o) then [tag + o.value + "\n"] else []
  }

  /** The piece `tag + ", ".join(items) + end` when the list is non-empty. */
  function ListLine(tag: string, items: seq<string>, end: string): (r: seq<string>)
    ensures items != [] ==> r == [tag + Join(items, ", ") + end]
    ensures items == [] ==> r == []
  {
    if items != [] then [tag + Join(items, ", ") + end] else []
  }

  /** One piece per item, each `prefix + item + "\n"`. */
  function Bullets(prefix: string, items: seq<string>): (r: seq<string>)
    ensures |r| == |items|
    ensures forall k :: 0 <= k < |items| ==> r[k] == prefix + items[k] + "\n"
  {
    seq(|items|, k requires 0 <= k < |items| => prefix + items[k] + "\n")
  }

  const NoEducation: string := "I don't have specific education information available."
  const NoTechnical: string := "I don't have specific technical skills information available."
  const NoTools: string := "I don't have specific tools information available."
  const NoExperience: string := "I don't have specific experience information available."
  const NoProjects: string := "I don't have specific project information available."
  const NoCertifications: string := "I don't have specific certification information available."
  const NoAchievements: string := "I don't have specific achievement information available."

  // ------------------------------------------------------------ formatters

  /** Lines 164-165: the two closing sentences of the introduction. */
  const PersonalClosing: seq<string> := [
    "I have extensive experience in web development, AI tools, and have achieved notable success in hackathons. ",
    "I'm passionate about building innovative digital solutions and have worked on various projects ranging from responsive websites to AI applications."]

  /** Lines 152-167: the introduction, with the degree sentence only when a
      degree is recorded. */
  function PersonalLines(d: ResumeData): (r: seq<string>)
    ensures Leads(r)
    ensures "Hi! I'm " + d.personal.name.GetOr("Aditya Kumar") + ", a passionate "
            + d.personal.role.GetOr("Web Developer") + " " in r
    ensures "based in " + d.personal.location.GetOr("Lucknow, Uttar Pradesh") + ". " in r
    ensures Present(d.education.degree) ==>
      "I'm currently pursuing " + d.education.degree.value + " at "
      + d.education.university.GetOr("Lovely Professional University") + " " in r
    ensures |r| == if Present(d.education.degree) then 6 else 4
    ensures Present(d.education.degree) ==> r[3] == "(" + d.education.years.GetOr("2023-2027") + "). "
    ensures r[|r| - 2..] == PersonalClosing
  {
    var intro := "Hi! I'm " + d.personal.name.GetOr("Aditya Kumar") + ", a passionate "
      + d.personal.role.GetOr("Web Developer") + " ";
    var place := "based in " + d.personal.location.GetOr("Lucknow, Uttar Pradesh") + ". ";
    var study := if Present(d.education.degree) then
      ["I'm currently pursuing " + d.education.degree.value + " at "
       + d.education.university.GetOr("Lovely Professional University") + " ",
       "(" + d.education.years.GetOr("2023-2027") + "). "]
      else [];
    [intro, place] + study + PersonalClosing
  }

  /** Line 183. */
  const ContactClosing: string :=
    "\nFeel free to reach out for collaboration opportunities, project discussions, or any inquiries!"

  /** Lines 169-185: the greeting, one piece per truthy contact detail in
      the order email, phone, location, and the closing sentence. */
  function ContactLines(d: ResumeData): (r: seq<string>)
    ensures Leads(r)
    ensures Present(d.contact.email) ==> "\U{1F4E7} Email: " + d.contact.email.value + "\n" in r
    ensures Present(d.contact.phone) ==> "\U{1F4F1} Phone: " + d.contact.phone.value + "\n" in r
    ensures Present(d.personal.location) ==> "\U{1F4CD} Location: " + d.personal.location.value + "\n" in r
    ensures |r| == 2 + (if Present(d.contact.email) then 1 else 0) + (if Present(d.contact.phone) then 1 else 0)
                     + (if Present(d.personal.location) then 1 else 0)
    ensures r[0] == "You can reach " + d.personal.name.GetOr("Aditya") + " through the following contact information:\n\n"
    ensures r[|r| - 1] == ContactClosing
    ensures var e := if Present(d.contact.email) then 1 else 0;
      var p := if Present(d.contact.phone) then 1 else 0;
      && (Present(d.contact.email) ==> r[1] == "\U{1F4E7} Email: " + d.contact.email.value + "\n")
      && (Present(d.contact.phone) ==> r[1 + e] == "\U{1F4F1} Phone: " + d.contact.phone.value + "\n")
      && (Present(d.personal.location) ==> r[1 + e + p] == "\U{1F4CD} Location: " + d.personal.location.value + "\n")
  {
    var greeting := "You can reach " + d.personal.name.GetOr("Aditya") + " through the following contact information:\n\n";
    var email := OptionalLine("\U{1F4E7} Email: ", d.contact.email);
    var phone := OptionalLine("\U{1F4F1} Phone: ", d.contact.phone);
    var location := OptionalLine("\U{1F4CD} Location: ", d.personal.location);
    [greeting] + email + phone + location + [ContactClosing]
  }

  /** An education dictionary with no key, which is falsy. */
  predicate NoEducationKnown(e: Education) {
    e.degree.None? && e.university.None? && e.years.None?
  }

  /** Line 198. */
  const EducationClosing: string :=
    "Currently studying Computer Science and Engineering with focus on web development, AI technologies, and software engineering principles."

  /** Lines 187-200: the three entries, each falling back to its default. */
  function EducationLines(e: Education): (r: seq<string>)
    ensures Leads(r)
    ensures r == [NoEducation] <==> NoEducationKnown(e)
    ensures !NoEducationKnown(e) ==>
      "Degree: " + e.degree.GetOr("Bachelor of Technology in Computer Science and Engineering") + "\n" in r
      && "University: " + e.university.GetOr("Lovely Professional University") + "\n" in r
      && "Duration: " + e.years.GetOr("2023 - 2027") + "\n\n" in r
  {
    if NoEducationKnown(e) then [NoEducation]
    else
      var header := "\U{1F393} Education Background:\n\n";
      var degree := "Degree: " + e.degree.GetOr("Bachelor of Technology in Computer Science and Engineering") + "\n";
      var university := "University: " + e.university.GetOr("Lovely Professional University") + "\n";
      var years := "Duration: " + e.years.GetOr("2023 - 2027") + "\n\n";
      [header, degree, university, years, EducationClosing]
  }

  /** Line 213. */
  const FrontendNames: seq<string> := ["html", "css", "javascript", "react", "jquery", "tailwind css"]
  /** Line 214. */
  const BackendNames: seq<string> := ["python", "java", "node.js"]
  /** Line 215. */
  const DatabaseNames: seq<string> := ["mongodb", "mysql"]

  /** `[s for s in skills if s.lower() in names]`. */
  function Category(skills: seq<string>, names: seq<string>): (r: seq<string>)
    ensures IsSubsequence(r, skills)
    ensures forall s :: s in r <==> s in skills && Lower(s) in names
  {
    Filter(skills, s => Lower(s) in names)
  }

  /** No skill falls in two of the frontend, backend and database groups. */
  lemma CategoriesDisjoint(skills: seq<string>, s: string)
    ensures !(s in Category(skills, FrontendNames) && s in Category(skills, BackendNames))
    ensures !(s in Category(skills, FrontendNames) && s in Category(skills, DatabaseNames))
    ensures !(s in Category(skills, BackendNames) && s in Category(skills, DatabaseNames))
  {
  }

  /** Lines 202-226: a line per non-empty group, then every skill. */
  function TechnicalLines(technical: seq<string>): (r: seq<string>)
    ensures Leads(r)
    ensures r == [NoTechnical] <==> technical == []
    ensures technical != [] ==> "\n\U{1F4CB} All Technical Skills: " + Join(technical, ", ") in r
    ensures Category(technical, FrontendNames) != [] ==>
      "\U{1F3A8} Frontend: " + Join(Category(technical, FrontendNames), ", ") + "\n" in r
    ensures Category(technical, BackendNames) != [] ==>
      "\U{2699}\U{FE0F} Backend: " + Join(Category(technical, BackendNames), ", ") + "\n" in r
    ensures Category(technical, DatabaseNames) != [] ==>
      "\U{1F5C4}\U{FE0F} Database: " + Join(Category(technical, DatabaseNames), ", ") + "\n" in r
  {
    if technical == [] then [NoTechnical]
    else
      var header := "\U{1F4BB} Technical Skills:\n\n";
      var front := ListLine("\U{1F3A8} Frontend: ", Category(technical, FrontendNames), "\n");
      var back := ListLine("\U{2699}\U{FE0F} Backend: ", Category(technical, BackendNames), "\n");
      var data := ListLine("\U{1F5C4}\U{FE0F} Database: ", Category(technical, DatabaseNames), "\n");
      var all := "\n\U{1F4CB} All Technical Skills: " + Join(technical, ", ");
      [header] + front + back + data + [all]
  }

  /** Line 239: names an AI tool either by containing "ai" or by name. */
  const AiToolNames: seq<string> := ["chatgpt", "claude", "gemini", "automl", "openai"]
  /** Line 240. */
  const CloudNames: seq<string> := ["aws", "oracle cloud"]

  predicate IsAiTool(t: string) {
    Contains(Lower(t), "ai") || Lower(t) in AiToolNames
  }

  function AiTools(tools: seq<string>): (r: seq<string>)
    ensures IsSubsequence(r, tools)
    ensures forall t :: t in r <==> t in tools && IsAiTool(t)
  {
    Filter(tools, IsAiTool)
  }

  function CloudTools(tools: seq<string>): (r: seq<string>)
    ensures IsSubsequence(r, tools)
    ensures forall t :: t in r <==> t in tools && Lower(t) in CloudNames
  {
    Filter(tools, t => Lower(t) in CloudNames)
  }

  /** No tool is listed both as an AI tool and as a cloud platform. */
  lemma ToolGroupsDisjoint(tools: seq<string>, t: string)
    ensures !(t in AiTools(tools) && t in CloudTools(tools))
  {
    if t in CloudTools(tools) {
      assert Lower(t) == "aws" || Lower(t) == "oracle cloud";
      AbsentByChar("aws", "ai", 1);
      AbsentByChar("oracle cloud", "ai", 1);
    }
  }

  /** Lines 228-249. */
  function ToolLines(tools: seq<string>): (r: seq<string>)
    ensures Leads(r)
    ensures r == [NoTools] <==> tools == []
    ensures tools != [] ==> "\n\U{1F4CB} All Tools: " + Join(tools, ", ") in r
    ensures AiTools(tools) != [] ==> "\U{1F916} AI Tools: " + Join(AiTools(tools), ", ") + "\n" in r
    ensures CloudTools(tools) != [] ==> "\U{2601}\U{FE0F} Cloud Platforms: " + Join(CloudTools(tools), ", ") + "\n" in r
  {
    if tools == [] then [NoTools]
    else
      var header := "\U{1F6E0}\U{FE0F} AI Tools & Platforms:\n\n";
      var ai := ListLine("\U{1F916} AI Tools: ", AiTools(tools), "\n");
      var cloud := ListLine("\U{2601}\U{FE0F} Cloud Platforms: ", CloudTools(tools), "\n");
      var all := "\n\U{1F4CB} All Tools: " + Join(tools, ", ");
      [header] + ai + cloud + [all]
  }

  /** Line 266. */
  const SkillsClosing: string :=
    "This diverse skill set enables me to work on full-stack development projects, integrate AI capabilities, and manage projects effectively."

  /** Line 254. */
  const SkillsHeader: string := "\U{1F4BC} Complete Skills Overview:\n\n"

  /** Lines 251-268: the header, one piece for each non-empty skill list in
      the order technical, tools, soft, and the closing sentence. */
  function AllSkillsLines(s: Skills): (r: seq<string>)
    ensures Leads(r)
    ensures s.technical != [] ==> "\U{1F4BB} Technical Skills: " + Join(s.technical, ", ") + "\n\n" in r
    ensures s.tools != [] ==> "\U{1F6E0}\U{FE0F} AI Tools & Platforms: " + Join(s.tools, ", ") + "\n\n" in r
    ensures s.soft != [] ==> "\U{1F3AF} Soft Skills: " + Join(s.soft, ", ") + "\n\n" in r
    ensures |r| == 2 + (if s.technical != [] then 1 else 0) + (if s.tools != [] then 1 else 0) + (if s.soft != [] then 1 else 0)
    ensures r[0] == SkillsHeader && r[|r| - 1] == SkillsClosing
    ensures var t := if s.technical != [] then 1 else 0;
      var o := if s.tools != [] then 1 else 0;
      && (s.technical != [] ==> r[1] == "\U{1F4BB} Technical Skills: " + Join(s.technical, ", ") + "\n\n")
      && (s.tools != [] ==> r[1 + t] == "\U{1F6E0}\U{FE0F} AI Tools & Platforms: " + Join(s.tools, ", ") + "\n\n")
      && (s.soft != [] ==> r[1 + t + o] == "\U{1F3AF} Soft Skills: " + Join(s.soft, ", ") + "\n\n")
  {
    var header := SkillsHeader;
    var technical := ListLine("\U{1F4BB} Technical Skills: ", s.technical, "\n\n");
    var tools := ListLine("\U{1F6E0}\U{FE0F} AI Tools & Platforms: ", s.tools, "\n\n");
    var soft := ListLine("\U{1F3AF} Soft Skills: ", s.soft, "\n\n");
    [header] + technical + tools + soft + [SkillsClosing]
  }

  /** Lines 280-287: the pieces for one experience entry, with "Experience"
      and "N/A" for a missing type and description. Only `highlights` are
      shown; an entry's `achievements` are not read. */
  function EntryLines(e: Experience): (r: seq<string>)
    ensures |r| >= 3
    ensures r[0] == "\U{1F4DD} " + (if e.kind.Some? then e.kind.value else "Experience") + "\n"
    ensures r[1] == "Description: " + (if e.description.Some? then e.description.value else "N/A") + "\n"
    ensures forall k :: 0 <= k < |e.highlights| ==> "  \U{2022} " + e.highlights[k] + "\n" in r
    ensures e.highlights == [] <==> |r| == 3
  {
    var highlights := if e.highlights != [] then ["Key Highlights:\n"] + Bullets("  \U{2022} ", e.highlights) else [];
    var r := ["\U{1F4DD} " + e.kind.GetOr("Experience") + "\n", "Description: " + e.description.GetOr("N/A") + "\n"] + highlights + ["\n"];
    assert forall k :: 0 <= k < |e.highlights| ==> "  \U{2022} " + e.highlights[k] + "\n" in r by {
      forall k | 0 <= k < |e.highlights|
        ensures "  \U{2022} " + e.highlights[k] + "\n" in r
      {
        assert r[3 + k] == highlights[1 + k];
      }
    }
    r
  }

  function EntriesLines(es: seq<Experience>): (r: seq<string>)
    decreases |es|
  {
    if es == [] then [] else EntryLines(es[0]) + EntriesLines(es[1..])
  }

  /** Every piece of every entry is part of the pieces of the entries. */
  lemma {:induction false} EntriesShow(es: seq<Experience>, i: nat, x: string)
    requires i < |es| && x in EntryLines(es[i])
    ensures x in EntriesLines(es)
    decreases i
  {
    if i > 0 {
      EntriesShow(es[1..], i - 1, x);
      assert es[1..][i - 1] == es[i];
    }
  }

  /** Lines 270-289. */
  function ExperienceLines(es: seq<Experience>): (r: seq<string>)
    ensures Leads(r)
    ensures r == [NoExperience] <==> es == []
  {
    if es == [] then [NoExperience]
    else
      ["\U{1F3C6} Professional Experience:\n\n"] + EntriesLines(es)
  }

  /** Every highlight of every entry is shown on its own bullet line. */
  lemma ExperienceShowsHighlights(es: seq<Experience>, i: nat, k: nat)
    requires i < |es| && k < |es[i].highlights|
    ensures "  \U{2022} " + es[i].highlights[k] + "\n" in ExperienceLines(es)
  {
    EntriesShow(es, i, "  \U{2022} " + es[i].highlights[k] + "\n");
  }

  /** The advanced analyzer stores its hackathon results under
      `achievements`, which the experience answer does not read: its entry
      is shown with the type and description lines and nothing else. */
  lemma AdvancedExperienceShowsNoAchievements(text: string)
    ensures forall e :: e in AdvancedAnalyzer.ExtractExperience(text) ==>
      EntryLines(e) == ["\U{1F4DD} " + e.kind.GetOr("Experience") + "\n", "Description: " + e.description.GetOr("N/A") + "\n", "\n"]
  {
  }

  /** Line 301: the numbered heading of the `i`-th project (counted from 1). */
  function ProjectHeading(i: nat, p: Project): string {
    NatToString(i) + ". **" + p.name.GetOr("Unnamed Project") + "**\n"
  }

  /** The number before the first `.` of a heading is the project's number. */
  lemma HeadingNumber(i: nat, p: Project)
    ensures var pieces := Split(ProjectHeading(i, p), ".");
      (forall c :: c in pieces[0] ==> IsDigit(c)) && ParseNat(pieces[0]) == i
  {
    var digits := NatToString(i);
    var rest := " **" + p.name.GetOr("Unnamed Project") + "**\n";
    assert ProjectHeading(i, p) == digits + ['.'] + rest;
    assert '.' !in digits;
    SplitAfterCharFree(digits, '.', rest);
    ParseNatToString(i);
  }

  /** Lines 301-313: the pieces for the `i`-th project. */
  function ProjectLines(i: nat, p: Project): (r: seq<string>)
    ensures |r| >= 3 && r[0] == ProjectHeading(i, p)
    ensures "   Description: " + p.description.GetOr("N/A") + "\n" in r
    ensures p.technologies != [] ==> "   Technologies: " + Join(p.technologies, ", ") + "\n" in r
    ensures Present(p.achievement) ==> "   \U{1F3C5} Achievement: " + p.achievement.value + "\n" in r
    ensures p.features != [] ==> "   Features: " + Join(p.features, ", ") + "\n" in r
  {
    var description := "   Description: " + p.description.GetOr("N/A") + "\n";
    var technologies := ListLine("   Technologies: ", p.technologies, "\n");
    var achievement := OptionalLine("   \U{1F3C5} Achievement: ", p.achievement);
    var features := ListLine("   Features: ", p.features, "\n");
    [ProjectHeading(i, p), description] + technologies + achievement + features + ["\n"]
  }

  /** The pieces of `ps`, numbered from `i`. */
  function ProjectsFrom(ps: seq<Project>, i: nat): seq<string>
    decreases |ps|
  {
    if ps == [] then [] else ProjectLines(i, ps[0]) + ProjectsFrom(ps[1..], i + 1)
  }

  /** The first project of a listing shows its heading. */
  lemma ProjectsFromHead(ps: seq<Project>, i: nat)
    requires ps != []
    ensures ProjectHeading(i, ps[0]) in ProjectsFrom(ps, i)
  {
    var head := ProjectLines(i, ps[0]);
    assert ProjectsFrom(ps, i) == head + ProjectsFrom(ps[1..], i + 1);
    assert head[0] == ProjectHeading(i, ps[0]);
  }

  /** A piece of the listing after the first project is a piece of the listing. */
  lemma ProjectsFromTail(ps: seq<Project>, i: nat, x: string)
    requires ps != [] && x in ProjectsFrom(ps[1..], i + 1)
    ensures x in ProjectsFrom(ps, i)
  {
    assert ProjectsFrom(ps, i) == ProjectLines(i, ps[0]) + ProjectsFrom(ps[1..], i + 1);
  }

  /** The `k`-th project (from 0) carries the number `i + k`. */
  lemma {:induction false} ProjectsFromShow(ps: seq<Project>, i: nat, k: nat)
    requires k < |ps|
    ensures ProjectHeading(i + k, ps[k]) in ProjectsFrom(ps, i)
    decreases k
  {
    if k == 0 {
      ProjectsFromHead(ps, i);
    } else {
      ProjectsFromShow(ps[1..], i + 1, k - 1);
      var x := ProjectHeading(i + k, ps[k]);
      assert x == ProjectHeading(i + 1 + (k - 1), ps[1..][k - 1]);
      ProjectsFromTail(ps, i, x);
    }
  }

  /** Lines 291-315. */
  function ProjectsLines(ps: seq<Project>): (r: seq<string>)
    ensures Leads(r)
    ensures r == [NoProjects] <==> ps == []
  {
    if ps == [] then [NoProjects]
    else ["\U{1F680} Featured Projects:\n\n"] + ProjectLines(1, ps[0]) + ProjectsFrom(ps[1..], 2)
  }

  /** Every project is listed under its number, counting from 1. */
  lemma ProjectsNumbered(ps: seq<Project>, k: nat)
    requires k < |ps|
    ensures ProjectHeading(k + 1, ps[k]) in ProjectsLines(ps)
  {
    ProjectsFromShow(ps, 1, k);
  }

  /** Line 329. */
  const CertificationsClosing: string :=
    "\nThese certifications demonstrate expertise in cloud technologies and professional project management."

  /** Lines 317-331. */
  function CertificationLines(certs: seq<string>): (r: seq<string>)
    ensures Leads(r)
    ensures r == [NoCertifications] <==> certs == []
    ensures forall k :: 0 <= k < |certs| ==> "\U{2705} " + certs[k] + "\n" in r
  {
    if certs == [] then [NoCertifications]
    else
      var bullets := Bullets("\U{2705} ", certs);
      var r := ["\U{1F3C5} Professional Certifications:\n\n"] + bullets + [CertificationsClosing];
      assert forall k :: 0 <= k < |certs| ==> "\U{2705} " + certs[k] + "\n" in r by {
        forall k | 0 <= k < |certs|
          ensures "\U{2705} " + certs[k] + "\n" in r
        {
          assert r[1 + k] == bullets[k];
        }
      }
      r
  }

  /** Line 345. */
  const AchievementsClosing: string :=
    "\nThese achievements showcase consistent performance in competitive environments and technical innovation."

  /** Lines 333-347. */
  function AchievementLines(achievements: seq<string>): (r: seq<string>)
    ensures Leads(r)
    ensures r == [NoAchievements] <==> achievements == []
    ensures forall k :: 0 <= k < |achievements| ==> "\U{1F3C6} " + achievements[k] + "\n" in r
  {
    if achievements == [] then [NoAchievements]
    else
      var bullets := Bullets("\U{1F3C6} ", achievements);
      var r := ["\U{1F3AF} Notable Achievements:\n\n"] + bullets + [AchievementsClosing];
      assert forall k :: 0 <= k < |achievements| ==> "\U{1F3C6} " + achievements[k] + "\n" in r by {
        forall k | 0 <= k < |achievements|
          ensures "\U{1F3C6} " + achievements[k] + "\n" in r
        {
          assert r[1 + k] == bullets[k];
        }
      }
      r
  }

  // ------------------------------------------------------------ technology questions

  /** Lines 356-360: the first technical skill named in the message. */
  function MentionedSkill(technical: seq<string>, msg: string): (r: Option<nat>)
    ensures r.Some? ==> r.value < |technical| && Contains(Lower(msg), Lower(technical[r.value]))
    ensures forall j :: 0 <= j < |technical| && (r.None? || j < r.value) ==> !Contains(Lower(msg), Lower(technical[j]))
  {
    FirstWhere(technical, t => Contains(Lower(msg), Lower(t)))
  }

  /** Lines 371-375: a project uses the technology when one of its
      technologies equals it or contains it, ignoring case. */
  predicate UsesTechnology(p: Project, tech: string) {
    exists i :: 0 <= i < |p.technologies| &&
      (Lower(p.technologies[i]) == Lower(tech) || Contains(Lower(p.technologies[i]), Lower(tech)))
  }

  /** The equality test of line 373 is subsumed by the containment test. */
  lemma UsesTechnologyByContainment(p: Project, tech: string)
    ensures UsesTechnology(p, tech) <==>
      exists i :: 0 <= i < |p.technologies| && Contains(Lower(p.technologies[i]), Lower(tech))
  {
    if UsesTechnology(p, tech) {
      var i :| 0 <= i < |p.technologies| &&
        (Lower(p.technologies[i]) == Lower(tech) || Contains(Lower(p.technologies[i]), Lower(tech)));
      if Lower(p.technologies[i]) == Lower(tech) {
        ContainsIff(Lower(p.technologies[i]), Lower(tech), 0);
      }
    }
  }

  function RelevantProjects(ps: seq<Project>, tech: string): (r: seq<Project>)
    ensures IsSubsequence(r, ps)
    ensures forall p :: p in r <==> p in ps && UsesTechnology(p, tech)
  {
    Filter(ps, p => UsesTechnology(p, tech))
  }

  /** Line 380: the line naming one relevant project. */
  function MentionLine(p: Project): string {
    "\U{1F680} " + p.name.GetOr("Project") + ": " + p.description.GetOr("N/A") + "\n"
  }

  /** Lines 365-382 for a named technology: every project that uses it is
      mentioned. */
  function TechnologyLines(tech: string, projects: seq<Project>): (r: seq<string>)
    ensures Leads(r) && r[0] == "\U{1F4BB} Regarding " + tech + ":\n\n"
    ensures forall p :: p in projects && UsesTechnology(p, tech) ==> MentionLine(p) in r
    ensures |r| == (if RelevantProjects(projects, tech) == [] then 2 else 3 + |RelevantProjects(projects, tech)|)
    ensures forall k :: 0 <= k < |RelevantProjects(projects, tech)| ==>
      r[3 + k] == MentionLine(RelevantProjects(projects, tech)[k])
  {
    var relevant := RelevantProjects(projects, tech);
    var mentions := seq(|relevant|, k requires 0 <= k < |relevant| => MentionLine(relevant[k]));
    var used := if relevant != [] then ["I've used " + tech + " in the following projects:\n\n"] + mentions else [];
    var r := ["\U{1F4BB} Regarding " + tech + ":\n\n", "Yes, I have experience with " + tech + ". "] + used;
    assert |r| == (if relevant == [] then 2 else 3 + |relevant|);
    assert forall k :: 0 <= k < |relevant| ==> r[3 + k] == mentions[k];
    assert forall p :: p in projects && UsesTechnology(p, tech) ==> MentionLine(p) in r by {
      forall p | p in projects && UsesTechnology(p, tech)
        ensures MentionLine(p) in r
      {
        MentionAtPosition(relevant, r, p);
      }
    }
    r
  }

  /** A project listed among `relevant` is mentioned on its line `3 + k`. */
  lemma MentionAtPosition(relevant: seq<Project>, r: seq<string>, p: Project)
    requires p in relevant && |r| >= 3 + |relevant|
    requires forall k :: 0 <= k < |relevant| ==> r[3 + k] == MentionLine(relevant[k])
    ensures MentionLine(p) in r
  {
    var k :| 0 <= k < |relevant| && relevant[k] == p;
    assert r[3 + k] == MentionLine(p);
  }

  /** Lines 349-382. `None` when no technical skill is named, and also when
      the first one named is the empty string, which is falsy. */
  function FormatTechnology(d: ResumeData, msg: string): (r: Option<seq<string>>)
    ensures r.None? <==> match MentionedSkill(d.skills.technical, msg)
                         case None => true
                         case Some(k) => d.skills.technical[k] == ""
    ensures r.Some? ==> exists k :: (0 <= k < |d.skills.technical| && d.skills.technical[k] != ""
                                  && Contains(Lower(msg), Lower(d.skills.technical[k]))
                                  && r.value == TechnologyLines(d.skills.technical[k], d.projects))
  {
    match MentionedSkill(d.skills.technical, msg)
    case None => None
    case Some(k) =>
      if d.skills.technical[k] == "" then None
      else Some(TechnologyLines(d.skills.technical[k], d.projects))
  }

  // ------------------------------------------------------------ structured answers

  /** The pieces of the formatted answer for a routed topic. */
  function Answer(d: ResumeData, reply: Reply, msg: string): (r: Option<seq<string>>)
    ensures r.Some? ==> Leads(r.value)
    ensures reply == Unrouted ==> r.None?
    ensures reply != Unrouted && reply != TechnologySpecific ==> r.Some?
  {
    match reply
    case PersonalInfo => Some(PersonalLines(d))
    case AllSkills => Some(AllSkillsLines(d.skills))
    case ProjectsInfo => Some(ProjectsLines(d.projects))
    case ContactInfo => Some(ContactLines(d))
    case EducationInfo => Some(EducationLines(d.education))
    case TechnicalSkills => Some(TechnicalLines(d.skills.technical))
    case ToolsSkills => Some(ToolLines(d.skills.tools))
    case ExperienceInfo => Some(ExperienceLines(d.experience))
    case CertificationsInfo => Some(CertificationLines(d.certifications))
    case AchievementsInfo => Some(AchievementLines(d.achievements))
    case TechnologySpecific => FormatTechnology(d, msg)
    case Unrouted => None
  }

  /** Lines 81-150. Every formatted answer is non-empty, so the truthiness
      test of line 70 passes whenever a formatter gives an answer. */
  function StructuredResponse(data: Option<ResumeData>, msg: string): (r: Option<string>)
    ensures data.None? ==> r.None?
    ensures Route(msg) == Unrouted ==> r.None?
    ensures r.Some? ==> r.value != ""
  {
    match data
    case None => None
    case Some(d) =>
      match Answer(d, Route(msg), msg)
      case None => None
      case Some(lines) => Some(Render(lines))
  }

  // ------------------------------------------------------------ document fallback

  /** Line 392: each chunk followed by a blank line. */
  function Blocks(docs: seq<Document>): string
    decreases |docs|
  {
    if docs == [] then "" else docs[0].content + "\n\n" + Blocks(docs[1..])
  }

  /** The blocks are the contents joined by blank lines, plus one more. */
  lemma {:induction false} BlocksJoin(docs: seq<Document>)
    requires docs != []
    ensures Blocks(docs) == Join(Contents(docs), "\n\n") + "\n\n"
    decreases |docs|
  {
    var cs := Contents(docs);
    assert cs == [cs[0]] + cs[1..];
    JoinCons(cs[0], cs[1..], "\n\n");
    if |docs| > 1 {
      BlocksJoin(docs[1..]);
      assert Contents(docs[1..]) == cs[1..];
    }
  }

  /** Lines 384-397 with `max_chunks = 3`. `hits` stands for the row of
      document ids the similarity index returns for the query. */
  function RelevantContext(p: Processor, hits: seq<int>): (r: string)
    requires |hits| == 3
    ensures p.index.None? ==> r == ""
    ensures p.index.Some? ==> r == Strip(Join(Contents(SearchSimilarDocuments(p, 3, hits).value), "\n\n"))
  {
    match SearchSimilarDocuments(p, 3, hits)
    case Failure(_) => ""
    case Success(docs) =>
      if docs == [] then
        assert Strip("") == "";
        ""
      else
        BlocksJoin(docs);
        assert AllSpace("\n\n");
        StripDropsSpaceSuffix(Join(Contents(docs), "\n\n"), "\n\n");
        Strip(Blocks(docs))
  }

  const NoInformation: string :=
    "I don't have specific information about that. Could you please ask about Aditya's education, skills, projects, experience, or contact information?"

  const FoundPrefix: string := "Here's what I found: "

  /** Lines 404-405: at most 400 characters, marked with "..." when cut. */
  function Truncate(s: string, n: nat): (r: string)
    ensures |s| <= n ==> r == s
    ensures |s| > n ==> r == s[..n] + "..."
  {
    if |s| > n then s[..n] + "..." else s
  }

  /** Line 403: the context on one line. */
  function OneLine(context: string): (r: string)
    ensures '\n' !in r && IsStripped(r)
  {
    ReplaceCharRemoves(context, '\n', " ");
    Strip(Replace(context, "\n", " "))
  }

  /** The one-line context is the context with each newline turned into a
      space and nothing else changed, then stripped. */
  lemma OneLineSwapsNewlines(context: string)
    ensures OneLine(context) == Strip(SwapChar(context, '\n', ' '))
  {
    ReplaceCharSwaps(context, '\n', ' ');
  }

  /** Lines 399-409. */
  function Fallback(context: string): (r: string)
    ensures AllSpace(context) ==> r == NoInformation
    ensures !AllSpace(context) ==> StartsWith(r, FoundPrefix) && '\n' !in r && |r| <= |FoundPrefix| + 403
    ensures !AllSpace(context) && |OneLine(context)| <= 400 ==> r == FoundPrefix + OneLine(context)
    ensures !AllSpace(context) && |OneLine(context)| > 400 ==> r == FoundPrefix + OneLine(context)[..400] + "..."
  {
    if Strip(context) != "" then
      var shown := Truncate(OneLine(context), 400);
      assert '\n' !in shown;
      var r := FoundPrefix + shown;
      assert r[..|FoundPrefix|] == FoundPrefix;
      r
    else NoInformation
  }

  /** Lines 65-79: the structured answer when there is one, otherwise the
      answer from the retrieved chunks. */
  function GenerateResponse(e: Engine, msg: string, hits: seq<int>): (r: string)
    requires |hits| == 3
    ensures e.data.None? ==> r == Fallback(RelevantContext(e.processor, hits))
    ensures Route(msg) == Unrouted ==> r == Fallback(RelevantContext(e.processor, hits))
    ensures e.data.Some? && Route(msg) != Unrouted && Route(msg) != TechnologySpecific ==>
      r == Render(Answer(e.data.value, Route(msg), msg).value)
    ensures StructuredResponse(e.data, msg).None? && e.processor.index.None? ==> r == NoInformation
  {
    match StructuredResponse(e.data, msg)
    case Some(s) => s
    case None => Fallback(RelevantContext(e.processor, hits))
  }
}
