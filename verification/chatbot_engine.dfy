/** `ChatbotEngine` (app/utils/chatbot_engine.py): the keyword-driven
    answerer that works on the text of the chunks a similarity search
    retrieves, used when no OpenAI key is configured. */
module ChatbotEngine {
  import opened Wrappers
  import opened Text
  import opened Seqs
  import opened Cues
  import opened Retrieval

  // ------------------------------------------------------------ context

  /** `doc.metadata.get('source', 'Unknown')`. */
  function SourceName(d: Document): string {
    match d.meta
    case Some(m) => m.source
    case None => "Unknown"
  }

  const SourceTag: string := "Source: "

  /** The marker line 121 looks for and removes. */
  const ContentMarker: string := "Content:"

  function SourceLine(d: Document): string {
    SourceTag + SourceName(d)
  }

  function ContentLine(d: Document): string {
    ContentMarker + " " + d.content
  }

  /** Lines 50-51: what one document adds to the context. */
  function Block(d: Document): string {
    SourceLine(d) + "\n" + ContentLine(d) + "\n" + "\n"
  }

  /** Lines 47-53: the documents' blocks, one after the other. */
  function Serialize(docs: seq<Document>): (r: string)
    ensures r == "" <==> docs == []
    ensures docs != [] ==> r[0] == 'S'
    decreases |docs|
  {
    if docs == [] then ""
    else
      var b := Block(docs[0]);
      assert b[0] == SourceTag[0];
      b + Serialize(docs[1..])
  }

  /** Lines 43-56 with `max_chunks = 3`: a search that fails (no index) is
      caught and gives the empty context. `hits` stands for the row of
      document ids the similarity index returns for the query. */
  function RelevantContext(p: Processor, hits: seq<int>): (r: string)
    requires |hits| == 3
    ensures r == "" <==> p.index.None? || Lookup(p.documents, hits) == []
    ensures p.index.Some? ==> r == Serialize(SearchSimilarDocuments(p, 3, hits).value)
  {
    match SearchSimilarDocuments(p, 3, hits)
    case Failure(_) => ""
    case Success(docs) => Serialize(docs)
  }

  // ------------------------------------------------------------ reading the context back

  /** Line 121: the lines starting with `Content:`, marker removed, stripped. */
  function ContentLines(lines: seq<string>): (r: seq<string>)
    ensures |r| <= |lines|
    ensures r == [] <==> forall i :: 0 <= i < |lines| ==> !StartsWith(lines[i], ContentMarker)
    decreases |lines|
  {
    if lines == [] then []
    else
      var rest := ContentLines(lines[1..]);
      assert forall i :: 1 <= i < |lines| ==> lines[i] == lines[1..][i - 1];
      (if StartsWith(lines[0], ContentMarker) then [Strip(Replace(lines[0], ContentMarker, ""))] else []) + rest
  }

  lemma ContentLinesCons(x: string, rest: seq<string>)
    ensures ContentLines([x] + rest) ==
      (if StartsWith(x, ContentMarker) then [Strip(Replace(x, ContentMarker, ""))] else []) + ContentLines(rest)
  {
    assert ([x] + rest)[1..] == rest;
  }

  /** A document whose block reads back unambiguously: no line break in its
      source or content, and no `Content:` inside the content. */
  predicate Plain(d: Document) {
    '\n' !in SourceName(d) && '\n' !in d.content && !Contains(d.content, ContentMarker)
  }

  /** The lines `context.split('\n')` yields for serialised documents. */
  function ContextLines(docs: seq<Document>): seq<string>
    decreases |docs|
  {
    if docs == [] then [""] else [SourceLine(docs[0]), ContentLine(docs[0]), ""] + ContextLines(docs[1..])
  }

  /** `[Strip(x) for x in xs]`. */
  function StripAll(xs: seq<string>): (r: seq<string>)
    ensures |r| == |xs|
    decreases |xs|
  {
    if xs == [] then [] else [Strip(xs[0])] + StripAll(xs[1..])
  }

  /** Splitting three newline-terminated lines off the front. */
  lemma SplitBlock(a: string, b: string, rest: string)
    requires '\n' !in a && '\n' !in b
    ensures Split(a + "\n" + b + "\n" + "\n" + rest, "\n") == [a, b, ""] + Split(rest, "\n")
  {
    assert a + "\n" + b + "\n" + "\n" + rest == a + ['\n'] + (b + ['\n'] + ("" + ['\n'] + rest));
    SplitAfterCharFree(a, '\n', b + ['\n'] + ("" + ['\n'] + rest));
    SplitAfterCharFree(b, '\n', "" + ['\n'] + rest);
    SplitAfterCharFree("", '\n', rest);
  }

  /** Splitting the context at line breaks gives each document's two lines
      and a blank one, then a final empty piece. */
  lemma {:induction false} SplitSerialized(docs: seq<Document>)
    requires forall i :: 0 <= i < |docs| ==> Plain(docs[i])
    ensures Split(Serialize(docs), "\n") == ContextLines(docs)
    decreases |docs|
  {
    if docs != [] {
      var d := docs[0];
      assert Plain(d);
      assert '\n' !in SourceTag && '\n' !in ContentMarker + " ";
      assert '\n' !in SourceLine(d) && '\n' !in ContentLine(d);
      SplitBlock(SourceLine(d), ContentLine(d), Serialize(docs[1..]));
      assert forall i :: 0 <= i < |docs[1..]| ==> docs[1..][i] == docs[i + 1];
      SplitSerialized(docs[1..]);
    }
  }

  /** A `Source:` line never passes the `Content:` test. */
  lemma SourceLineSkipped(d: Document)
    ensures !StartsWith(SourceLine(d), ContentMarker)
  {
    assert SourceLine(d)[0] == 'S';
    assert ContentMarker[0] == 'C';
  }

  /** Strings that differ in their first character do not match at offset 0. */
  lemma HeadMismatch(s: string, pat: string)
    requires 0 < |pat| && 0 < |s| && s[0] != pat[0]
    ensures !OccursAt(s, pat, 0)
  {
    if |pat| <= |s| {
      assert s[0..|pat|][0] == s[0];
    }
  }

  /** A content line passes the test and reads back as its stripped content. */
  lemma ContentLineRecovered(c: string)
    requires !Contains(c, ContentMarker)
    ensures StartsWith(ContentMarker + " " + c, ContentMarker)
    ensures Strip(Replace(ContentMarker + " " + c, ContentMarker, "")) == Strip(c)
  {
    var t := " " + c;
    AppendRegroup(ContentMarker, " ", c);
    assert (ContentMarker + t)[..|ContentMarker|] == ContentMarker;
    ReplaceLeading(ContentMarker, t, "");
    assert t[0] == ' ' && ContentMarker[0] == 'C';
    HeadMismatch(t, ContentMarker);
    if Contains(t, ContentMarker) {
      var j := Find(t, ContentMarker);
      if j > 0 {
        OccursUnshift(" ", c, ContentMarker, j);
        ContainsIff(c, ContentMarker, j - 1);
      }
    }
    ReplaceAbsent(t, ContentMarker, "");
    assert "" + t == t;
    assert AllSpace(" ");
    StripDropsSpacePrefix(" ", c);
  }

  /** One document's three lines contribute exactly its stripped content. */
  lemma ContentLinesOfBlock(d: Document, tail: seq<string>)
    requires Plain(d)
    ensures ContentLines([SourceLine(d), ContentLine(d), ""] + tail) == [Strip(d.content)] + ContentLines(tail)
  {
    var cl := ContentLines(tail);
    SourceLineSkipped(d);
    ContentLineRecovered(d.content);
    assert !StartsWith("", ContentMarker);
    ContentLinesCons("", tail);
    assert ContentLines([""] + tail) == cl;
    ContentLinesCons(ContentLine(d), [""] + tail);
    assert ContentLines([ContentLine(d)] + ([""] + tail)) == [Strip(d.content)] + cl;
    ContentLinesCons(SourceLine(d), [ContentLine(d)] + ([""] + tail));
    assert [SourceLine(d), ContentLine(d), ""] + tail == [SourceLine(d)] + ([ContentLine(d)] + ([""] + tail));
  }

  /** The `Content:` extraction recovers each plain document's stripped
      content, in retrieval order. */
  lemma {:induction false} ContentLinesOfContext(docs: seq<Document>)
    requires forall i :: 0 <= i < |docs| ==> Plain(docs[i])
    ensures ContentLines(ContextLines(docs)) == StripAll(Contents(docs))
    decreases |docs|
  {
    if docs == [] {
      assert !StartsWith("", ContentMarker);
    } else {
      var d := docs[0];
      assert Plain(d);
      ContentLinesOfBlock(d, ContextLines(docs[1..]));
      assert forall i :: 0 <= i < |docs[1..]| ==> docs[1..][i] == docs[i + 1];
      ContentLinesOfContext(docs[1..]);
      assert Contents(docs)[1..] == Contents(docs[1..]);
    }
  }

  /** Lines 49-51 and 120-121 together: the fallback answerer reads back,
      from the context the search produced, exactly the stripped contents
      of the plain documents it was built from. */
  lemma ContextRoundTrip(docs: seq<Document>)
    requires forall i :: 0 <= i < |docs| ==> Plain(docs[i])
    ensures ContentLines(Split(Serialize(docs), "\n")) == StripAll(Contents(docs))
  {
    SplitSerialized(docs);
    ContentLinesOfContext(docs);
  }

  // ------------------------------------------------------------ choosing the topic

  /** The branches of lines 131-147. */
  datatype Topic =
    | AboutExperience | AboutSkills | AboutEducation | AboutProjects
    | AboutContact | AboutProfile | AboutCertifications | General

  /** Lines 131-143, in order: the words each branch looks for. */
  const TopicWords: seq<seq<string>> := [
    ["experience", "work", "job", "career", "employment", "position"],
    ["skill", "technology", "programming", "language", "tool"],
    ["education", "degree", "university", "college", "study", "academic"],
    ["project", "portfolio", "built", "developed", "created"],
    ["contact", "email", "phone", "address", "linkedin"],
    ["about", "who", "summary", "overview", "profile"],
    ["certification", "certified", "certificate"]
  ]

  const TopicOrder: seq<Topic> := [
    AboutExperience, AboutSkills, AboutEducation, AboutProjects,
    AboutContact, AboutProfile, AboutCertifications
  ]

  /** Lines 128-147: the first branch any of whose words occurs in the
      lower-cased message, `General` when none does. */
  function FallbackTopic(msg: string): (r: Topic)
    ensures r == General <==> forall k :: 0 <= k < |TopicWords| ==> !AnyIn(Lower(msg), TopicWords[k])
    ensures r != General ==>
      exists k :: 0 <= k < |TopicWords| && r == TopicOrder[k] && AnyIn(Lower(msg), TopicWords[k])
        && (forall j :: 0 <= j < k ==> !AnyIn(Lower(msg), TopicWords[j]))
  {
    var l := Lower(msg);
    match FirstWhere(TopicWords, words => AnyIn(l, words))
    case None => General
    case Some(k) => TopicOrder[k]
  }

  /** A message holding one of a branch's words never reaches a later branch. */
  lemma TopicPriority(msg: string, k: nat, w: string)
    requires k < |TopicWords| && w in TopicWords[k] && Contains(Lower(msg), w)
    ensures exists j :: 0 <= j <= k && FallbackTopic(msg) == TopicOrder[j]
  {
    var i :| 0 <= i < |TopicWords[k]| && TopicWords[k][i] == w;
    assert AnyIn(Lower(msg), TopicWords[k]);
    var t := FallbackTopic(msg);
    var j :| 0 <= j < |TopicWords| && t == TopicOrder[j] && AnyIn(Lower(msg), TopicWords[j])
      && forall m :: 0 <= m < j ==> !AnyIn(Lower(msg), TopicWords[m]);
    assert j <= k;
  }

  /** The words are matched as substrings: "work" inside "network", say,
      sends the question to the experience branch. */
  lemma WorkAnywhereIsExperience(msg: string)
    requires Contains(Lower(msg), "work")
    ensures FallbackTopic(msg) == AboutExperience
  {
    TopicPriority(msg, 0, "work");
  }

  // ------------------------------------------------------------ reports

  /** `f"{prefix}{sep.join(items)}{suffix}"` when `items` is non-empty,
      otherwise the `otherwise` message. */
  function Report(prefix: string, items: seq<string>, sep: string, suffix: string, otherwise: string): (r: string)
    ensures items == [] ==> r == otherwise
    ensures items != [] ==> StartsWith(r, prefix) && EndsWith(r, suffix)
    ensures forall x :: x in items ==> Contains(r, x)
  {
    if items == [] then otherwise
    else
      var body := Join(items, sep);
      var r := prefix + body + suffix;
      assert forall x :: x in items ==> Contains(r, x) by {
        forall x | x in items ensures Contains(r, x) {
          var k :| 0 <= k < |items| && items[k] == x;
          JoinContains(items, sep, k);
          ContainsInSuffix(prefix, body, x);
          ContainsInPrefix(prefix + body, suffix, x);
        }
      }
      assert r[..|prefix|] == prefix;
      assert r[|r| - |suffix|..] == suffix;
      r
  }

  /** The items a run of `if c: items.append(x)` statements collects. */
  function Picked(c1: bool, x1: string, c2: bool, x2: string, c3: bool, x3: string): (r: seq<string>)
    ensures r == [] <==> !c1 && !c2 && !c3
    ensures (c1 ==> x1 in r) && (c2 ==> x2 in r) && (c3 ==> x3 in r)
  {
    (if c1 then [x1] else []) + (if c2 then [x2] else []) + (if c3 then [x3] else [])
  }

  function Picked2(c1: bool, x1: string, c2: bool, x2: string): (r: seq<string>)
    ensures r == [] <==> !c1 && !c2
    ensures (c1 ==> x1 in r) && (c2 ==> x2 in r)
  {
    Picked(c1, x1, c2, x2, false, "")
  }

  /** Lines 177, 210, 230, 246, 267, 282 and 301: the answer when a topic's
      extractor finds nothing it knows. */
  function NeedMoreContext(topic: string): (r: string)
    ensures StartsWith(r, "I found some ")
  {
    var r := "I found some " + topic + " information but need more context to provide specific details.";
    assert r[..13] == "I found some ";
    r
  }

  // ------------------------------------------------------------ experience

  /** Line 158, every indicator written in lower case. */
  const ExperienceIndicators: seq<string> := ["hackathon", "achieved", "position", "building", "website", "volunteer"]

  const ExperiencePrefix: string := "Based on the resume, here's Aditya's experience: "
  const HackathonSummary: string :=
    "Aditya has participated in hackathons and achieved notable positions, including building responsive websites."

  /** Lines 164-166: up to 50 characters before and 100 after offset `p`,
      stripped. The window is a slice of the text between `max(0, p - 50)`
      and `min(len, p + 100)` with only whitespace cut from either side. */
  function Window(content: string, p: nat): (r: string)
    requires p <= |content|
    ensures p < |content| && !IsSpace(content[p]) ==> r != ""
    ensures IsStripped(r)
    ensures var lo := if p >= 50 then p - 50 else 0;
      var hi := if p + 100 <= |content| then p + 100 else |content|;
      exists a, b :: lo <= a <= b <= hi && r == content[a..b]
        && AllSpace(content[lo..a]) && AllSpace(content[b..hi])
  {
    var start := if p >= 50 then p - 50 else 0;
    var end := if p + 100 <= |content| then p + 100 else |content|;
    var s := content[start..end];
    assert p < |content| ==> s[p - start] == content[p];
    StripSliceBounds(content, start, end);
    Strip(s)
  }

  /** The window around the first occurrence of `ind` in the lower-cased text. */
  function WindowAt(content: string, ind: string): (r: string)
    requires Contains(Lower(content), ind)
  {
    Window(content, Find(Lower(content), ind))
  }

  predicate Distinct(xs: seq<string>) {
    forall i, j :: 0 <= i < j < |xs| ==> xs[i] != xs[j]
  }

  /** Lines 162-166 for one indicator: its window, when it occurs. */
  function CandidateOf(content: string, ind: string): (r: Option<string>)
    ensures r.Some? <==> Contains(Lower(content), ind)
  {
    if Contains(Lower(content), ind) then Some(WindowAt(content, ind)) else None
  }

  /** The window of every indicator that occurs, in indicator order. */
  function Candidates(content: string): (r: seq<string>)
    ensures r == [] <==> forall k :: 0 <= k < |ExperienceIndicators| ==> !Contains(Lower(content), ExperienceIndicators[k])
  {
    FilterMap(ExperienceIndicators, ind => CandidateOf(content, ind))
  }

  /** `if context and context not in found: found.append(context)` for each
      candidate in turn. */
  function AddNew(found: seq<string>, xs: seq<string>): (r: seq<string>)
    ensures found <= r
    ensures Distinct(found) ==> Distinct(r)
    ensures forall x :: x in r <==> x in found || (x in xs && x != "")
    decreases |xs|
  {
    if xs == [] then found
    else
      var next := if xs[0] != "" && xs[0] !in found then found + [xs[0]] else found;
      assert forall x :: x in xs <==> x == xs[0] || x in xs[1..];
      AddNew(next, xs[1..])
  }

  /** Lines 159-168: the distinct non-empty windows, in indicator order. */
  function Windows(content: string): (r: seq<string>)
    ensures Distinct(r)
    ensures forall x :: x in r <==> x in Candidates(content) && x != ""
  {
    AddNew([], Candidates(content))
  }

  /** The window around an occurrence of a pattern that starts with a letter
      is never empty. */
  lemma WindowAtNonEmpty(content: string, ind: string)
    requires Contains(Lower(content), ind) && |ind| > 0 && IsAsciiLower(ind[0])
    ensures WindowAt(content, ind) != ""
  {
    var p := Find(Lower(content), ind);
    assert Lower(content)[p..p + |ind|][0] == ind[0];
    assert LowerChar(content[p]) == ind[0];
  }

  /** A non-empty first candidate is always kept, in first place. */
  lemma AddNewHead(xs: seq<string>)
    requires xs != [] && xs[0] != ""
    ensures AddNew([], xs) != [] && AddNew([], xs)[0] == xs[0]
  {
    assert [] + [xs[0]] == [xs[0]];
    assert AddNew([], xs) == AddNew([xs[0]], xs[1..]);
  }

  /** Whenever the text mentions a hackathon its window comes first, so the
      window list is not empty and the hackathon summary of lines 174-175
      is never returned. */
  lemma HackathonFallbackUnreachable(content: string)
    requires Contains(Lower(content), "hackathon")
    ensures Windows(content) != [] && Windows(content)[0] == WindowAt(content, "hackathon")
  {
    assert ExperienceIndicators[0] == "hackathon";
    WindowAtNonEmpty(content, "hackathon");
    var f := ind => CandidateOf(content, ind);
    assert f(ExperienceIndicators[0]) == Some(WindowAt(content, "hackathon"));
    AddNewHead(Candidates(content));
  }

  /** Lines 155-177: at most the first two windows, after the prefix; the
      window around the first "hackathon" always comes first. */
  function ExperienceInfo(content: string): (r: string)
    ensures r != ""
    ensures Contains(Lower(content), "hackathon") ==>
      StartsWith(r, ExperiencePrefix) && Contains(r, WindowAt(content, "hackathon"))
    ensures (forall k :: 0 <= k < |ExperienceIndicators| ==> !Contains(Lower(content), ExperienceIndicators[k])) ==>
      r == NeedMoreContext("experience")
    ensures Windows(content) != [] ==> StartsWith(r, ExperiencePrefix) && Contains(r, Windows(content)[0])
    ensures |Windows(content)| >= 2 ==> Contains(r, Windows(content)[1])
    ensures var w := Windows(content);
      w != [] ==> r == ExperiencePrefix + Join(w[..if |w| < 2 then |w| else 2], " ")
    ensures Windows(content) == [] ==> r == NeedMoreContext("experience")
  {
    var found := Windows(content);
    assert Contains(Lower(content), "hackathon") ==> found != [] && found[0] == WindowAt(content, "hackathon") by {
      if Contains(Lower(content), "hackathon") {
        HackathonFallbackUnreachable(content);
      }
    }
    assert ExperienceIndicators[0] == "hackathon";
    assert |HackathonSummary| > 0;
    if found != [] then
      var shown := found[..if |found| < 2 then |found| else 2];
      assert shown[0] == found[0] && shown[0] in shown;
      assert |found| >= 2 ==> shown[1] == found[1] && shown[1] in shown;
      Report(ExperiencePrefix, shown, " ", "", "")
    else if Contains(Lower(content), "hackathon") then HackathonSummary
    else NeedMoreContext("experience")
  }

  // ------------------------------------------------------------ skills

  const SkillsHeading: string := "technical skills"

  /** Lines 183-186: 200 characters from the first "technical skills",
      cut short at the end of the text. */
  function SkillsSection(content: string): (r: string)
    ensures r != "" <==> Contains(Lower(content), SkillsHeading)
    ensures |r| <= 200
    ensures r != "" ==> StartsWith(Lower(r), SkillsHeading)
  {
    if Contains(Lower(content), SkillsHeading) then
      var start := Find(Lower(content), SkillsHeading);
      var end := if start + 200 <= |content| then start + 200 else |content|;
      var r := content[start..end];
      assert Lower(r)[..|SkillsHeading|] == Lower(content)[start..start + |SkillsHeading|];
      r
    else ""
  }

  /** Lines 190-197. */
  const AiToolRules: Rules<string> := [
    (Mentions("aws"), "AWS"),
    (Mentions("canva ai"), "Canva AI"),
    (Mentions("cursor ai"), "Cursor AI"),
    (Mentions("chatgpt"), "ChatGPT"),
    (Mentions("claude"), "Claude"),
    (Mentions("gemini"), "Gemini"),
    (Mentions("automl"), "AutoML"),
    (Mentions("openai"), "OpenAI API")
  ]

  /** Lines 189-197: a tool is listed exactly when its keyword occurs. */
  function AiTools(content: string): (r: seq<string>)
    ensures IsSubsequence(r, Payloads(AiToolRules))
    ensures forall k :: 0 <= k < |AiToolRules| ==> (AiToolRules[k].1 in r <==> Passes(AiToolRules[k].0, content))
  {
    assert forall i, j :: 0 <= i < j < |AiToolRules| ==> AiToolRules[i].1 != AiToolRules[j].1 by {
      assert AiToolRules[4].1[1] != AiToolRules[5].1[1] && AiToolRules[4].1[1] != AiToolRules[6].1[1];
      assert AiToolRules[5].1[0] != AiToolRules[6].1[0];
    }
    assert forall k :: 0 <= k < |AiToolRules| ==>
      (AiToolRules[k].1 in Select(AiToolRules, content) <==> Passes(AiToolRules[k].0, content)) by {
      forall k | 0 <= k < |AiToolRules|
        ensures AiToolRules[k].1 in Select(AiToolRules, content) <==> Passes(AiToolRules[k].0, content)
      {
        SelectExactly(AiToolRules, content, k);
      }
    }
    Select(AiToolRules, content)
  }

  const SkillsPrefix: string := "Aditya's skills include: "

  /** Lines 199-205. */
  function SkillsParts(content: string): (r: seq<string>)
    ensures r == [] <==> SkillsSection(content) == "" && AiTools(content) == []
    ensures SkillsSection(content) != "" ==> r[0] == "Technical Skills: " + SkillsSection(content)
    ensures AiTools(content) != [] ==> r[|r| - 1] == "AI Tools & Platforms: " + Join(AiTools(content), ", ")
  {
    var section := SkillsSection(content);
    var tools := AiTools(content);
    (if section != "" then ["Technical Skills: " + section] else [])
      + (if tools != [] then ["AI Tools & Platforms: " + Join(tools, ", ")] else [])
  }

  /** Lines 179-210: the section and every detected tool appear in the answer. */
  function SkillsInfo(content: string): (r: string)
    ensures r != ""
    ensures SkillsSection(content) == "" && AiTools(content) == [] ==> r == NeedMoreContext("skills")
    ensures Contains(r, SkillsSection(content))
    ensures forall t :: t in AiTools(content) ==> Contains(r, t)
  {
    var section := SkillsSection(content);
    var tools := AiTools(content);
    var parts := SkillsParts(content);
    var r := Report(SkillsPrefix, parts, " | ", "", NeedMoreContext("skills"));
    assert Contains(r, section) by {
      if section != "" {
        assert parts[0] in parts;
        ContainsIff(section, section, 0);
        ContainsInSuffix("Technical Skills: ", section, section);
        ContainsTrans(r, parts[0], section);
      } else {
        ContainsIff(r, "", 0);
      }
    }
    assert forall t :: t in tools ==> Contains(r, t) by {
      forall t | t in tools ensures Contains(r, t) {
        var i :| 0 <= i < |tools| && tools[i] == t;
        var line := parts[|parts| - 1];
        assert line in parts;
        JoinContains(tools, ", ", i);
        ContainsInSuffix("AI Tools & Platforms: ", Join(tools, ", "), t);
        ContainsTrans(r, line, t);
      }
    }
    r
  }

  // ------------------------------------------------------------ the other topics

  const BTechLine: string := "Bachelor of Technology in Computer Science and Engineering"

  /** Lines 212-230; the years are matched case-sensitively. */
  function EducationInfo(content: string): (r: string)
    ensures r != ""
    ensures Contains(Lower(content), "bachelor of technology") ==> Contains(r, BTechLine)
    ensures Contains(Lower(content), "lovely professional") ==> Contains(r, "Lovely Professional University")
    ensures Contains(content, "2023 - 2027") ==> Contains(r, "(2023 - 2027)")
    ensures (!Contains(Lower(content), "bachelor of technology") && !Contains(Lower(content), "lovely professional")
      && !Contains(content, "2023 - 2027")) ==> r == NeedMoreContext("education")
  {
    var items := Picked(
      Contains(Lower(content), "bachelor of technology"), BTechLine,
      Contains(Lower(content), "lovely professional"), "Lovely Professional University",
      Contains(content, "2023 - 2027"), "(2023 - 2027)");
    Report("Education: ", items, " ", "", NeedMoreContext("education"))
  }

  const FitnessLine: string :=
    "Responsive Fitness-and-Sports website (Top 10 position in CodeBlocks Hackathon 2024)"
  const StressLine: string :=
    "Stress reduction application using OpenAI API with guided exercises and meditation"

  /** Lines 232-246. */
  function ProjectsInfo(content: string): (r: string)
    ensures r != ""
    ensures Contains(Lower(content), "fitness-and-sports website") ==> Contains(r, FitnessLine)
    ensures Contains(Lower(content), "stress") && Contains(Lower(content), "meditation") ==> Contains(r, StressLine)
    ensures (!Contains(Lower(content), "fitness-and-sports website")
      && !(Contains(Lower(content), "stress") && Contains(Lower(content), "meditation"))) ==> r == NeedMoreContext("project")
  {
    var items := Picked2(
      Contains(Lower(content), "fitness-and-sports website"), FitnessLine,
      Contains(Lower(content), "stress") && Contains(Lower(content), "meditation"), StressLine);
    Report("Aditya's projects include: ", items, "; ", "", NeedMoreContext("project"))
  }

  /** Lines 248-267; phone and e-mail are matched case-sensitively. */
  function ContactInfo(content: string): (r: string)
    ensures r != ""
    ensures Contains(content, "+91 6306580926") ==> Contains(r, "Phone: +91 6306580926")
    ensures Contains(content, "dhimanaditya56@gmail.com") ==> Contains(r, "Email: dhimanaditya56@gmail.com")
    ensures Contains(Lower(content), "lucknow") ==> Contains(r, "Location: Lucknow, Uttar Pradesh")
    ensures (!Contains(content, "+91 6306580926") && !Contains(content, "dhimanaditya56@gmail.com")
      && !Contains(Lower(content), "lucknow")) ==> r == NeedMoreContext("contact")
  {
    var items := Picked(
      Contains(content, "+91 6306580926"), "Phone: +91 6306580926",
      Contains(content, "dhimanaditya56@gmail.com"), "Email: dhimanaditya56@gmail.com",
      Contains(Lower(content), "lucknow"), "Location: Lucknow, Uttar Pradesh");
    Report("Contact Information: ", items, " | ", "", NeedMoreContext("contact"))
  }

  /** Lines 269-282. */
  function CertificationsInfo(content: string): (r: string)
    ensures r != ""
    ensures Contains(Lower(content), "oracle cloud infrastructure") ==> Contains(r, "Oracle Cloud Infrastructure 2025 Certified")
    ensures Contains(Lower(content), "project management") ==> Contains(r, "Project Management Professionalism")
    ensures (!Contains(Lower(content), "oracle cloud infrastructure") && !Contains(Lower(content), "project management")) ==>
      r == NeedMoreContext("certification")
  {
    var items := Picked2(
      Contains(Lower(content), "oracle cloud infrastructure"), "Oracle Cloud Infrastructure 2025 Certified",
      Contains(Lower(content), "project management"), "Project Management Professionalism");
    Report("Certifications: ", items, ", ", "", NeedMoreContext("certification"))
  }

  const ProfileClosing: string :=
    ". He has experience with AI tools, web development, and has achieved notable positions in hackathons."

  /** Lines 284-301. */
  function ProfileInfo(content: string): (r: string)
    ensures r != ""
    ensures Contains(Lower(content), "computer science") ==> Contains(r, "Computer Science and Engineering student")
    ensures Contains(Lower(content), "hackathon") ==> Contains(r, "Hackathon participant with top achievements")
    ensures Contains(Lower(content), "oracle cloud") ==> Contains(r, "Oracle Cloud certified professional")
    ensures (!Contains(Lower(content), "computer science") && !Contains(Lower(content), "hackathon")
      && !Contains(Lower(content), "oracle cloud")) ==> r == NeedMoreContext("profile")
  {
    var items := Picked(
      Contains(Lower(content), "computer science"), "Computer Science and Engineering student",
      Contains(Lower(content), "hackathon"), "Hackathon participant with top achievements",
      Contains(Lower(content), "oracle cloud"), "Oracle Cloud certified professional");
    Report("Aditya Kumar is a ", items, ", ", ProfileClosing, NeedMoreContext("profile"))
  }

  const GeneralPrefix: string := "Based on the available information: "

  /** Lines 303-309: the content after the prefix, cut to 300 characters
      and marked with "..." when longer. */
  function GeneralInfo(content: string): (r: string)
    ensures StartsWith(r, GeneralPrefix)
    ensures |r| <= |GeneralPrefix| + 303
    ensures |content| <= 300 ==> r[|GeneralPrefix|..] == content
    ensures |content| > 300 ==> r[|GeneralPrefix|..] == content[..300] + "..."
  {
    var shown := if |content| > 300 then content[..300] + "..." else content;
    var r := GeneralPrefix + shown;
    assert r[..|GeneralPrefix|] == GeneralPrefix && r[|GeneralPrefix|..] == shown;
    r
  }

  // ------------------------------------------------------------ the fallback answer

  /** Lines 131-147: the extractor the topic selects. */
  function TopicAnswer(t: Topic, content: string): (r: string)
    ensures r != ""
  {
    match t
    case AboutExperience => ExperienceInfo(content)
    case AboutSkills => SkillsInfo(content)
    case AboutEducation => EducationInfo(content)
    case AboutProjects => ProjectsInfo(content)
    case AboutContact => ContactInfo(content)
    case AboutProfile => ProfileInfo(content)
    case AboutCertifications => CertificationsInfo(content)
    case General => GeneralInfo(content)
  }

  const NoKnowledge: string :=
    "I don't have specific information about that in my knowledge base. Could you please provide more details or try asking about: experience, skills, education, projects, contact information, or certifications?"
  const TroubleProcessing: string :=
    "I found some relevant information but had trouble processing it. Could you please rephrase your question?"
  const CouldNotExtract: string :=
    "I found some information but couldn't extract the specific details you're looking for. Could you please rephrase your question?"

  /** Lines 116-153. Every extractor answers with a non-empty string, so the
      "couldn't extract" message of line 149 is never given. */
  function FallbackResponse(msg: string, context: string): (r: string)
    ensures AllSpace(context) ==> r == NoKnowledge
    ensures !AllSpace(context) && ContentLines(Split(context, "\n")) == [] ==> r == TroubleProcessing
    ensures !AllSpace(context) && ContentLines(Split(context, "\n")) != [] ==>
      r == TopicAnswer(FallbackTopic(msg), Join(ContentLines(Split(context, "\n")), " "))
  {
    if Strip(context) != "" then
      var lines := ContentLines(Split(context, "\n"));
      if lines != [] then
        var response := TopicAnswer(FallbackTopic(msg), Join(lines, " "));
        if response != "" then response else CouldNotExtract
      else TroubleProcessing
    else NoKnowledge
  }

  /** Lines 58-72 without an OpenAI key: the fallback answer to the context
      of the three nearest chunks. Without an index there is no context;
      with one, the answer is built from the stripped contents of the
      retrieved plain documents, joined by spaces. */
  function GenerateResponse(p: Processor, msg: string, hits: seq<int>): (r: string)
    requires |hits| == 3
    ensures p.index.None? ==> r == NoKnowledge
    ensures p.index.Some? && Lookup(p.documents, hits) == [] ==> r == NoKnowledge
    ensures (p.index.Some? && Lookup(p.documents, hits) != []
      && (forall d :: d in Lookup(p.documents, hits) ==> Plain(d))) ==>
      r == TopicAnswer(FallbackTopic(msg), Join(StripAll(Contents(Lookup(p.documents, hits))), " "))
  {
    var context := RelevantContext(p, hits);
    var docs := Lookup(p.documents, hits);
    assert p.index.Some? && docs != [] ==> !AllSpace(context) by {
      if p.index.Some? && docs != [] {
        assert context[0] == 'S';
      }
    }
    assert p.index.Some? && (forall d :: d in docs ==> Plain(d)) ==>
      ContentLines(Split(context, "\n")) == StripAll(Contents(docs)) by {
      if p.index.Some? && forall d :: d in docs ==> Plain(d) {
        ContextRoundTrip(docs);
      }
    }
    assert AllSpace("");
    FallbackResponse(msg, context)
  }
}
