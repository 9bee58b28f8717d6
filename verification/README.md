# Portfolio chatbot core, modelled in Dafny

This project models the deterministic core of a resume chatbot backend.

- **PDF processor.** It cuts the text of uploaded PDFs into chunks and labels each chunk with its file and position. It keeps a FAISS index over those chunks, can save and load that index, and maps search hits back to documents.
- **Two chat engines.** They answer questions from those chunks.
  - The basic engine writes the retrieved chunks into a "Source:/Content:" context, reads the "Content:" lines back, and routes the question by keywords to one of eight extractors.
  - The enhanced engine first routes the question to a formatter over a structured resume record. When no formatter applies, it falls back to the retrieved chunks.
- **Two resume analyzers.** They build that structured record from resume text with keyword tests and vocabulary filters.

The model has one module per concern:

| module | file | models |
|---|---|---|
| `Text` | text.dfy | Python `str` operations over `seq<char>`: `strip`, `split`, `join`, `replace`, `find`, `in`, `lower`, `upper`, `isupper`, `title` |
| `Seqs` | seqs.dfy | order-preserving filters, first-match search, sorting |
| `Segmenter` | segmenter.dfy | `split_text` and `_split_large_section` |
| `Retrieval` | retrieval.dfy | `Document`, chunk labelling, index state and its errors, save/load, search-id mapping, `initialize_from_pdfs` |
| `Cues` | cues.dfy | the `phrase in text.lower()` rule lists and vocabulary filters the extractors are built from |
| `Cleaning` | cleaning.dfy | the analyzers' `_clean_text` |
| `Resume` | resume.dfy | the structured resume record |
| `SimpleAnalyzer`, `AdvancedAnalyzer` | simple_analyzer.dfy, advanced_analyzer.dfy | the two extractors of the record |
| `EnhancedRouter`, `EnhancedEngine` | enhanced_router.dfy, enhanced_engine.dfy | `EnhancedChatbotEngine` |
| `ChatbotEngine` | chatbot_engine.dfy | `ChatbotEngine` without its OpenAI path |

Three external services are abstracted away:

- **Embedder and FAISS.** The index is represented only by the number of vectors it holds (`FlatIndex`). A search takes as a parameter `hits`, the id row FAISS would return. `FlatHits` describes the row an exhaustive flat index returns.
- **Disk.** The disk is a map from a store path to its two artifacts, and either artifact may be missing.
- **PDF reader.** Each directory entry is given as a pair of file name and extracted text.

Letter case covers the ASCII letters only. Python's whitespace set is modelled in full.

## Model

| member | source | states |
|---|---|---|
| Segmenter.Normalize | app/utils/pdf_processor.py:41-42 | the normalised text has no `\n` or `\r`, no other whitespace than single spaces, no space at either end and never two spaces in a row, and it has exactly the words of the input, in order |
| Segmenter.JoinWordsNormalized | app/utils/pdf_processor.py:42 | joining non-empty whitespace-free words with single spaces gives normalised text, empty exactly when there are no words |
| Segmenter.FoundOffsets | app/utils/pdf_processor.py:57-60 | every recorded offset is the first occurrence of one of the patterns, and every pattern that occurs contributes its first occurrence |
| Segmenter.HeadingOffsets | app/utils/pdf_processor.py:57-63 | the heading offsets are sorted ascending, lie inside the text, and are exactly the first occurrences of the section patterns that occur in the upper-cased text |
| Seqs.SortInts | app/utils/pdf_processor.py:63 | sorting gives an ascending permutation of its input |
| Segmenter.Punctuate | app/utils/pdf_processor.py:98-99 | the result ends in one of `. ! ? :`, extends the sentence by at most one character, and leaves a sentence already ending in one of them unchanged |
| Segmenter.SentenceChunks | app/utils/pdf_processor.py:89-112 | every chunk fits in 1000 characters unless it is a single punctuated sentence or the pending chunk; newline-free input gives newline-free chunks |
| Segmenter.SentenceChunksJoin | app/utils/pdf_processor.py:89-112 | joining the sentence chunks with single spaces gives the pending chunk followed by every remaining non-empty sentence, stripped and punctuated, in order: no sentence is lost or reordered |
| Segmenter.ChooseBreak | app/utils/pdf_processor.py:128-131 | the chosen delimiter occurs in the section and no earlier delimiter of the list does; none is chosen exactly when none occurs |
| Segmenter.PartChunks | app/utils/pdf_processor.py:132-151 | every chunk fits in `max_size` unless it is the pending chunk or a single part with its break re-attached and `rstrip`ped |
| Segmenter.PartChunksGlue | app/utils/pdf_processor.py:132-151 | every chunk is a run of consecutive parts, the empty ones skipped and each other one stripped and followed by the break, with trailing break characters removed |
| Segmenter.BreakOnlyPartLeavesEmptyChunk | app/utils/pdf_processor.py:135-150 | a part made only of break characters that starts a chunk, followed by a part that does not fit, leaves an empty chunk: skipping empty parts does not make every chunk non-empty |
| Segmenter.DashPieceIsEmpty | app/utils/pdf_processor.py:147 | the part `-` with the break `" - "` re-attached right-strips to the empty string |
| Segmenter.SplitByBreak | app/utils/pdf_processor.py:132-153 | every chunk fits in `max_size` or is one part of the split on the chosen delimiter, and every chunk is a run of consecutive parts of that split glued with the delimiter |
| Segmenter.WordChunks | app/utils/pdf_processor.py:156-168 | every chunk fits in `max_size`, is the pending chunk, or is a single word; with a pending chunk the result is non-empty |
| Segmenter.WordChunksJoin | app/utils/pdf_processor.py:156-168 | joining the word chunks with single spaces gives the pending chunk followed by the remaining words |
| Segmenter.SplitByWords | app/utils/pdf_processor.py:155-170 | the chunks joined by single spaces are exactly the section's words joined by single spaces; each chunk is non-empty and fits in `max_size` or is a single word |
| Segmenter.SplitLargeSection | app/utils/pdf_processor.py:123-170 | splitting a newline-free section gives newline-free chunks |
| Segmenter.IntroChunks | app/utils/pdf_processor.py:69-73 | an intro chunk is emitted, at most once, exactly when the first offset is positive and the stripped prefix is longer than 50; it is that stripped prefix |
| Segmenter.Expand | app/utils/pdf_processor.py:80-86 | a section of at most 1000 characters is kept unchanged as one chunk |
| Segmenter.SectionBody | app/utils/pdf_processor.py:75-78 | a section of newline-free text is newline-free |
| Segmenter.SectionsFrom | app/utils/pdf_processor.py:66-86 | the section chunks of newline-free text are newline-free |
| Segmenter.SectionChunks | app/utils/pdf_processor.py:65-86 | the intro and section chunks of newline-free text are newline-free |
| Segmenter.SentencePath | app/utils/pdf_processor.py:88-112 | the chunks joined by single spaces are the non-empty `'. '`-separated sentences, stripped and punctuated, joined by single spaces; newline-free text gives newline-free chunks |
| Segmenter.RawChunks | app/utils/pdf_processor.py:44-112 | the unfiltered chunks of newline-free text are newline-free |
| Segmenter.QualityFilter | app/utils/pdf_processor.py:114-119 | a stripped chunk is kept exactly when it comes from an input chunk whose stripped form is longer than 30 and not all upper-case; kept chunks are stripped |
| Segmenter.QualityFilterSingle | app/utils/pdf_processor.py:114-119 | a single chunk gives its stripped form when it passes the test and nothing otherwise |
| Segmenter.QualityFilterAppend | app/utils/pdf_processor.py:114-119 | filtering a concatenation is filtering each part and concatenating: chunk order and repetitions are kept, as by the list comprehension |
| Segmenter.Take | app/utils/pdf_processor.py:121 | `text[:n]` is a prefix of at most `n` characters, the whole text when it is short enough |
| Segmenter.SplitText | app/utils/pdf_processor.py:35-121 | empty text gives no chunks and any other text at least one; when some raw chunk of the normalised text passes the quality test, the result is the quality filter of the raw chunks (their passing chunks, stripped, in order and with repetitions), which contains the stripped form of every passing chunk and nothing else; when none passes, it is the single first-1000-characters fallback; no chunk holds a newline |
| Text.Words | app/utils/pdf_processor.py:42 | `split()` gives non-empty whitespace-free words, none exactly when the text is all whitespace, and equals `SpaceRuns`, the character-by-character reading in which whitespace separates and adjacent non-whitespace characters belong to one word: the maximal non-whitespace runs, in order |
| Text.WordsOfJoin | app/utils/pdf_processor.py:42 | splitting non-empty whitespace-free words joined by single spaces gives the words back |
| Text.WordsSwapSpace | app/utils/pdf_processor.py:41-42 | replacing a whitespace character by a space does not change the words |
| Text.ReplaceCharSwaps | app/utils/pdf_processor.py:41 | replacing one character by another changes exactly its occurrences and keeps every other character in place |
| Text.SplitJoin | app/utils/pdf_processor.py:132 | splitting on a separator and joining with it gives the text back |
| Text.RStripChars | app/utils/pdf_processor.py:147 | `rstrip(chars)` removes a trailing run of characters of `chars`, and the result does not end in one |
| Text.Strip | app/utils/pdf_processor.py:71 | `strip()` is stripped, no longer than its input, empty exactly for all-whitespace input, and adds no character |
| Text.StripOfPadded | app/utils/pdf_processor.py:71 | stripping any whitespace padding around a stripped string gives that string back |
| Text.Find | app/utils/pdf_processor.py:58 | `find` returns an occurrence with no earlier one, or -1 when there is none |
| Retrieval.LabelChunks | app/utils/pdf_processor.py:187-196 | chunk `i` of `n` becomes a document with that content and metadata (file name, `i`, `n`) |
| Retrieval.FileDocuments | app/utils/pdf_processor.py:181-196 | a file gives no documents exactly when its text strips to empty; otherwise its labelled `split_text` chunks |
| Retrieval.ProcessFiles | app/utils/pdf_processor.py:172-198 | every produced document comes from a `.pdf` name, has chunk index below its chunk count, and holds no newline |
| Retrieval.NonPdfIgnored | app/utils/pdf_processor.py:176-177 | a directory entry whose name does not end in `.pdf` changes nothing, wherever it stands |
| Retrieval.SinglePdf | app/utils/pdf_processor.py:176-196 | a single non-blank `.pdf` file gives exactly its labelled chunks, at least one |
| Retrieval.CreateVectorStore | app/utils/pdf_processor.py:200-219 | an empty list is refused with "No documents provided"; otherwise the documents are replaced and the index holds one vector per document |
| Retrieval.SaveVectorStore | app/utils/pdf_processor.py:221-235 | saving without an index is refused; otherwise both artifacts are written under the path and other paths are untouched |
| Retrieval.LoadVectorStore | app/utils/pdf_processor.py:237-252 | loading fails with "not found" exactly when either artifact is missing; otherwise index and documents are the stored ones |
| Retrieval.SaveLoadRoundTrip | app/utils/pdf_processor.py:221-252 | loading what was just saved restores the saving processor, whatever state the loader was in |
| Retrieval.SaveKeepsOtherStores | app/utils/pdf_processor.py:221-235 | saving under one path does not change what loading from another path gives |
| Retrieval.Lookup | app/utils/pdf_processor.py:266-269 | the looked-up documents are at most as many as the ids and are all stored documents |
| Retrieval.LookupAppend | app/utils/pdf_processor.py:266-269 | looking up concatenated id rows concatenates the results, so order follows the id row |
| Retrieval.LookupAllValid | app/utils/pdf_processor.py:266-269 | with every id in range, position `i` of the result is the document id `i` names |
| Retrieval.LookupNoneValid | app/utils/pdf_processor.py:266-269 | ids that are all out of range give no documents |
| Retrieval.SearchSimilarDocuments | app/utils/pdf_processor.py:254-271 | search fails exactly when there is no index; otherwise at most `k` stored documents come back |
| Retrieval.SearchCount | app/utils/pdf_processor.py:263-269 | on a consistent index, a flat-index id row gives `min(k, len(documents))` documents, in rank order |
| Retrieval.InitializeFromFiles | app/utils/chatbot_engine.py:21-36 | initialisation fails exactly when no documents are found; otherwise the index covers the processed documents; with a non-empty path the saved store loads back as the new state and other stores are untouched, and with no path or the empty path the disk is unchanged |
| Cleaning.Collapse | simple_analyzer.py:48 | `re.sub(r'\s+', ' ', ...)` leaves only single spaces as whitespace, keeps the non-whitespace characters in their order, and keeps the words |
| Cleaning.CollapseFromKeeps | simple_analyzer.py:48 | collapsing a suffix keeps its non-whitespace characters, in order, and its words |
| Cleaning.CollapseIdempotent | simple_analyzer.py:48 | collapsing whitespace twice is collapsing it once |
| Cleaning.CleanBase | advanced_analyzer.py:44-48 | the cleaned text holds no pipe character |
| Cleaning.SimpleClean | simple_analyzer.py:46-51 | the cleaned text holds no pipe character and has no surrounding whitespace |
| Cues.Select | simple_analyzer.py:130-142 | the appended payloads are an in-order subsequence of the rules' payloads; every rule whose test passes contributes, and only such rules do |
| Cues.SelectExactly | simple_analyzer.py:130-142 | with distinct payloads, a payload is appended exactly when its own test passes |
| Cues.VocabFilter | simple_analyzer.py:88-91 | the filtered list is the vocabulary subsequence of exactly the words whose lower-case form occurs in the lower-cased text |
| SimpleAnalyzer.ExtractEducation | simple_analyzer.py:79-85 | degree, university and years are each set exactly when their phrase occurs; years needs both "2023" and "2027", matched case-sensitively |
| SimpleAnalyzer.ExtractSkills | simple_analyzer.py:87-103 | each skill list is exactly the in-order subsequence of its vocabulary whose lower-case form occurs in the lower-cased text |
| SimpleAnalyzer.ProjectSelected | simple_analyzer.py:105-128 | a project is listed exactly when its own keyword test passes |
| SimpleAnalyzer.ExtractProjects | simple_analyzer.py:105-128 | at most three projects, in the order fitness, stress, BhasaVitt, each present exactly when its keywords occur |
| SimpleAnalyzer.ExtractExperience | simple_analyzer.py:144-155 | one experience entry with four highlights exactly when "hackathon" occurs |
| SimpleAnalyzer.LowerLacksFinArva | simple_analyzer.py:139 | the lower-cased text never contains `finArva` |
| SimpleAnalyzer.FinArvaNeverRecordedAsWritten | simple_analyzer.py:139-140 | with the test as written, the FinArva achievement is never recorded, whatever the text |
| SimpleAnalyzer.FinArvaRecorded | simple_analyzer.py:139-140 | with the test spelled in lower case, the FinArva achievement is recorded exactly when "finalist" and "finarva" occur |
| SimpleAnalyzer.ExtractAchievements | simple_analyzer.py:136-142 | as written: at most the three achievements, in fixed order; Top 10 exactly when "top 10" and "hackathon" occur, the national entry exactly when "finalist" occurs and "25,000" occurs verbatim, FinArva never |
| SimpleAnalyzer.ExtractAchievementsCorrected | simple_analyzer.py:136-142 | with the FinArva test spelled in lower case: the same, except that FinArva is recorded exactly when "finalist" and "finarva" occur |
| SimpleAnalyzer.ExtractStructuredInfo | simple_analyzer.py:53-157 | the personal record is the fixed one and the contact the given one; there is an experience entry exactly when "hackathon" occurs; at most three projects and two certificates; the FinArva achievement is never recorded |
| SimpleAnalyzer.AnalyzeContent | simple_analyzer.py:27-44 | for every raw text, the record has the fixed personal part, the given contact, and no FinArva achievement |
| SimpleAnalyzer.PersonalIsConstant | simple_analyzer.py:55-60 | the personal record is the same for every resume |
| AdvancedAnalyzer.RoleIndex | advanced_analyzer.py:106-111 | the chosen role pattern occurs in the lower-cased text and no earlier pattern does; none is chosen exactly when none occurs |
| AdvancedAnalyzer.ExtractPersonal | advanced_analyzer.py:97-118 | name is set exactly when "aditya kumar" occurs, role exactly when a role pattern occurs (as its title-cased form), location exactly when the location pattern matches |
| AdvancedAnalyzer.WebDeveloperWins | advanced_analyzer.py:107-111 | a text mentioning "web developer" gets the role "Web Developer" |
| AdvancedAnalyzer.DeveloperSecond | advanced_analyzer.py:107-111 | a text mentioning "developer" but not "web developer" gets the role "Developer" |
| AdvancedAnalyzer.SoftwareEngineerOnlyWithoutDeveloper | advanced_analyzer.py:107-111 | "Software Engineer" is chosen only when "developer" does not occur |
| AdvancedAnalyzer.LocationAcceptsSeparators | advanced_analyzer.py:114 | "lucknow", any whitespace, an optional comma, any whitespace and "uttar pradesh" is a location match |
| AdvancedAnalyzer.ExtractSkills | advanced_analyzer.py:157-192 | each skill list is exactly the in-order subsequence of its vocabulary whose lower-case form occurs in the lower-cased text |
| AdvancedAnalyzer.HackathonAchievements | advanced_analyzer.py:206-211 | the Top 10 entry exactly when "top 10" occurs, the two finalist entries exactly when "finalist" occurs, nothing else, in the order Top 10, FinArva, national |
| AdvancedAnalyzer.ExtractExperience | advanced_analyzer.py:194-215 | at most one entry, present exactly when "hackathon" occurs, carrying the hackathon achievements and no highlights |
| AdvancedAnalyzer.ExtractProjects | advanced_analyzer.py:217-248 | at most three projects in fixed order, each present exactly when its keywords occur |
| AdvancedAnalyzer.ExtractCertifications | advanced_analyzer.py:250-260 | at most two certificates in fixed order, each present exactly when its lower-case phrase occurs |
| AdvancedAnalyzer.ExtractAchievements | advanced_analyzer.py:262-276 | "top 10" counts only with "hackathon", "finalist" adds both finalist entries, "25,000" (case-sensitive) adds the crowd entry; at most four, in the source's order |
| AdvancedAnalyzer.ExtractStructuredInfo | advanced_analyzer.py:58-95 | contact and education are the given ones; a name exactly when "aditya kumar" occurs; experience exactly when "hackathon" occurs; at most three projects, two certificates and four achievements; the crowd entry exactly when "25,000" occurs |
| EnhancedRouter.RouteLowered | app/utils/enhanced_chatbot_engine.py:89-150 | the contact answer goes exactly to the "contact info" button and to non-button messages naming a contact word; the technology answer needs a technology word and no contact or project word; the certifications answer needs a certification word and no contact word |
| EnhancedRouter.Route | app/utils/enhanced_chatbot_engine.py:86-150 | on the lower-cased, stripped message: no answer exactly when it is no button and names no keyword; the projects answer exactly for the "projects" button or a non-button message naming a project word and no contact word |
| EnhancedRouter.UnroutedIff | app/utils/enhanced_chatbot_engine.py:86-150 | the router gives no answer exactly when the message is no button and names none of the router's keywords |
| EnhancedRouter.ProjectsIff | app/utils/enhanced_chatbot_engine.py:89-113 | the projects answer is given exactly to the "projects" button and to non-button messages naming a project word but no contact word |
| EnhancedRouter.TechnicalSkillsButton | app/utils/enhanced_chatbot_engine.py:89-132 | the "technical skills" button gets the complete skills overview, although it names both a skill word and a technical word |
| EnhancedRouter.TellMeAboutExperience | app/utils/enhanced_chatbot_engine.py:107-119 | a "tell me about" question naming experience and no contact, project, skill or education word gets the personal summary |
| EnhancedRouter.RouteIgnoresCase | app/utils/enhanced_chatbot_engine.py:86 | routing ignores letter case |
| EnhancedRouter.RouteIgnoresPadding | app/utils/enhanced_chatbot_engine.py:86 | routing ignores surrounding whitespace |
| EnhancedEngine.LoadStructuredData | app/utils/enhanced_chatbot_engine.py:20-44 | with no candidate path present the record is absent; otherwise the record is the contents of the first candidate path that exists |
| EnhancedEngine.PersonalLines | app/utils/enhanced_chatbot_engine.py:152-167 | the introduction names the person, role and location with their defaults; exactly when a degree is recorded it adds the degree sentence and the "(years). " piece, defaulting to "2023-2027"; it ends with the two fixed closing sentences |
| EnhancedEngine.ContactLines | app/utils/enhanced_chatbot_engine.py:169-185 | the greeting naming the person (default "Aditya"), then one line for each truthy detail in the order email, phone, location, then the closing |
| EnhancedEngine.EducationLines | app/utils/enhanced_chatbot_engine.py:187-200 | the "no education" message exactly when the education record is empty; otherwise degree, university and duration lines with their defaults |
| EnhancedEngine.Category | app/utils/enhanced_chatbot_engine.py:213-215 | a category is the in-order subsequence of the skills whose lower-case form is one of its names |
| EnhancedEngine.CategoriesDisjoint | app/utils/enhanced_chatbot_engine.py:213-215 | no skill is in two of the frontend, backend and database categories |
| EnhancedEngine.TechnicalLines | app/utils/enhanced_chatbot_engine.py:202-226 | the "no technical skills" message exactly for an empty list; otherwise a line per non-empty category and the full list |
| EnhancedEngine.AiTools | app/utils/enhanced_chatbot_engine.py:239 | the AI tools are the in-order subsequence of the tools containing "ai" or named as an AI tool |
| EnhancedEngine.CloudTools | app/utils/enhanced_chatbot_engine.py:240 | the cloud tools are the in-order subsequence of the tools named "aws" or "oracle cloud" |
| EnhancedEngine.ToolGroupsDisjoint | app/utils/enhanced_chatbot_engine.py:239-240 | no tool is both an AI tool and a cloud platform |
| EnhancedEngine.ToolLines | app/utils/enhanced_chatbot_engine.py:228-249 | the "no tools" message exactly for an empty list; otherwise the AI and cloud lines when non-empty and the full list |
| EnhancedEngine.AllSkillsLines | app/utils/enhanced_chatbot_engine.py:251-268 | the header, then one line for each non-empty skill list in the order technical, tools, soft, then the closing |
| EnhancedEngine.EntryLines | app/utils/enhanced_chatbot_engine.py:279-287 | an entry shows its type and description, "Experience" and "N/A" when missing, then one bullet per highlight, with the highlights block exactly when there are highlights |
| EnhancedEngine.ExperienceLines | app/utils/enhanced_chatbot_engine.py:270-289 | the "no experience" message exactly when there are no entries |
| EnhancedEngine.ExperienceShowsHighlights | app/utils/enhanced_chatbot_engine.py:279-287 | every highlight of every entry is shown on its own bullet line |
| EnhancedEngine.AdvancedExperienceShowsNoAchievements | app/utils/enhanced_chatbot_engine.py:279-287 | an entry built by the advanced analyzer is shown with its type and description only, since its achievements are never read |
| EnhancedEngine.HeadingNumber | app/utils/enhanced_chatbot_engine.py:300-301 | the digits before the first `.` of a project heading read back as the project's number |
| EnhancedEngine.ProjectLines | app/utils/enhanced_chatbot_engine.py:300-313 | a project shows its numbered heading and description, and its technologies, achievement and features when present |
| EnhancedEngine.ProjectsLines | app/utils/enhanced_chatbot_engine.py:291-315 | the "no projects" message exactly when there are no projects |
| EnhancedEngine.ProjectsNumbered | app/utils/enhanced_chatbot_engine.py:300-301 | project `k` (from 0) is listed under the number `k + 1` |
| EnhancedEngine.CertificationLines | app/utils/enhanced_chatbot_engine.py:317-331 | the "no certifications" message exactly for an empty list; otherwise one bullet per certificate |
| EnhancedEngine.AchievementLines | app/utils/enhanced_chatbot_engine.py:333-347 | the "no achievements" message exactly for an empty list; otherwise one bullet per achievement |
| EnhancedEngine.MentionedSkill | app/utils/enhanced_chatbot_engine.py:355-360 | the chosen skill is the first, in list order, whose lower-case form occurs in the lower-cased message |
| EnhancedEngine.UsesTechnologyByContainment | app/utils/enhanced_chatbot_engine.py:371-375 | a project uses a technology exactly when one of its technologies contains it, ignoring case |
| EnhancedEngine.RelevantProjects | app/utils/enhanced_chatbot_engine.py:369-375 | the relevant projects are the in-order subsequence of the projects that use the technology, each once |
| EnhancedEngine.TechnologyLines | app/utils/enhanced_chatbot_engine.py:365-382 | the answer opens with the technology's heading; it has two lines when no project uses the technology and otherwise three plus one per relevant project, line `3 + k` naming relevant project `k`; every project that uses it is mentioned |
| EnhancedEngine.FormatTechnology | app/utils/enhanced_chatbot_engine.py:349-382 | no answer exactly when no skill is named or the first named is empty; otherwise the technology answer for a named, non-empty skill |
| EnhancedEngine.Answer | app/utils/enhanced_chatbot_engine.py:88-150 | every routed topic except the technology one gets a formatted answer with a non-empty first line, and an unrouted message gets none |
| EnhancedEngine.StructuredResponse | app/utils/enhanced_chatbot_engine.py:81-150 | no record or no route gives no structured answer, and a structured answer is never empty |
| EnhancedEngine.BlocksJoin | app/utils/enhanced_chatbot_engine.py:390-392 | the accumulated context is the contents joined by blank lines, followed by one more blank line |
| EnhancedEngine.RelevantContext | app/utils/enhanced_chatbot_engine.py:384-397 | no index gives the empty context; otherwise the contents of the search result joined by blank lines, stripped |
| EnhancedEngine.Truncate | app/utils/enhanced_chatbot_engine.py:404-405 | a text of at most `n` characters is kept; a longer one becomes its first `n` characters and "..." (the fallback uses `n` = 400) |
| EnhancedEngine.OneLine | app/utils/enhanced_chatbot_engine.py:403 | the cleaned context holds no newline and is stripped |
| EnhancedEngine.OneLineSwapsNewlines | app/utils/enhanced_chatbot_engine.py:403 | the cleaned context is the context with every newline turned into a space and nothing else changed, stripped |
| EnhancedEngine.Fallback | app/utils/enhanced_chatbot_engine.py:399-409 | blank context gives the fixed apology; otherwise "Here's what I found: " followed by the one-line context when it has at most 400 characters, or by its first 400 characters and "..." |
| EnhancedEngine.GenerateResponse | app/utils/enhanced_chatbot_engine.py:65-79 | with no record or no route the answer is the document fallback; a routed non-technology question gets its formatted answer; with neither an answer nor an index it is the fixed apology |
| ChatbotEngine.Serialize | app/utils/chatbot_engine.py:47-53 | the context is empty exactly when there are no documents and otherwise begins with the `S` of the first `Source:` line; its full line structure is stated by `ChatbotEngine.SplitSerialized` |
| ChatbotEngine.RelevantContext | app/utils/chatbot_engine.py:43-56 | the context is empty exactly when there is no index or no hit names a stored document; otherwise it serialises the search result |
| ChatbotEngine.ContentLines | app/utils/chatbot_engine.py:120-121 | at most one content per line, none exactly when no line starts with `Content:` |
| ChatbotEngine.SplitSerialized | app/utils/chatbot_engine.py:49-51 | splitting the context at newlines gives, per document, its Source line, its Content line and an empty line, then one final empty line |
| ChatbotEngine.ContentLineRecovered | app/utils/chatbot_engine.py:121 | a Content line of a content without `Content:` starts with the marker and reads back as the stripped content |
| ChatbotEngine.ContentLinesOfContext | app/utils/chatbot_engine.py:120-121 | the Content lines of serialised documents read back as their stripped contents, in order |
| ChatbotEngine.ContextRoundTrip | app/utils/chatbot_engine.py:49-121 | for documents without newlines or `Content:` in them, serialising the context and parsing it back recovers every stripped content, in document order |
| ChatbotEngine.FallbackTopic | app/utils/chatbot_engine.py:128-147 | the topic is the first branch one of whose words occurs in the lower-cased message, general exactly when none occurs |
| ChatbotEngine.TopicPriority | app/utils/chatbot_engine.py:131-147 | a message naming a word of branch `k` is answered by branch `k` or an earlier one |
| ChatbotEngine.WorkAnywhereIsExperience | app/utils/chatbot_engine.py:131-132 | any message containing "work", even inside another word, gets the experience answer |
| ChatbotEngine.Window | app/utils/chatbot_engine.py:164-166 | the window is a stripped slice `content[a:b]` with `max(0, p-50) <= a <= b <= min(len, p+100)` and only whitespace between those bounds and `a`, `b`; around a non-whitespace character it is not empty |
| ChatbotEngine.Candidates | app/utils/chatbot_engine.py:161-166 | there are no candidate windows exactly when no indicator occurs |
| ChatbotEngine.AddNew | app/utils/chatbot_engine.py:167-168 | the kept windows extend the found ones, stay distinct, and are exactly the found ones plus the non-empty candidates |
| ChatbotEngine.Windows | app/utils/chatbot_engine.py:159-168 | the kept windows are distinct and are exactly the non-empty candidate windows |
| ChatbotEngine.HackathonFallbackUnreachable | app/utils/chatbot_engine.py:170-175 | when "hackathon" occurs its window is kept, in first place, so the hackathon summary is never returned |
| ChatbotEngine.ExperienceInfo | app/utils/chatbot_engine.py:155-177 | the answer is never empty; with windows it is the experience prefix followed by the first two windows joined by a space, so it shows the first window (the hackathon window when "hackathon" occurs) and the second; without windows it is the "need more context" answer, so the hackathon summary is never given |
| ChatbotEngine.SkillsSection | app/utils/chatbot_engine.py:183-186 | the section is non-empty exactly when "technical skills" occurs, is at most 200 characters and starts with that heading |
| ChatbotEngine.AiTools | app/utils/chatbot_engine.py:188-197 | each tool is listed exactly when its keyword occurs, in the fixed order |
| ChatbotEngine.SkillsParts | app/utils/chatbot_engine.py:199-205 | no parts exactly when there is neither a section nor a tool; the section part comes first and the tools part last |
| ChatbotEngine.SkillsInfo | app/utils/chatbot_engine.py:179-210 | the answer is never empty, shows the section and every detected tool, and is the "need more context" answer when there is neither |
| ChatbotEngine.EducationInfo | app/utils/chatbot_engine.py:212-230 | the answer shows each education item whose phrase occurs, "2023 - 2027" matched case-sensitively, and is the "need more context" answer when none does |
| ChatbotEngine.ProjectsInfo | app/utils/chatbot_engine.py:232-246 | the answer shows the fitness project when its phrase occurs and the stress project when "stress" and "meditation" both occur, otherwise "need more context" |
| ChatbotEngine.ContactInfo | app/utils/chatbot_engine.py:248-267 | the answer shows the phone and e-mail when they occur verbatim and the location when "lucknow" occurs, otherwise "need more context" |
| ChatbotEngine.CertificationsInfo | app/utils/chatbot_engine.py:269-282 | the answer shows each certificate whose phrase occurs, otherwise "need more context" |
| ChatbotEngine.ProfileInfo | app/utils/chatbot_engine.py:284-301 | the answer shows each profile element whose phrase occurs, otherwise "need more context" |
| ChatbotEngine.GeneralInfo | app/utils/chatbot_engine.py:303-309 | after the prefix comes the content itself when it has at most 300 characters, otherwise its first 300 characters and "..." |
| ChatbotEngine.TopicAnswer | app/utils/chatbot_engine.py:131-147 | every extractor gives a non-empty answer |
| ChatbotEngine.FallbackResponse | app/utils/chatbot_engine.py:116-153 | blank context gives the "no specific information" message; no Content line gives the "trouble processing" message; otherwise the topic's extractor answers on the joined contents, so the "couldn't extract" message is never given |
| ChatbotEngine.GenerateResponse | app/utils/chatbot_engine.py:58-72 | without an index or without hits the "no specific information" message is given; otherwise, for hit documents without newlines or `Content:` in them, the topic's extractor answers on their stripped contents joined by spaces |

## Left out

- PDF reading (`extract_text_from_pdf`), directory listing and file opening are I/O. A directory is given as a list of (file name, extracted text) pairs.
- The sentence-transformer embedder and FAISS distances are foreign libraries over float32. The index is its vector count, and a search takes the id row FAISS returns as a parameter (`hits`).
- Pickle and `faiss.write_index` persistence are modelled as a map from path to the two artifacts.
- The OpenAI call of app/utils/chatbot_engine.py (lines 74-114) is a network client. `ChatbotEngine.GenerateResponse` models the engine without an API key. A failing OpenAI call also ends in the same fallback.
- The `chat_history` argument is read only on the OpenAI path, and the enhanced engine ignores it, so neither `GenerateResponse` takes it.
- The catch-all exception handlers of both `generate_response` methods are left out: no modelled step raises.
- The regular expressions for phone, e-mail and degree (simple_analyzer.py 71-77; advanced_analyzer.py 51-54 and 120-153, which also hold the university pattern of line 146 and the years pattern of line 151) are left out. The contact and education records they produce are parameters of `ExtractStructuredInfo`. The advanced `_clean_text` is modelled up to line 48 (`Cleaning.CleanBase`).
- `print` output, `_display_analysis`, the analyzers' `main` (which writes the JSON file), and the Flask and Vercel entry points are left out.
- Case mapping covers ASCII letters only, so `upper()` and `lower()` keep lengths and offsets. Unicode case rules are left out.
- `chunk_overlap` is set but never read, so it is not modelled.
- Segmenter.SplitLargeSection, Segmenter.SectionBody, Segmenter.SectionsFrom, Segmenter.SectionChunks and Segmenter.RawChunks: their contracts state only that no newline appears. Their size bounds are not stated for the composed result. The bounds of the pieces are stated by `SplitByBreak`, `SplitByWords` and `SentenceChunks`.
- Segmenter.Expand: states only the unchanged-section case. The oversize case is `SplitLargeSection`.
- Retrieval.ProcessFiles: states what every produced document looks like. `NonPdfIgnored` and `SinglePdf` state which files contribute. The concatenation of files is not stated as one all-inputs equation.
- Cleaning.CleanBase and Cleaning.SimpleClean: state the absence of the pipe character and the stripping, not where the bullet padding lands.
- EnhancedRouter.RouteLowered and EnhancedRouter.Route: the contact, unrouted and projects answers are stated as if-and-only-ifs; the technology and certifications answers only by what they require. The remaining routes are not characterised on their own; they are the ordered decision list of `RouteLowered`.
- SimpleAnalyzer.ExtractStructuredInfo, SimpleAnalyzer.AnalyzeContent and AdvancedAnalyzer.ExtractStructuredInfo: state the fixed and passed-through fields, the experience and name tests, the list bounds and the achievements named above. The skills, projects and education fields are stated by the extractors that compute them (`ExtractSkills`, `ExtractProjects`, `ExtractEducation`).
- Segmenter.SplitText: when exactly one raw chunk passes the quality test and equals the fallback text, both cases give the same list; the contract states the two cases by what decides them rather than by comparing the result with the fallback.
- EnhancedEngine.LoadStructuredData: a file that exists but fails to parse is modelled as `None`. The source's exception path leaves the record unset in the same way.
- EnhancedEngine.LoadStructuredData: a file holding the empty JSON object `{}` is given as `None` in `files`. The record type has no empty-dictionary value, and line 83 treats the loaded `{}` as no record, so every message then goes to the document fallback.
- ChatbotEngine.SkillsSection: states the bound and the leading heading, not the exact slice offset.
- ChatbotEngine.EducationInfo, ChatbotEngine.ProjectsInfo, ChatbotEngine.ContactInfo, ChatbotEngine.CertificationsInfo and ChatbotEngine.ProfileInfo: state that each detected item appears and the empty case. They do not state that undetected items are absent.

## Findings

| source | as written | input that shows it | evidently intended | confidence | as-written member | corrected member |
|---|---|---|---|---|---|---|
| simple_analyzer.py:139 | `'finArva' in text.lower()` looks for an upper-case `A` in lower-cased text, so the FinArva achievement is never recorded | any text, for example "FinArva AI Hackathon Finalist" | the phrase spelled `'finarva'`, so the achievement is recorded when the resume mentions it | high; not executed | SimpleAnalyzer.FinArvaNeverRecordedAsWritten, SimpleAnalyzer.ExtractAchievements | SimpleAnalyzer.ExtractAchievementsCorrected, SimpleAnalyzer.FinArvaRecorded |

Some other behaviours of the source follow from the model but are not errors:

- The hackathon sentence of app/utils/chatbot_engine.py:174-175 is unreachable (`ChatbotEngine.HackathonFallbackUnreachable`).
- The "couldn't extract" message of line 149 is never given (`ChatbotEngine.FallbackResponse`).
- The "tell me about … project" branch of app/utils/enhanced_chatbot_engine.py:112-113 is shadowed by line 103 (`EnhancedRouter.ProjectsIff`).
- The "technical skills" button does not get the technical-skills answer (`EnhancedRouter.TechnicalSkillsButton`).
- `load_vector_store` does not check that the stored documents match the index size. A loaded store can therefore be inconsistent, and the search then silently drops ids that are out of range (`Retrieval.LoadVectorStore`, `Retrieval.Lookup`).
