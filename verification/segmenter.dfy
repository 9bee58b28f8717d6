/** The resume-aware text splitter of `PDFProcessor`: `split_text` and
    `_split_large_section` in app/utils/pdf_processor.py. */
module Segmenter {
  import opened Wrappers
  import opened Text
  import opened Seqs

  /** `self.chunk_size` (the `chunk_overlap` field is set but never read). */
  const ChunkSize: nat := 1000
  /** A kept chunk must be strictly longer than this. */
  const MinChunkLength: nat := 30
  /** The text before the first heading is kept only when strictly longer than this. */
  const MinIntroLength: nat := 50

  const SectionPatterns: seq<string> := [
    "EDUCATION", "EXPERIENCE", "SKILLS", "PROJECTS", "CERTIFICATIONS",
    "CONTACT", "TECHNICAL SKILLS", "WORK EXPERIENCE", "PROFESSIONAL EXPERIENCE",
    "ACADEMIC", "ACHIEVEMENTS", "AWARDS"
  ]

  /** Tried in this order; the bullet is U+2022. */
  const LogicalBreaks: seq<string> := [" | ", " \U{2022} ", " - ", ". ", ", "]

  /** Characters a sentence may already end with. */
  const SentenceEnds: string := ".!?:"

  predicate NonEmptyAll(xs: seq<string>) {
    forall k :: 0 <= k < |xs| ==> xs[k] != ""
  }

  // ------------------------------------------------------------ normalisation

  /** What `' '.join(text.split())` leaves: single spaces between runs of
      non-whitespace, none at either end. */
  predicate IsNormalized(r: string) {
    && (forall i :: 0 <= i < |r| ==> r[i] == ' ' || !IsSpace(r[i]))
    && (r == "" || (r[0] != ' ' && r[|r| - 1] != ' '))
    && (forall i :: 0 <= i < |r| - 1 ==> r[i] != ' ' || r[i + 1] != ' ')
  }

  lemma {:induction false} JoinWordsNormalized(ws: seq<string>)
    requires forall k :: 0 <= k < |ws| ==> ws[k] != "" && NoSpace(ws[k])
    ensures IsNormalized(Join(ws, " "))
    ensures Join(ws, " ") == "" <==> ws == []
    decreases |ws|
  {
    if |ws| > 1 {
      var w := ws[0];
      var t := Join(ws[1..], " ");
      JoinWordsNormalized(ws[1..]);
      var r := w + " " + t;
      assert Join(ws, " ") == r;
      forall i | 0 <= i < |r| ensures r[i] == ' ' || !IsSpace(r[i]) {
        if i < |w| { assert r[i] == w[i]; }
        else if i > |w| { assert r[i] == t[i - |w| - 1]; }
      }
      forall i | 0 <= i < |r| - 1 ensures r[i] != ' ' || r[i + 1] != ' ' {
        if i < |w| { assert r[i] == w[i]; }
        else if i == |w| { assert r[i + 1] == t[0]; }
        else { assert r[i] == t[i - |w| - 1] && r[i + 1] == t[i - |w|]; }
      }
      assert r[0] == w[0];
      assert r[|r| - 1] == t[|t| - 1];
    } else if |ws| == 1 {
      assert Join(ws, " ") == ws[0];
    }
  }

  /** Lines 41-42: newlines and carriage returns become spaces, then every
      whitespace run collapses to one space and the ends are trimmed. */
  function Normalize(text: string): (r: string)
    ensures IsNormalized(r)
    ensures '\n' !in r && '\r' !in r
    ensures Words(r) == Words(text)
  {
    var noNewline := Replace(text, "\n", " ");
    var ws := Words(Replace(noNewline, "\r", " "));
    WordsSwapSpace(text, '\n');
    WordsSwapSpace(noNewline, '\r');
    WordsOfJoin(ws);
    JoinWordsNormalized(ws);
    Join(ws, " ")
  }

  // ------------------------------------------------------------ headings

  /** Lines 57-60: the first offset of each pattern that occurs, in pattern order. */
  function FoundOffsets(upper: string, patterns: seq<string>, i: nat): (r: seq<int>)
    requires i <= |patterns| && NonEmptyAll(patterns)
    ensures forall x :: x in r ==> 0 <= x < |upper|
    ensures forall x :: x in r ==> exists k :: i <= k < |patterns| && x == Find(upper, patterns[k])
    ensures forall k :: i <= k < |patterns| && Contains(upper, patterns[k]) ==> Find(upper, patterns[k]) in r
    decreases |patterns| - i
  {
    if i == |patterns| then []
    else
      var pos := Find(upper, patterns[i]);
      (if pos >= 0 then [pos] else []) + FoundOffsets(upper, patterns, i + 1)
  }

  lemma SectionPatternsNonEmpty()
    ensures NonEmptyAll(SectionPatterns)
  {
    forall k | 0 <= k < |SectionPatterns| ensures SectionPatterns[k] != "" {
      assert |SectionPatterns[k]| >= 6;
    }
  }

  /** Lines 57-63: heading offsets in the upper-cased text, sorted ascending.
      Every offset is the first occurrence of some pattern, and every pattern
      that occurs contributes its first occurrence. */
  function HeadingOffsets(text: string): (r: seq<int>)
    ensures Sorted(r)
    ensures forall x :: x in r ==> 0 <= x < |text|
    ensures forall x :: x in r ==> exists k :: 0 <= k < |SectionPatterns| && x == Find(Upper(text), SectionPatterns[k])
    ensures forall k :: 0 <= k < |SectionPatterns| && Contains(Upper(text), SectionPatterns[k]) ==> Find(Upper(text), SectionPatterns[k]) in r
  {
    SectionPatternsNonEmpty();
    SortedOffsets(Upper(text), SectionPatterns)
  }

  /** The first offsets of the patterns that occur, sorted ascending. */
  function SortedOffsets(upper: string, patterns: seq<string>): (r: seq<int>)
    requires NonEmptyAll(patterns)
    ensures Sorted(r)
    ensures forall x :: x in r ==> 0 <= x < |upper|
    ensures forall x :: x in r ==> exists k :: 0 <= k < |patterns| && x == Find(upper, patterns[k])
    ensures forall k :: 0 <= k < |patterns| && Contains(upper, patterns[k]) ==> Find(upper, patterns[k]) in r
  {
    SortInts(FoundOffsets(upper, patterns, 0))
  }

  // ------------------------------------------------------------ sentence fallback

  /** Lines 98-99: a period is appended unless the sentence already ends in `. ! ? :`. */
  function Punctuate(sentence: string): (r: string)
    ensures |r| > 0 && r[|r| - 1] in SentenceEnds
    ensures StartsWith(r, sentence) && |r| <= |sentence| + 1
    ensures |sentence| > 0 && sentence[|sentence| - 1] in SentenceEnds ==> r == sentence
  {
    if |sentence| > 0 && sentence[|sentence| - 1] in SentenceEnds then sentence else sentence + "."
  }

  /** Lines 89-112: sentences accumulate into a running chunk that is flushed
      when the next one would push it past `ChunkSize`. A chunk longer than
      `ChunkSize` is a single punctuated sentence. */
  function SentenceChunks(sentences: seq<string>, i: nat, cur: string): (r: seq<string>)
    requires i <= |sentences|
    ensures forall c :: c in r ==>
      || |c| <= ChunkSize
      || c == Strip(cur)
      || exists k :: i <= k < |sentences| && c == Punctuate(Strip(sentences[k]))
    ensures '\n' !in cur && (forall k :: i <= k < |sentences| ==> '\n' !in sentences[k]) ==>
      forall c :: c in r ==> '\n' !in c
    ensures cur != "" ==> r != []
    decreases |sentences| - i
  {
    if i == |sentences| then (if cur != "" then [Strip(cur)] else [])
    else
      var s := Strip(sentences[i]);
      if s == "" then SentenceChunks(sentences, i + 1, cur)
      else
        var p := Punctuate(s);
        assert '\n' !in sentences[i] ==> '\n' !in p;
        if |cur| + 1 + |p| <= ChunkSize then
          var next := if cur != "" then cur + " " + p else p;
          assert '\n' !in cur && '\n' !in p ==> '\n' !in next;
          SentenceChunks(sentences, i + 1, next)
        else
          StripIdempotent(p);
          (if cur != "" then [Strip(cur)] else []) + SentenceChunks(sentences, i + 1, p)
  }

  /** The stripped, punctuated non-empty sentences from `i` on. */
  function Punctuated(sentences: seq<string>, i: nat): seq<string>
    requires i <= |sentences|
    decreases |sentences| - i
  {
    if i == |sentences| then []
    else
      var s := Strip(sentences[i]);
      (if s == "" then [] else [Punctuate(s)]) + Punctuated(sentences, i + 1)
  }

  /** A punctuated non-empty stripped sentence is itself stripped. */
  lemma PunctuateStripped(s: string)
    requires s != "" && IsStripped(s)
    ensures IsStripped(Punctuate(s)) && Punctuate(s) != ""
  {
    var p := Punctuate(s);
    assert p[0] == s[0];
    assert p[|p| - 1] in SentenceEnds;
  }

  /** The sentence packing loses nothing: joining its chunks with single
      spaces gives the pending chunk followed by every remaining non-empty
      sentence, stripped and punctuated. */
  lemma {:induction false} SentenceChunksJoin(sentences: seq<string>, i: nat, cur: string)
    requires i <= |sentences| && IsStripped(cur)
    ensures Join(SentenceChunks(sentences, i, cur), " ")
         == Join((if cur != "" then [cur] else []) + Punctuated(sentences, i), " ")
    decreases |sentences| - i
  {
    if i == |sentences| {
      StripIdempotent(cur);
      assert Punctuated(sentences, i) == [];
      assert (if cur != "" then [cur] else []) + [] == (if cur != "" then [cur] else []);
    } else {
      var s := Strip(sentences[i]);
      if s == "" {
        SentenceChunksJoin(sentences, i + 1, cur);
        SentenceChunksJoinSkip(sentences, i, cur);
      } else {
        var p := Punctuate(s);
        PunctuateStripped(s);
        if |cur| + 1 + |p| <= ChunkSize {
          var next := if cur != "" then cur + " " + p else p;
          assert IsStripped(next) by {
            if cur != "" { assert next[0] == cur[0] && next[|next| - 1] == p[|p| - 1]; }
          }
          SentenceChunksJoin(sentences, i + 1, next);
          SentenceChunksJoinFit(sentences, i, cur);
        } else {
          SentenceChunksJoin(sentences, i + 1, p);
          SentenceChunksJoinFlush(sentences, i, cur);
        }
      }
    }
  }

  /** The step of `SentenceChunksJoin` past a blank sentence. */
  lemma SentenceChunksJoinSkip(sentences: seq<string>, i: nat, cur: string)
    requires i < |sentences| && Strip(sentences[i]) == ""
    requires Join(SentenceChunks(sentences, i + 1, cur), " ")
          == Join((if cur != "" then [cur] else []) + Punctuated(sentences, i + 1), " ")
    ensures Join(SentenceChunks(sentences, i, cur), " ")
         == Join((if cur != "" then [cur] else []) + Punctuated(sentences, i), " ")
  {
    var tail := Punctuated(sentences, i + 1);
    assert Punctuated(sentences, i) == [] + tail == tail;
    assert SentenceChunks(sentences, i, cur) == SentenceChunks(sentences, i + 1, cur);
  }

  /** The step of `SentenceChunksJoin` that appends a sentence to the pending chunk. */
  lemma SentenceChunksJoinFit(sentences: seq<string>, i: nat, cur: string)
    requires i < |sentences| && Strip(sentences[i]) != ""
    requires |cur| + 1 + |Punctuate(Strip(sentences[i]))| <= ChunkSize
    requires var p := Punctuate(Strip(sentences[i]));
      var next := if cur != "" then cur + " " + p else p;
      Join(SentenceChunks(sentences, i + 1, next), " ")
        == Join((if next != "" then [next] else []) + Punctuated(sentences, i + 1), " ")
    ensures Join(SentenceChunks(sentences, i, cur), " ")
         == Join((if cur != "" then [cur] else []) + Punctuated(sentences, i), " ")
  {
    var s := Strip(sentences[i]);
    var p := Punctuate(s);
    var tail := Punctuated(sentences, i + 1);
    var next := if cur != "" then cur + " " + p else p;
    PunctuateStripped(s);
    assert next != "";
    assert Punctuated(sentences, i) == [p] + tail;
    assert SentenceChunks(sentences, i, cur) == SentenceChunks(sentences, i + 1, next);
    WordsFitJoin(cur, p, tail);
  }

  /** The step of `SentenceChunksJoin` that flushes the pending chunk. */
  lemma SentenceChunksJoinFlush(sentences: seq<string>, i: nat, cur: string)
    requires i < |sentences| && Strip(sentences[i]) != "" && IsStripped(cur)
    requires |cur| + 1 + |Punctuate(Strip(sentences[i]))| > ChunkSize
    requires var p := Punctuate(Strip(sentences[i]));
      Join(SentenceChunks(sentences, i + 1, p), " ") == Join([p] + Punctuated(sentences, i + 1), " ")
    ensures Join(SentenceChunks(sentences, i, cur), " ")
         == Join((if cur != "" then [cur] else []) + Punctuated(sentences, i), " ")
  {
    var s := Strip(sentences[i]);
    var p := Punctuate(s);
    var tail := Punctuated(sentences, i + 1);
    PunctuateStripped(s);
    StripIdempotent(cur);
    assert Punctuated(sentences, i) == [p] + tail;
    var rest := SentenceChunks(sentences, i + 1, p);
    assert rest != [];
    assert SentenceChunks(sentences, i, cur) == (if cur != "" then [cur] else []) + rest;
    WordsFlushJoin(cur, p, tail, rest);
  }

  // ------------------------------------------------------------ _split_large_section

  /** Lines 128-131: the index of the first logical break that occurs in the section. */
  function ChooseBreak(section: string): (r: Option<nat>)
    ensures r.Some? ==> r.value < |LogicalBreaks| && Contains(section, LogicalBreaks[r.value])
    ensures forall j :: 0 <= j < |LogicalBreaks| && (r.None? || j < r.value) ==> !Contains(section, LogicalBreaks[j])
  {
    FirstWhere(LogicalBreaks, b => Contains(section, b))
  }

  lemma BreaksAvoidNewline()
    ensures forall k :: 0 <= k < |LogicalBreaks| ==> '\n' !in LogicalBreaks[k]
  {
    forall k | 0 <= k < |LogicalBreaks| ensures '\n' !in LogicalBreaks[k] {
      assert LogicalBreaks[k] in LogicalBreaks;
    }
  }

  /** One stripped part with its break re-attached and then `rstrip`ped. */
  function Piece(part: string, brk: string): string {
    RStripChars(Strip(part) + brk, brk)
  }

  /** The non-empty stripped parts `parts[a..b]`, each followed by the break. */
  function Glue(parts: seq<string>, a: nat, b: nat, brk: string): string
    requires a <= b <= |parts|
    decreases b - a
  {
    if a == b then ""
    else
      var part := Strip(parts[b - 1]);
      Glue(parts, a, b - 1, brk) + (if part == "" then "" else part + brk)
  }

  /** `c` is a run of consecutive parts from `a` on, glued with the break
      and right-stripped of break characters. */
  predicate GluedRun(parts: seq<string>, brk: string, a: nat, c: string) {
    exists x, y :: a <= x <= y <= |parts| && c == RStripChars(Glue(parts, x, y, brk), brk)
  }

  /** Every chunk of the break packing is a glued run of consecutive parts. */
  lemma {:induction false} PartChunksGlue(parts: seq<string>, i: nat, brk: string, cur: string, maxSize: nat, a: nat)
    requires a <= i <= |parts| && cur == Glue(parts, a, i, brk)
    ensures forall c :: c in PartChunks(parts, i, brk, cur, maxSize) ==> GluedRun(parts, brk, a, c)
    decreases |parts| - i, 1
  {
    if i == |parts| {
      var r := PartChunks(parts, i, brk, cur, maxSize);
      assert r == (if cur != "" then [RStripChars(cur, brk)] else []);
      forall c | c in r ensures GluedRun(parts, brk, a, c) {
        assert c == RStripChars(Glue(parts, a, i, brk), brk);
      }
    } else if Strip(parts[i]) == "" {
      PartChunksGlueSkip(parts, i, brk, cur, maxSize, a);
    } else if |cur + Strip(parts[i]) + brk| <= maxSize {
      PartChunksGlueFit(parts, i, brk, cur, maxSize, a);
    } else {
      PartChunksGlueFlush(parts, i, brk, cur, maxSize, a);
    }
  }

  /** The step of `PartChunksGlue` that skips an empty part. */
  lemma {:induction false} PartChunksGlueSkip(parts: seq<string>, i: nat, brk: string, cur: string, maxSize: nat, a: nat)
    requires a <= i < |parts| && cur == Glue(parts, a, i, brk) && Strip(parts[i]) == ""
    ensures forall c :: c in PartChunks(parts, i, brk, cur, maxSize) ==> GluedRun(parts, brk, a, c)
    decreases |parts| - i, 0
  {
    assert Glue(parts, a, i + 1, brk) == cur + "" == cur;
    assert PartChunks(parts, i, brk, cur, maxSize) == PartChunks(parts, i + 1, brk, cur, maxSize);
    PartChunksGlue(parts, i + 1, brk, cur, maxSize, a);
  }

  /** The step of `PartChunksGlue` that appends a part that fits: the
      pending chunk stays one glued run. */
  lemma {:induction false} PartChunksGlueFit(parts: seq<string>, i: nat, brk: string, cur: string, maxSize: nat, a: nat)
    requires a <= i < |parts| && cur == Glue(parts, a, i, brk)
    requires Strip(parts[i]) != "" && |cur + Strip(parts[i]) + brk| <= maxSize
    ensures forall c :: c in PartChunks(parts, i, brk, cur, maxSize) ==> GluedRun(parts, brk, a, c)
    decreases |parts| - i, 0
  {
    var next := cur + (Strip(parts[i]) + brk);
    PartChunksFitStep(parts, i, brk, cur, maxSize);
    PartChunksGlue(parts, i + 1, brk, next, maxSize, a);
  }

  /** A part that does not fit flushes the pending chunk and starts the next. */
  lemma PartChunksFlushStep(parts: seq<string>, i: nat, brk: string, cur: string, maxSize: nat)
    requires i < |parts| && Strip(parts[i]) != "" && |cur + Strip(parts[i]) + brk| > maxSize
    ensures PartChunks(parts, i, brk, cur, maxSize)
         == (if cur != "" then [RStripChars(cur, brk)] else []) + PartChunks(parts, i + 1, brk, Strip(parts[i]) + brk, maxSize)
  {
    assert cur + Strip(parts[i]) + brk == cur + (Strip(parts[i]) + brk);
  }

  /** Appending a part that fits leaves the chunks to the rest of the parts. */
  lemma PartChunksFitStep(parts: seq<string>, i: nat, brk: string, cur: string, maxSize: nat)
    requires i < |parts| && Strip(parts[i]) != "" && |cur + Strip(parts[i]) + brk| <= maxSize
    ensures PartChunks(parts, i, brk, cur, maxSize)
         == PartChunks(parts, i + 1, brk, cur + (Strip(parts[i]) + brk), maxSize)
  {
    assert cur + Strip(parts[i]) + brk == cur + (Strip(parts[i]) + brk);
  }

  /** The flushing step of `PartChunksGlue`: the pending chunk is one glued
      run and the part that did not fit starts the next. */
  lemma {:induction false} PartChunksGlueFlush(parts: seq<string>, i: nat, brk: string, cur: string, maxSize: nat, a: nat)
    requires a <= i < |parts| && cur == Glue(parts, a, i, brk)
    requires Strip(parts[i]) != "" && |cur + Strip(parts[i]) + brk| > maxSize
    ensures forall c :: c in PartChunks(parts, i, brk, cur, maxSize) ==> GluedRun(parts, brk, a, c)
    decreases |parts| - i, 0
  {
    var withBreak := Strip(parts[i]) + brk;
    assert Glue(parts, i, i + 1, brk) == "" + withBreak == withBreak;
    PartChunksGlue(parts, i + 1, brk, withBreak, maxSize, i);
    var rest := PartChunks(parts, i + 1, brk, withBreak, maxSize);
    PartChunksFlushStep(parts, i, brk, cur, maxSize);
    var head := if cur != "" then [RStripChars(cur, brk)] else [];
    assert forall c :: c in head ==> GluedRun(parts, brk, a, c) by {
      forall c | c in head ensures GluedRun(parts, brk, a, c) {
        assert c == RStripChars(Glue(parts, a, i, brk), brk);
      }
    }
    assert forall c :: c in rest ==> GluedRun(parts, brk, a, c) by {
      forall c | c in rest ensures GluedRun(parts, brk, a, c) {
        GluedRunWiden(parts, brk, a, i, c);
      }
    }
    assert PartChunks(parts, i, brk, cur, maxSize) == head + rest;
  }

  /** A run glued from `i` on is also one glued from any `a <= i` on. */
  lemma GluedRunWiden(parts: seq<string>, brk: string, a: nat, i: nat, c: string)
    requires a <= i && GluedRun(parts, brk, i, c)
    ensures GluedRun(parts, brk, a, c)
  {
    var x, y :| i <= x <= y <= |parts| && c == RStripChars(Glue(parts, x, y, brk), brk);
  }

  /** A part made only of break characters can leave an empty chunk behind:
      when it starts a chunk and the next part does not fit after it, the
      flushed chunk right-strips to nothing. The quality filter drops it later. */
  lemma BreakOnlyPartLeavesEmptyChunk(parts: seq<string>, i: nat, brk: string, cur: string, maxSize: nat)
    requires i + 1 < |parts| && Strip(parts[i]) != "" && Strip(parts[i + 1]) != ""
    requires RStripChars(Strip(parts[i]) + brk, brk) == ""
    requires |cur + Strip(parts[i]) + brk| > maxSize
    requires |Strip(parts[i]) + brk + Strip(parts[i + 1]) + brk| > maxSize
    ensures "" in PartChunks(parts, i, brk, cur, maxSize)
  {
    var withBreak := Strip(parts[i]) + brk;
    PartChunksFlushStep(parts, i, brk, cur, maxSize);
    assert withBreak + Strip(parts[i + 1]) + brk == Strip(parts[i]) + brk + Strip(parts[i + 1]) + brk;
    PartChunksFlushStep(parts, i + 1, brk, withBreak, maxSize);
    assert withBreak != "";
  }

  /** `"- - ".rstrip(" - ")` is empty: the part `-` glued to the break `" - "`. */
  lemma DashPieceIsEmpty()
    ensures Strip("-") == "-" && RStripChars("-" + " - ", " - ") == ""
  {
    StripIdempotent("-");
    assert "-" + " - " == "- - ";
    assert "- - "[..3] == "- -" && "- -"[..2] == "- " && "- "[..1] == "-" && "-"[..0] == "";
  }

  /** Lines 132-151: non-empty stripped parts, each followed by the break,
      accumulate while they fit in `maxSize`; a flushed chunk has trailing
      break characters removed. A chunk longer than `maxSize` is one part. */
  function PartChunks(parts: seq<string>, i: nat, brk: string, cur: string, maxSize: nat): (r: seq<string>)
    requires i <= |parts|
    ensures forall c :: c in r ==>
      || |c| <= maxSize
      || c == RStripChars(cur, brk)
      || exists k :: i <= k < |parts| && c == Piece(parts[k], brk)
    ensures '\n' !in cur && '\n' !in brk && (forall k :: i <= k < |parts| ==> '\n' !in parts[k]) ==>
      forall c :: c in r ==> '\n' !in c
    decreases |parts| - i
  {
    if i == |parts| then (if cur != "" then [RStripChars(cur, brk)] else [])
    else
      var part := Strip(parts[i]);
      if part == "" then PartChunks(parts, i + 1, brk, cur, maxSize)
      else
        var withBreak := part + brk;
        if |cur + withBreak| <= maxSize then PartChunks(parts, i + 1, brk, cur + withBreak, maxSize)
        else
          assert Piece(parts[i], brk) == RStripChars(withBreak, brk);
          (if cur != "" then [RStripChars(cur, brk)] else []) + PartChunks(parts, i + 1, brk, withBreak, maxSize)
  }

  /** Lines 156-168: words accumulate, space-separated, while they fit in
      `maxSize`. A chunk longer than `maxSize` is a single word. */
  function WordChunks(words: seq<string>, i: nat, cur: string, maxSize: nat): (r: seq<string>)
    requires i <= |words|
    ensures forall c :: c in r ==>
      || |c| <= maxSize
      || c == cur
      || exists k :: i <= k < |words| && c == words[k]
    ensures cur != "" ==> |r| > 0
    ensures cur != "" && NonEmptyAll(words) ==> forall c :: c in r ==> c != ""
    ensures '\n' !in cur && (forall k :: i <= k < |words| ==> '\n' !in words[k]) ==>
      forall c :: c in r ==> '\n' !in c
    decreases |words| - i
  {
    if i == |words| then (if cur != "" then [cur] else [])
    else
      var w := words[i];
      if |cur| + 1 + |w| <= maxSize then
        WordChunks(words, i + 1, if cur != "" then cur + " " + w else w, maxSize)
      else
        (if cur != "" then [cur] else []) + WordChunks(words, i + 1, w, maxSize)
  }

  /** The word fallback loses nothing: joining its chunks with single spaces
      gives the pending chunk followed by the remaining words. */
  lemma {:induction false} WordChunksJoin(words: seq<string>, i: nat, cur: string, maxSize: nat)
    requires i <= |words| && NonEmptyAll(words)
    ensures Join(WordChunks(words, i, cur, maxSize), " ")
         == Join((if cur != "" then [cur] else []) + words[i..], " ")
    decreases |words| - i
  {
    if i == |words| {
      assert words[i..] == [];
      assert (if cur != "" then [cur] else []) + words[i..] == (if cur != "" then [cur] else []);
    } else {
      var w := words[i];
      var tail := words[i + 1..];
      assert words[i..] == [w] + tail;
      assert w != "";
      if |cur| + 1 + |w| <= maxSize {
        var next := if cur != "" then cur + " " + w else w;
        assert next != "";
        assert WordChunks(words, i, cur, maxSize) == WordChunks(words, i + 1, next, maxSize);
        WordChunksJoin(words, i + 1, next, maxSize);
        WordsFitJoin(cur, w, tail);
      } else {
        WordChunksJoin(words, i + 1, w, maxSize);
        WordsFlushJoin(cur, w, tail, WordChunks(words, i + 1, w, maxSize));
      }
    }
  }

  /** Appending a word to the pending chunk does not change the joined text. */
  lemma WordsFitJoin(cur: string, w: string, tail: seq<string>)
    ensures Join([if cur != "" then cur + " " + w else w] + tail, " ")
         == Join((if cur != "" then [cur] else []) + ([w] + tail), " ")
  {
    JoinCons(w, tail, " ");
    if cur != "" {
      JoinCons(cur + " " + w, tail, " ");
      JoinCons(cur, [w] + tail, " ");
      assert [cur] + ([w] + tail) == [cur] + [w] + tail;
    } else {
      assert [] + ([w] + tail) == [w] + tail;
    }
  }

  /** Flushing the pending chunk does not change the joined text. */
  lemma WordsFlushJoin(cur: string, w: string, tail: seq<string>, rest: seq<string>)
    requires Join(rest, " ") == Join([w] + tail, " ")
    requires rest != []
    ensures Join((if cur != "" then [cur] else []) + rest, " ")
         == Join((if cur != "" then [cur] else []) + ([w] + tail), " ")
  {
    if cur != "" {
      JoinCons(cur, rest, " ");
      JoinCons(cur, [w] + tail, " ");
    } else {
      assert [] + rest == rest;
      assert [] + ([w] + tail) == [w] + tail;
    }
  }

  /** Lines 132-153: split on the chosen break and accumulate the parts.
      Every chunk fits in `maxSize` or is a single part of the split. */
  function SplitByBreak(section: string, brk: string, maxSize: nat): (r: seq<string>)
    requires |brk| > 0
    ensures forall c :: c in r ==> |c| <= maxSize || exists p :: p in Split(section, brk) && c == Piece(p, brk)
    ensures forall c :: c in r ==> GluedRun(Split(section, brk), brk, 0, c)
    ensures '\n' !in section && '\n' !in brk ==> forall c :: c in r ==> '\n' !in c
  {
    var parts := Split(section, brk);
    PartChunksGlue(parts, 0, brk, "", maxSize, 0);
    PartChunks(parts, 0, brk, "", maxSize)
  }

  /** Lines 155-170: the chunks re-join to exactly the section's words, are
      non-empty, and each fits in `maxSize` or is a single word. */
  function SplitByWords(section: string, maxSize: nat): (r: seq<string>)
    ensures Join(r, " ") == Join(Words(section), " ")
    ensures forall c :: c in r ==> c != "" && (|c| <= maxSize || c in Words(section))
    ensures '\n' !in section ==> forall c :: c in r ==> '\n' !in c
  {
    var words := Words(section);
    WordChunksJoin(words, 0, "", maxSize);
    assert [] + words[0..] == words;
    assert forall k :: 0 <= k < |words| ==> '\n' !in words[k] by {
      forall k | 0 <= k < |words| ensures '\n' !in words[k] {
        assert NoSpace(words[k]);
      }
    }
    WordChunks(words, 0, "", maxSize)
  }

  /** Lines 123-170 (`_split_large_section`): the first logical break that
      occurs decides the split; with none, the words are packed. */
  function SplitLargeSection(section: string, maxSize: nat): (r: seq<string>)
    ensures '\n' !in section ==> forall c :: c in r ==> '\n' !in c
  {
    match ChooseBreak(section)
    case Some(k) =>
      BreaksAvoidNewline();
      SplitByBreak(section, LogicalBreaks[k], maxSize)
    case None => SplitByWords(section, maxSize)
  }

  // ------------------------------------------------------------ split_text

  /** Lines 69-73: the text before the first heading, stripped, kept only
      when it is longer than `MinIntroLength`. */
  function IntroChunks(text: string, first: int): (r: seq<string>)
    requires 0 <= first <= |text|
    ensures |r| <= 1
    ensures r != [] <==> first > 0 && |Strip(text[..first])| > MinIntroLength
    ensures forall c :: c in r ==> c == Strip(text[..first])
  {
    if first > 0 && |Strip(text[..first])| > MinIntroLength then [Strip(text[..first])] else []
  }

  /** Lines 80-86: a section longer than `ChunkSize` is replaced by its split. */
  function Expand(section: string): (r: seq<string>)
    ensures |section| <= ChunkSize ==> r == [section]
    ensures '\n' !in section ==> forall c :: c in r ==> '\n' !in c
  {
    if |section| > ChunkSize then SplitLargeSection(section, ChunkSize) else [section]
  }

  /** Lines 75-78: section `i` runs from its offset to the next offset, or to the end. */
  function SectionBody(text: string, offs: seq<int>, i: nat): (r: string)
    requires Sorted(offs) && (forall x :: x in offs ==> 0 <= x <= |text|) && i < |offs|
    ensures '\n' !in text ==> '\n' !in r
  {
    var stop := if i + 1 < |offs| then offs[i + 1] else |text|;
    assert offs[i] in offs;
    assert i + 1 < |offs| ==> offs[i + 1] in offs && offs[i] <= offs[i + 1];
    Strip(text[offs[i]..stop])
  }

  function SectionsFrom(text: string, offs: seq<int>, i: nat): (r: seq<string>)
    requires Sorted(offs) && (forall x :: x in offs ==> 0 <= x <= |text|) && i <= |offs|
    ensures '\n' !in text ==> forall c :: c in r ==> '\n' !in c
    decreases |offs| - i
  {
    if i == |offs| then [] else Expand(SectionBody(text, offs, i)) + SectionsFrom(text, offs, i + 1)
  }

  /** Lines 114-119: keep the stripped form of every chunk whose stripped
      form is longer than `MinChunkLength` and not all upper-case. */
  predicate Keep(chunk: string) {
    |Strip(chunk)| > MinChunkLength && !IsUpper(Strip(chunk))
  }

  function QualityFilter(chunks: seq<string>): (r: seq<string>)
    ensures |r| <= |chunks|
    ensures forall c :: c in r ==> IsStripped(c) && |c| > MinChunkLength && !IsUpper(c)
    ensures forall c :: c in r ==> exists x :: x in chunks && Keep(x) && c == Strip(x)
    ensures forall x :: x in chunks && Keep(x) ==> Strip(x) in r
    ensures (forall x :: x in chunks ==> '\n' !in x) ==> forall c :: c in r ==> '\n' !in c
    decreases |chunks|
  {
    if |chunks| == 0 then []
    else
      assert chunks == [chunks[0]] + chunks[1..];
      (if Keep(chunks[0]) then [Strip(chunks[0])] else []) + QualityFilter(chunks[1..])
  }

  /** A single chunk is kept, stripped, exactly when it passes the test. */
  lemma QualityFilterSingle(x: string)
    ensures QualityFilter([x]) == if Keep(x) then [Strip(x)] else []
  {
    assert [x][1..] == [];
  }

  /** The filter's recursion on its own, without its contract. */
  function KeptChunks(chunks: seq<string>): seq<string>
    decreases |chunks|
  {
    if |chunks| == 0 then []
    else (if Keep(chunks[0]) then [Strip(chunks[0])] else []) + KeptChunks(chunks[1..])
  }

  lemma {:induction false} QualityFilterIsKept(chunks: seq<string>)
    ensures QualityFilter(chunks) == KeptChunks(chunks)
    decreases |chunks|
  {
    if |chunks| > 0 {
      QualityFilterIsKept(chunks[1..]);
    }
  }

  lemma {:induction false} KeptChunksAppend(a: seq<string>, b: seq<string>)
    ensures KeptChunks(a + b) == KeptChunks(a) + KeptChunks(b)
    decreases |a|
  {
    if a == [] {
      assert a + b == b;
    } else {
      assert (a + b)[0] == a[0] && (a + b)[1..] == a[1..] + b;
      KeptChunksAppend(a[1..], b);
      var h := if Keep(a[0]) then [Strip(a[0])] else [];
      var t, u := KeptChunks(a[1..]), KeptChunks(b);
      assert KeptChunks(a + b) == h + (t + u);
      assert h + (t + u) == (h + t) + u;
    }
  }

  /** The filter works chunk by chunk: it keeps the order of the chunks and
      every repetition, as the list comprehension of lines 115-119 does. */
  lemma QualityFilterAppend(a: seq<string>, b: seq<string>)
    ensures QualityFilter(a + b) == QualityFilter(a) + QualityFilter(b)
  {
    QualityFilterIsKept(a + b);
    QualityFilterIsKept(a);
    QualityFilterIsKept(b);
    KeptChunksAppend(a, b);
  }

  /** The first `n` characters of `s` (Python's `s[:n]`). */
  function Take(s: string, n: nat): (r: string)
    ensures |r| <= n && StartsWith(s, r)
    ensures |s| <= n ==> r == s
  {
    if |s| <= n then s else s[..n]
  }

  /** Lines 65-86: the intro chunk followed by every section, expanded. */
  function SectionChunks(n: string, offs: seq<int>): (r: seq<string>)
    requires Sorted(offs) && (forall x :: x in offs ==> 0 <= x <= |n|) && |offs| > 0
    ensures '\n' !in n ==> forall c :: c in r ==> '\n' !in c
  {
    assert offs[0] in offs;
    IntroChunks(n, offs[0]) + SectionsFrom(n, offs, 0)
  }

  /** Lines 88-112: the no-heading path over the `'. '`-separated sentences. */
  function SentencePath(n: string): (r: seq<string>)
    ensures '\n' !in n ==> forall c :: c in r ==> '\n' !in c
    ensures Join(r, " ") == Join(Punctuated(Split(n, ". "), 0), " ")
  {
    var sentences := Split(n, ". ");
    SentenceChunksJoin(sentences, 0, "");
    assert [] + Punctuated(sentences, 0) == Punctuated(sentences, 0);
    SentenceChunks(sentences, 0, "")
  }

  /** Lines 44-112: the chunks before filtering. */
  function RawChunks(n: string): (r: seq<string>)
    ensures '\n' !in n ==> forall c :: c in r ==> '\n' !in c
  {
    var offs := HeadingOffsets(n);
    if |offs| > 0 then SectionChunks(n, offs) else SentencePath(n)
  }

  /** Lines 35-121 (`split_text`). Empty input gives no chunks; any other
      input gives at least one. Either every chunk is stripped, longer than
      `MinChunkLength` and not all upper-case, or the result is the single
      fallback chunk: the first `ChunkSize` characters of the normalised
      text. No chunk contains a newline. */
  function SplitText(text: string): (r: seq<string>)
    ensures text == "" <==> r == []
    ensures text != "" ==>
      || (forall c :: c in r ==> IsStripped(c) && |c| > MinChunkLength && !IsUpper(c))
      || r == [Take(Normalize(text), ChunkSize)]
    ensures forall c :: c in r ==> '\n' !in c
    ensures text != "" && (forall x :: x in RawChunks(Normalize(text)) ==> !Keep(x)) ==>
      r == [Take(Normalize(text), ChunkSize)]
    ensures text != "" && (exists x :: x in RawChunks(Normalize(text)) && Keep(x)) ==>
      && (forall c :: c in r ==> exists x :: x in RawChunks(Normalize(text)) && Keep(x) && c == Strip(x))
      && (forall x :: x in RawChunks(Normalize(text)) && Keep(x) ==> Strip(x) in r)
      && r == QualityFilter(RawChunks(Normalize(text)))
  {
    if text == "" then []
    else
      var n := Normalize(text);
      var raw := RawChunks(n);
      var kept := QualityFilter(raw);
      if |kept| > 0 then
        assert kept[0] in kept;
        kept
      else
        assert kept == [];
        assert forall x :: x in raw ==> !Keep(x);
        [Take(n, ChunkSize)]
  }
}
