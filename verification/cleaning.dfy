/** The text cleaner shared by both resume analyzers: whitespace runs
    collapse to one space, `|` becomes a space and the bullet `•` is
    padded with spaces (simple_analyzer.py `_clean_text`, and the first
    steps of the one in advanced_analyzer.py). */
module Cleaning {
  import opened Text

  /** The bullet character. */
  const Bullet: char := '\U{2022}'

  /** No whitespace but the plain space, and never two spaces in a row. */
  predicate IsCollapsed(r: string) {
    && (forall k :: 0 <= k < |r| ==> r[k] == ' ' || !IsSpace(r[k]))
    && (forall k :: 0 <= k < |r| - 1 ==> r[k] != ' ' || r[k + 1] != ' ')
  }

  /** Collapsing keeps the non-whitespace characters and the words, in order. */
  lemma {:induction false} CollapseFromKeeps(s: string, i: nat)
    requires i <= |s|
    ensures NonSpaceChars(CollapseFrom(s, i)) == NonSpaceChars(s[i..])
    ensures SpaceRuns(CollapseFrom(s, i)) == SpaceRuns(s[i..])
    decreases |s| - i
  {
    if i < |s| {
      if IsSpace(s[i]) {
        var j := SkipSpaces(s, i);
        var rest := CollapseFrom(s, j);
        CollapseFromKeeps(s, j);
        var u := s[i..j];
        assert AllSpace(u) by {
          forall m | 0 <= m < |u| ensures IsSpace(u[m]) { assert u[m] == s[i + m]; }
        }
        NonSpaceCharsSkip(s, i, j);
        RunsSkip(s, i, j);
        assert CollapseFrom(s, i) == " " + rest;
        assert (" " + rest)[1..] == rest;
      } else {
        var rest := CollapseFrom(s, i + 1);
        CollapseFromKeeps(s, i + 1);
        assert CollapseFrom(s, i) == [s[i]] + rest;
        assert ([s[i]] + rest)[1..] == rest;
        assert s[i..][1..] == s[i + 1..];
      }
    }
  }

  /** `re.sub(r'\s+', ' ', s[i:])`. */
  function CollapseFrom(s: string, i: nat): (r: string)
    requires i <= |s|
    ensures IsCollapsed(r)
    ensures i < |s| && !IsSpace(s[i]) ==> |r| > 0 && r[0] == s[i]
    ensures i < |s| && IsSpace(s[i]) ==> |r| > 0 && r[0] == ' '
    ensures forall c :: !IsSpace(c) ==> (c in r <==> c in s[i..])
    decreases |s| - i
  {
    if i == |s| then ""
    else if IsSpace(s[i]) then
      var j := SkipSpaces(s, i);
      var rest := CollapseFrom(s, j);
      assert forall c :: !IsSpace(c) && c in s[i..] ==> c in s[j..] by {
        forall c | !IsSpace(c) && c in s[i..] ensures c in s[j..] {
          var m :| i <= m < |s| && s[m] == c;
          assert s[j..][m - j] == c;
        }
      }
      assert forall m :: 0 <= m < |rest| ==> (" " + rest)[m + 1] == rest[m];
      " " + rest
    else
      var rest := CollapseFrom(s, i + 1);
      assert s[i..] == [s[i]] + s[i + 1..];
      assert forall m :: 0 <= m < |rest| ==> ([s[i]] + rest)[m + 1] == rest[m];
      [s[i]] + rest
  }

  /** `re.sub(r'\s+', ' ', s)`: every whitespace run becomes one space; the
      non-whitespace characters, and so the words, are kept in order. */
  function Collapse(s: string): (r: string)
    ensures IsCollapsed(r)
    ensures forall c :: !IsSpace(c) ==> (c in r <==> c in s)
    ensures NonSpaceChars(r) == NonSpaceChars(s)
    ensures Words(r) == Words(s)
  {
    assert s[0..] == s;
    CollapseFromKeeps(s, 0);
    CollapseFrom(s, 0)
  }

  /** Collapsing leaves an already collapsed text alone. */
  lemma {:induction false} CollapseFromFixes(s: string, i: nat)
    requires IsCollapsed(s) && i <= |s|
    ensures CollapseFrom(s, i) == s[i..]
    decreases |s| - i
  {
    if i < |s| {
      CollapseFromFixes(s, i + 1);
      if IsSpace(s[i]) {
        assert SkipSpaces(s, i) == i + 1 by {
          if i + 1 < |s| {
            assert !IsSpace(s[i + 1]);
          }
        }
        assert CollapseFrom(s, i) == [s[i]] + CollapseFrom(s, i + 1);
      } else {
        assert CollapseFrom(s, i) == [s[i]] + CollapseFrom(s, i + 1);
      }
      assert s[i..] == [s[i]] + s[i + 1..];
    }
  }

  /** Collapsing twice is collapsing once. */
  lemma CollapseIdempotent(s: string)
    ensures Collapse(Collapse(s)) == Collapse(s)
  {
    CollapseFromFixes(Collapse(s), 0);
  }

  /** simple_analyzer.py lines 48-50, advanced_analyzer.py lines 44-48. */
  function CleanBase(text: string): (r: string)
    ensures '|' !in r
  {
    var collapsed := Collapse(text);
    var noBars := Replace(collapsed, "|", " ");
    ReplaceCharRemoves(collapsed, '|', " ");
    ReplaceAvoids(noBars, [Bullet], " \U{2022} ", '|');
    Replace(noBars, [Bullet], " \U{2022} ")
  }

  /** simple_analyzer.py `_clean_text`: the cleaned text has no `|` and no
      surrounding whitespace. */
  function SimpleClean(text: string): (r: string)
    ensures '|' !in r && IsStripped(r)
  {
    Strip(CleanBase(text))
  }
}
