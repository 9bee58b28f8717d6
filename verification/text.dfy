/** The Python `str` operations the chatbot core relies on, over `seq<char>`.
    Whitespace is Python's own `str.isspace` set; case mapping (`lower`,
    `upper`, `isupper`, `title`) covers the ASCII letters only. */
module Text {

  /** Python's `str.isspace` for one character. */
  predicate IsSpace(c: char) {
    c == ' ' || ('\t' <= c <= '\r') || ('\U{1c}' <= c <= '\U{1f}')
    || c == '\U{85}' || c == '\U{a0}' || c == '\U{1680}'
    || ('\U{2000}' <= c <= '\U{200a}') || c == '\U{2028}' || c == '\U{2029}'
    || c == '\U{202f}' || c == '\U{205f}' || c == '\U{3000}'
  }

  predicate NoSpace(s: string) {
    forall i :: 0 <= i < |s| ==> !IsSpace(s[i])
  }

  predicate AllSpace(s: string) {
    forall i :: 0 <= i < |s| ==> IsSpace(s[i])
  }

  /** The shape `str.strip()` leaves: no whitespace at either end. */
  predicate IsStripped(s: string) {
    s == "" || (!IsSpace(s[0]) && !IsSpace(s[|s| - 1]))
  }

  // ---------------------------------------------------------------- case

  predicate IsAsciiUpper(c: char) { 'A' <= c <= 'Z' }

  predicate IsAsciiLower(c: char) { 'a' <= c <= 'z' }

  predicate IsAsciiLetter(c: char) { IsAsciiUpper(c) || IsAsciiLower(c) }

  function LowerChar(c: char): char {
    if IsAsciiUpper(c) then (c as int + 32) as char else c
  }

  function UpperChar(c: char): char {
    if IsAsciiLower(c) then (c as int - 32) as char else c
  }

  /** `str.lower()`. */
  function Lower(s: string): string {
    seq(|s|, i requires 0 <= i < |s| => LowerChar(s[i]))
  }

  /** `str.upper()`. */
  function Upper(s: string): string {
    seq(|s|, i requires 0 <= i < |s| => UpperChar(s[i]))
  }

  /** `str.isupper()`: at least one cased character and no lower-case one. */
  predicate IsUpper(s: string) {
    && (exists i :: 0 <= i < |s| && IsAsciiUpper(s[i]))
    && (forall i :: 0 <= i < |s| ==> !IsAsciiLower(s[i]))
  }

  /** `str.title()`: a letter is upper-cased after an uncased character and
      lower-cased after a cased one. */
  function Title(s: string): string {
    seq(|s|, i requires 0 <= i < |s| =>
      if i > 0 && IsAsciiLetter(s[i - 1]) then LowerChar(s[i]) else UpperChar(s[i]))
  }

  /** Lower-casing never produces an upper-case letter. */
  lemma LowerHasNoUpper(s: string, i: int)
    requires 0 <= i < |Lower(s)|
    ensures !IsAsciiUpper(Lower(s)[i])
  {
  }

  // ---------------------------------------------------------------- strip

  /** First index at or after `i` that is not whitespace (or `|s|`). */
  function SkipSpaces(s: string, i: nat): (j: nat)
    requires i <= |s|
    ensures i <= j <= |s|
    ensures forall k :: i <= k < j ==> IsSpace(s[k])
    ensures j < |s| ==> !IsSpace(s[j])
    decreases |s| - i
  {
    if i == |s| || !IsSpace(s[i]) then i else SkipSpaces(s, i + 1)
  }

  /** `SkipSpaces` stops exactly at the first non-space. */
  lemma SkipSpacesTo(s: string, i: nat, j: nat)
    requires i <= j <= |s|
    requires forall k :: i <= k < j ==> IsSpace(s[k])
    requires j < |s| ==> !IsSpace(s[j])
    ensures SkipSpaces(s, i) == j
  {
  }

  /** Largest `k` in `[lo, j]` such that `s[lo..k]` ends in a non-space (or `lo`). */
  function TrimEndFrom(s: string, lo: nat, j: nat): (k: nat)
    requires lo <= j <= |s|
    ensures lo <= k <= j
    ensures forall m :: k <= m < j ==> IsSpace(s[m])
    ensures k > lo ==> !IsSpace(s[k - 1])
    decreases j
  {
    if j == lo || !IsSpace(s[j - 1]) then j else TrimEndFrom(s, lo, j - 1)
  }

  /** `str.strip()` with no argument. */
  function Strip(s: string): (r: string)
    ensures IsStripped(r)
    ensures |r| <= |s|
    ensures r == "" <==> AllSpace(s)
    ensures forall c :: c in r ==> c in s
  {
    var a := SkipSpaces(s, 0);
    s[a..TrimEndFrom(s, a, |s|)]
  }

  /** Stripping removes exactly the surrounding whitespace: whatever padding
      surrounds an already-stripped string, `Strip` gives that string back. */
  lemma StripOfPadded(p: string, r: string, q: string)
    requires AllSpace(p) && AllSpace(q) && IsStripped(r)
    ensures Strip(p + r + q) == r
  {
    var s := p + r + q;
    if r == "" {
      assert s == p + q;
      assert AllSpace(s) by {
        forall i | 0 <= i < |s| ensures IsSpace(s[i]) {
          if i < |p| { assert s[i] == p[i]; } else { assert s[i] == q[i - |p|]; }
        }
      }
    } else {
      var a := SkipSpaces(s, 0);
      assert s[|p|] == r[0];
      forall k | 0 <= k < |p| ensures IsSpace(s[k]) { assert s[k] == p[k]; }
      assert a == |p|;
      var e := |p| + |r|;
      assert s[e - 1] == r[|r| - 1];
      forall m | e <= m < |s| ensures IsSpace(s[m]) { assert s[m] == q[m - e]; }
      var k := TrimEndFrom(s, a, |s|);
      assert k == e;
      assert s[a..k] == r;
    }
  }

  /** Every string is its strip padded with whitespace on both sides. */
  lemma StripPadding(x: string) returns (p: string, q: string)
    ensures AllSpace(p) && AllSpace(q) && x == p + Strip(x) + q
  {
    var a := SkipSpaces(x, 0);
    var k := TrimEndFrom(x, a, |x|);
    p, q := x[..a], x[k..];
    assert x == x[..a] + x[a..k] + x[k..];
  }

  /** Stripping a slice leaves a slice: only whitespace is cut from either side. */
  lemma StripSliceBounds(s: string, lo: nat, hi: nat)
    requires lo <= hi <= |s|
    ensures exists a, b ::
      lo <= a <= b <= hi && Strip(s[lo..hi]) == s[a..b] && AllSpace(s[lo..a]) && AllSpace(s[b..hi])
  {
    var t := s[lo..hi];
    var a := SkipSpaces(t, 0);
    var k := TrimEndFrom(t, a, |t|);
    var x, y := t[a..k], s[lo + a..lo + k];
    assert Strip(t) == x;
    forall m | 0 <= m < |x| ensures x[m] == y[m] { assert x[m] == t[a + m] == s[lo + a + m]; }
    assert x == y;
    var u, v := s[lo..lo + a], s[lo + k..hi];
    assert AllSpace(u) by {
      forall m | 0 <= m < |u| ensures IsSpace(u[m]) { assert u[m] == t[m]; }
    }
    assert AllSpace(v) by {
      forall m | 0 <= m < |v| ensures IsSpace(v[m]) { assert v[m] == t[k + m]; }
    }
  }

  lemma AllSpaceAppend(a: string, b: string)
    requires AllSpace(a) && AllSpace(b)
    ensures AllSpace(a + b)
  {
    forall i | 0 <= i < |a + b| ensures IsSpace((a + b)[i]) {
      if i < |a| { assert (a + b)[i] == a[i]; } else { assert (a + b)[i] == b[i - |a|]; }
    }
  }

  lemma AppendRegroupRight(a: string, b: string, c: string, d: string)
    ensures (a + b + c) + d == a + b + (c + d)
  {
  }

  lemma AppendRegroupLeft(a: string, b: string, c: string, d: string)
    ensures a + (b + c + d) == (a + b) + c + d
  {
  }

  /** Trailing whitespace does not change the strip. */
  lemma StripDropsSpaceSuffix(x: string, w: string)
    requires AllSpace(w)
    ensures Strip(x + w) == Strip(x)
  {
    var p, q := StripPadding(x);
    AllSpaceAppend(q, w);
    AppendRegroupRight(p, Strip(x), q, w);
    StripOfPadded(p, Strip(x), q + w);
  }

  /** Leading whitespace does not change the strip. */
  lemma StripDropsSpacePrefix(w: string, x: string)
    requires AllSpace(w)
    ensures Strip(w + x) == Strip(x)
  {
    var p, q := StripPadding(x);
    AllSpaceAppend(w, p);
    AppendRegroupLeft(w, p, Strip(x), q);
    StripOfPadded(w + p, Strip(x), q);
  }

  /** A stripped string is its own strip. */
  lemma StripIdempotent(s: string)
    requires IsStripped(s)
    ensures Strip(s) == s
  {
    StripOfPadded("", s, "");
    assert "" + s + "" == s;
  }

  /** `str.rstrip(chars)`: drop trailing characters that belong to `chars`. */
  function RStripChars(s: string, chars: string): (r: string)
    ensures |r| <= |s| && r == s[..|r|]
    ensures r == "" || r[|r| - 1] !in chars
    ensures forall i :: |r| <= i < |s| ==> s[i] in chars
    decreases |s|
  {
    if |s| == 0 || s[|s| - 1] !in chars then s else RStripChars(s[..|s| - 1], chars)
  }

  // ---------------------------------------------------------------- search

  predicate OccursAt(s: string, pat: string, j: int) {
    0 <= j && j + |pat| <= |s| && s[j..j + |pat|] == pat
  }

  /** A string ends with an occurrence of its last part. */
  lemma OccursAtEnd(a: string, pat: string)
    ensures OccursAt(a + pat, pat, |a|)
  {
    assert (a + pat)[|a|..|a| + |pat|] == pat;
  }

  /** Appending to a string keeps its occurrences. */
  lemma OccursExtend(s: string, t: string, pat: string, j: int)
    requires OccursAt(s, pat, j)
    ensures OccursAt(s + t, pat, j)
  {
    assert (s + t)[j..j + |pat|] == s[j..j + |pat|];
  }

  /** Leftmost occurrence of `pat` in `s` at or after `i`, or -1. */
  function FindFrom(s: string, pat: string, i: nat): (r: int)
    requires i <= |s|
    ensures r == -1 || (i <= r && OccursAt(s, pat, r))
    ensures forall j :: i <= j && (r == -1 || j < r) ==> !OccursAt(s, pat, j)
    decreases |s| - i
  {
    if i + |pat| > |s| then -1
    else if s[i..i + |pat|] == pat then i
    else FindFrom(s, pat, i + 1)
  }

  /** `str.find`: the first offset of `pat` in `s`, or -1. */
  function Find(s: string, pat: string): (r: int)
    ensures r == -1 || OccursAt(s, pat, r)
    ensures forall j :: 0 <= j && (r == -1 || j < r) ==> !OccursAt(s, pat, j)
  {
    FindFrom(s, pat, 0)
  }

  /** Python's `pat in s`. */
  predicate Contains(s: string, pat: string) {
    Find(s, pat) >= 0
  }

  /** `pat in s` holds exactly when `pat` occurs at some offset. */
  lemma ContainsIff(s: string, pat: string, j: int)
    requires OccursAt(s, pat, j)
    ensures Contains(s, pat)
  {
  }

  /** A match in the tail of a concatenation is a match in the whole. */
  lemma ContainsInSuffix(a: string, b: string, pat: string)
    requires Contains(b, pat)
    ensures Contains(a + b, pat)
  {
    var j := Find(b, pat);
    OccursShift(a, b, pat, j);
    ContainsIff(a + b, pat, |a| + j);
  }

  /** A match in the head of a concatenation is a match in the whole. */
  lemma ContainsInPrefix(a: string, b: string, pat: string)
    requires Contains(a, pat)
    ensures Contains(a + b, pat)
  {
    var j := Find(a, pat);
    assert (a + b)[j..j + |pat|] == a[j..j + |pat|];
    ContainsIff(a + b, pat, j);
  }

  /** `pat in m` and `m in s` give `pat in s`. */
  lemma ContainsTrans(s: string, m: string, pat: string)
    requires Contains(s, m) && Contains(m, pat)
    ensures Contains(s, pat)
  {
    var j := Find(s, m);
    var i := Find(m, pat);
    OccursWithin(s, m, pat, j, i);
    ContainsIff(s, pat, j + i);
  }

  /** A pattern holding a character the text lacks does not occur in it. */
  lemma AbsentByChar(s: string, pat: string, i: nat)
    requires i < |pat| && pat[i] !in s
    ensures !Contains(s, pat)
  {
  }

  /** An occurrence of `a` at `j` carries every occurrence inside `a` along with it. */
  lemma OccursWithin(s: string, a: string, b: string, j: int, m: int)
    requires OccursAt(s, a, j) && OccursAt(a, b, m)
    ensures OccursAt(s, b, j + m)
  {
    forall t | 0 <= t < |b| ensures s[j + m + t] == b[t] {
      assert a[m + t] == b[t];
      assert s[j + m + t] == a[m + t];
    }
    assert s[j + m..j + m + |b|] == b;
  }

  /** An occurrence of a one-character pattern is that character. */
  lemma OccursAtChar(s: string, c: char, j: int)
    ensures OccursAt(s, [c], j) <==> 0 <= j < |s| && s[j] == c
  {
    if 0 <= j < |s| {
      assert s[j..j + 1] == [s[j]];
    }
  }

  /** A string in which `pat` occurs contains it after any prefix too. */
  lemma OccursShift(a: string, b: string, pat: string, j: int)
    requires OccursAt(b, pat, j)
    ensures OccursAt(a + b, pat, |a| + j)
  {
    assert (a + b)[|a| + j..|a| + j + |pat|] == b[j..j + |pat|];
  }

  /** An occurrence in `a + b` past `|a|` is an occurrence in `b`. */
  lemma OccursUnshift(a: string, b: string, pat: string, j: int)
    requires OccursAt(a + b, pat, j) && j >= |a|
    ensures OccursAt(b, pat, j - |a|)
  {
    assert (a + b)[j..j + |pat|] == b[j - |a|..j - |a| + |pat|];
  }

  predicate StartsWith(s: string, prefix: string) {
    |prefix| <= |s| && s[..|prefix|] == prefix
  }

  predicate EndsWith(s: string, suffix: string) {
    |suffix| <= |s| && s[|s| - |suffix|..] == suffix
  }

  // ---------------------------------------------------------------- split, join, replace

  /** `s.split(sep)` for a non-empty separator. */
  function Split(s: string, sep: string): (r: seq<string>)
    requires |sep| > 0
    ensures |r| >= 1
    ensures forall i, c :: 0 <= i < |r| && c in r[i] ==> c in s
    decreases |s|
  {
    var k := Find(s, sep);
    if k < 0 then [s]
    else
      var rest := s[k + |sep|..];
      var tail := Split(rest, sep);
      assert forall c :: c in rest ==> c in s;
      assert forall i, c :: 1 <= i < |tail| + 1 && c in ([s[..k]] + tail)[i] ==> c in tail[i - 1];
      [s[..k]] + tail
  }

  /** `sep.join(xs)`. */
  function Join(xs: seq<string>, sep: string): string
    decreases |xs|
  {
    if |xs| == 0 then "" else if |xs| == 1 then xs[0] else xs[0] + sep + Join(xs[1..], sep)
  }

  /** One step of `Split` at the leftmost separator. */
  lemma SplitStep(s: string, sep: string)
    requires |sep| > 0 && Find(s, sep) >= 0
    ensures var k := Find(s, sep);
      Split(s, sep) == [s[..k]] + Split(s[k + |sep|..], sep)
  {
  }

  /** A string is its prefix, the separator found at `k`, and the rest. */
  lemma CutAround(s: string, sep: string, k: int)
    requires OccursAt(s, sep, k)
    ensures s == s[..k] + sep + s[k + |sep|..]
  {
    assert s == s[..k] + s[k..k + |sep|] + s[k + |sep|..];
  }

  /** Splitting and re-joining with the same separator gives the text back. */
  lemma {:induction false} SplitJoin(s: string, sep: string)
    requires |sep| > 0
    ensures Join(Split(s, sep), sep) == s
    decreases |s|
  {
    var k := Find(s, sep);
    if k >= 0 {
      var rest := s[k + |sep|..];
      var tail := Split(rest, sep);
      SplitJoin(rest, sep);
      SplitStep(s, sep);
      JoinCons(s[..k], tail, sep);
      CutAround(s, sep, k);
    }
  }

  /** Splitting on a single character that does not occur in `a` cuts right after `a`. */
  lemma SplitAfterCharFree(a: string, c: char, b: string)
    requires c !in a
    ensures Split(a + [c] + b, [c]) == [a] + Split(b, [c])
  {
    var s := a + [c] + b;
    OccursAtChar(s, c, |a|);
    forall j | 0 <= j < |a| ensures !OccursAt(s, [c], j) {
      OccursAtChar(s, c, j);
      assert s[j] == a[j];
    }
    var k := Find(s, [c]);
    assert k == |a|;
    assert s[..k] == a;
    assert s[k + 1..] == b;
  }

  /** Joining words and then re-joining a longer list with the same separator. */
  lemma {:induction false} JoinAppend(xs: seq<string>, ys: seq<string>, sep: string)
    requires |xs| > 0 && |ys| > 0
    ensures Join(xs + ys, sep) == Join(xs, sep) + sep + Join(ys, sep)
    decreases |xs|
  {
    if |xs| == 1 {
      assert (xs + ys)[1..] == ys;
    } else {
      assert (xs + ys)[1..] == xs[1..] + ys;
      JoinAppend(xs[1..], ys, sep);
    }
  }

  /** Joining a head onto a list adds one separator unless the list is empty. */
  lemma JoinCons(a: string, xs: seq<string>, sep: string)
    ensures Join([a] + xs, sep) == if xs == [] then a else a + sep + Join(xs, sep)
  {
    assert ([a] + xs)[1..] == xs;
  }

  /** Joining strings that avoid a character with a separator that avoids it
      gives a string that avoids it. */
  lemma {:induction false} JoinAvoids(xs: seq<string>, sep: string, c: char)
    requires c !in sep
    requires forall i :: 0 <= i < |xs| ==> c !in xs[i]
    ensures c !in Join(xs, sep)
    decreases |xs|
  {
    if |xs| > 1 {
      JoinAvoids(xs[1..], sep, c);
    }
  }

  /** Every piece of `''.join(parts)` occurs in it. */
  lemma {:induction false} JoinShows(parts: seq<string>, k: nat)
    requires k < |parts|
    ensures Contains(Join(parts, ""), parts[k])
    decreases k
  {
    assert parts == [parts[0]] + parts[1..];
    JoinCons(parts[0], parts[1..], "");
    var rest := Join(parts[1..], "");
    assert Join(parts, "") == if parts[1..] == [] then parts[0] else parts[0] + "" + rest;
    if k == 0 {
      ContainsIff(parts[0], parts[0], 0);
      if parts[1..] != [] {
        ContainsInPrefix(parts[0], rest, parts[0]);
        assert parts[0] + "" + rest == parts[0] + rest;
      }
    } else {
      JoinShows(parts[1..], k - 1);
      assert parts[1..][k - 1] == parts[k];
      ContainsInSuffix(parts[0], rest, parts[k]);
      assert parts[0] + "" + rest == parts[0] + rest;
    }
  }

  /** `''.join(parts)` starts with the first character of its first part. */
  lemma JoinHead(parts: seq<string>)
    requires |parts| > 0 && |parts[0]| > 0
    ensures |Join(parts, "")| > 0 && Join(parts, "")[0] == parts[0][0]
  {
    assert parts == [parts[0]] + parts[1..];
    JoinCons(parts[0], parts[1..], "");
  }

  /** Every item of `sep.join(xs)` occurs in it. */
  lemma {:induction false} JoinContains(xs: seq<string>, sep: string, k: nat)
    requires k < |xs|
    ensures Contains(Join(xs, sep), xs[k])
    decreases k
  {
    ContainsIff(xs[k], xs[k], 0);
    if |xs| > 1 {
      var rest := Join(xs[1..], sep);
      AppendRegroup(xs[0], sep, rest);
      if k == 0 {
        ContainsInPrefix(xs[0], sep + rest, xs[0]);
      } else {
        JoinContains(xs[1..], sep, k - 1);
        assert xs[1..][k - 1] == xs[k];
        ContainsInSuffix(sep, rest, xs[k]);
        ContainsInSuffix(xs[0], sep + rest, xs[k]);
      }
    }
  }

  lemma AppendRegroup(a: string, b: string, c: string)
    ensures a + b + c == a + (b + c)
  {
  }

  /** `s.replace(pat, repl)` for a non-empty pattern: leftmost, non-overlapping. */
  function Replace(s: string, pat: string, repl: string): (r: string)
    requires |pat| > 0
    decreases |s|
  {
    var k := Find(s, pat);
    if k < 0 then s else s[..k] + repl + Replace(s[k + |pat|..], pat, repl)
  }

  /** Replacing a pattern that does not occur changes nothing. */
  lemma ReplaceAbsent(s: string, pat: string, repl: string)
    requires |pat| > 0 && !Contains(s, pat)
    ensures Replace(s, pat, repl) == s
  {
  }

  /** A leading occurrence is replaced and the rest is processed on its own. */
  lemma ReplaceLeading(pat: string, t: string, repl: string)
    requires |pat| > 0
    ensures Replace(pat + t, pat, repl) == repl + Replace(t, pat, repl)
  {
    var s := pat + t;
    assert s[0..|pat|] == pat;
    assert Find(s, pat) == 0;
    assert s[|pat|..] == t;
  }

  /** One step of `Replace` at the leftmost occurrence. */
  lemma ReplaceStep(s: string, pat: string, repl: string)
    requires |pat| > 0 && Find(s, pat) >= 0
    ensures var k := Find(s, pat);
      Replace(s, pat, repl) == s[..k] + repl + Replace(s[k + |pat|..], pat, repl)
  {
  }

  /** A replacement introduces no character that neither the text nor the
      replacement holds. */
  lemma {:induction false} ReplaceAvoids(s: string, pat: string, repl: string, c: char)
    requires |pat| > 0 && c !in s && c !in repl
    ensures c !in Replace(s, pat, repl)
    decreases |s|
  {
    var k := Find(s, pat);
    if k >= 0 {
      var rest := s[k + |pat|..];
      assert c !in rest by {
        forall m | 0 <= m < |rest| ensures rest[m] != c { assert rest[m] == s[k + |pat| + m]; }
      }
      ReplaceAvoids(rest, pat, repl, c);
      ReplaceStep(s, pat, repl);
      assert c !in s[..k] by {
        forall m | 0 <= m < k ensures s[..k][m] != c { assert s[..k][m] == s[m]; }
      }
    }
  }

  /** A character with no occurrence before `k` is absent from `s[..k]`. */
  lemma CharFreeBefore(s: string, c: char, k: int)
    requires 0 <= k <= |s|
    requires forall j :: 0 <= j < k ==> !OccursAt(s, [c], j)
    ensures c !in s[..k]
  {
    forall j | 0 <= j < k ensures s[..k][j] != c {
      OccursAtChar(s, c, j);
    }
  }

  /** Replacing every occurrence of a character by a text without it removes the character. */
  lemma {:induction false} ReplaceCharRemoves(s: string, c: char, repl: string)
    requires c !in repl
    ensures c !in Replace(s, [c], repl)
    decreases |s|
  {
    var k := Find(s, [c]);
    if k >= 0 {
      CharFreeBefore(s, c, k);
      ReplaceCharRemoves(s[k + 1..], c, repl);
      ReplaceStep(s, [c], repl);
    } else {
      CharFreeBefore(s, c, |s|);
      assert s[..|s|] == s;
    }
  }

  /** Replacing a character keeps every other character that was present. */
  lemma {:induction false} ReplaceCharKeeps(s: string, c: char, repl: string, d: char)
    requires d in s && d != c
    ensures d in Replace(s, [c], repl)
    decreases |s|
  {
    var k := Find(s, [c]);
    if k >= 0 {
      OccursAtChar(s, c, k);
      assert s == s[..k] + [c] + s[k + 1..];
      if d !in s[..k] {
        ReplaceCharKeeps(s[k + 1..], c, repl, d);
      }
    }
  }

  // ---------------------------------------------------------------- words

  /** First whitespace index at or after `i` (or `|s|`). */
  function SkipWord(s: string, i: nat): (j: nat)
    requires i <= |s|
    ensures i <= j <= |s|
    ensures forall k :: i <= k < j ==> !IsSpace(s[k])
    ensures j < |s| ==> IsSpace(s[j])
    decreases |s| - i
  {
    if i == |s| || IsSpace(s[i]) then i else SkipWord(s, i + 1)
  }

  function WordsFrom(s: string, i: nat): (r: seq<string>)
    requires i <= |s|
    ensures forall k :: 0 <= k < |r| ==> r[k] != "" && NoSpace(r[k])
    ensures r == [] <==> forall k :: i <= k < |s| ==> IsSpace(s[k])
    decreases |s| - i
  {
    var j := SkipSpaces(s, i);
    if j == |s| then []
    else
      var e := SkipWord(s, j);
      var w := s[j..e];
      assert NoSpace(w) by {
        forall m | 0 <= m < |w| ensures !IsSpace(w[m]) { assert w[m] == s[j + m]; }
      }
      [w] + WordsFrom(s, e)
  }

  /** Reference reading of `s.split()`, one character at a time: whitespace
      separates, and a non-whitespace character starts a word or, when the
      next character is also non-whitespace, joins the word that follows. */
  function SpaceRuns(s: string): (r: seq<string>)
    ensures |s| > 0 && !IsSpace(s[0]) ==> r != [] && r[0] != "" && r[0][0] == s[0]
    decreases |s|
  {
    if s == "" then []
    else
      var rest := SpaceRuns(s[1..]);
      if IsSpace(s[0]) then rest
      else if |s| > 1 && !IsSpace(s[1]) then [[s[0]] + rest[0]] + rest[1..]
      else [[s[0]]] + rest
  }

  /** The words found from `i` on are the runs of the suffix `s[i..]`. */
  lemma {:induction false} WordsFromRuns(s: string, i: nat)
    requires i <= |s|
    ensures WordsFrom(s, i) == SpaceRuns(s[i..])
    decreases |s| - i
  {
    if i < |s| {
      var t := s[i..];
      assert t[1..] == s[i + 1..];
      WordsFromRuns(s, i + 1);
      if !IsSpace(s[i]) {
        var e := SkipWord(s, i);
        assert WordsFrom(s, i) == [s[i..e]] + WordsFrom(s, e);
        if i + 1 < |s| && !IsSpace(s[i + 1]) {
          assert SkipWord(s, i + 1) == e;
          assert WordsFrom(s, i + 1) == [s[i + 1..e]] + WordsFrom(s, e);
          assert s[i..e] == [s[i]] + s[i + 1..e];
        } else {
          assert e == i + 1;
          assert s[i..e] == [s[i]];
        }
      }
    }
  }

  /** `s.split()`: the maximal runs of non-whitespace, in order. */
  function Words(s: string): (r: seq<string>)
    ensures forall k :: 0 <= k < |r| ==> r[k] != "" && NoSpace(r[k])
    ensures r == [] <==> AllSpace(s)
    ensures r == SpaceRuns(s)
  {
    WordsFromRuns(s, 0);
    assert s[0..] == s;
    WordsFrom(s, 0)
  }

  /** A word followed by whitespace (or by nothing) is a run of its own. */
  lemma {:induction false} RunsOfWord(w: string, t: string)
    requires w != "" && NoSpace(w) && (t == "" || IsSpace(t[0]))
    ensures SpaceRuns(w + t) == [w] + SpaceRuns(t)
    decreases |w|
  {
    var s := w + t;
    assert s[1..] == w[1..] + t;
    if |w| > 1 {
      RunsOfWord(w[1..], t);
      assert s[1] == w[1];
      assert [s[0]] + w[1..] == w;
    } else {
      assert w == [s[0]];
    }
  }

  /** Splitting words joined by single spaces gives the words back. */
  lemma {:induction false} WordsOfJoin(ws: seq<string>)
    requires forall k :: 0 <= k < |ws| ==> ws[k] != "" && NoSpace(ws[k])
    ensures Words(Join(ws, " ")) == ws
    decreases |ws|
  {
    if |ws| == 1 {
      RunsOfWord(ws[0], "");
      assert ws[0] + "" == ws[0];
    } else if |ws| > 1 {
      var t := Join(ws[1..], " ");
      WordsOfJoin(ws[1..]);
      RunsOfWord(ws[0], " " + t);
      assert (" " + t)[1..] == t;
      assert ws[0] + " " + t == ws[0] + (" " + t);
      assert ws == [ws[0]] + ws[1..];
    }
  }

  /** Two texts that agree everywhere except where both hold whitespace
      have the same words. */
  lemma {:induction false} RunsAgree(s: string, t: string)
    requires |s| == |t|
    requires forall i :: 0 <= i < |s| ==> s[i] == t[i] || (IsSpace(s[i]) && IsSpace(t[i]))
    ensures SpaceRuns(s) == SpaceRuns(t)
    decreases |s|
  {
    if |s| > 0 {
      RunsAgree(s[1..], t[1..]);
    }
  }

  /** Character `c` replaced by `d` throughout, everything else kept in place. */
  function SwapChar(s: string, c: char, d: char): (r: string)
    ensures |r| == |s|
    ensures forall i :: 0 <= i < |s| ==> r[i] == (if s[i] == c then d else s[i])
  {
    seq(|s|, i requires 0 <= i < |s| => if s[i] == c then d else s[i])
  }

  /** `s.replace(c, d)` for single characters changes exactly the occurrences of `c`. */
  lemma {:induction false} ReplaceCharSwaps(s: string, c: char, d: char)
    ensures Replace(s, [c], [d]) == SwapChar(s, c, d)
    decreases |s|
  {
    var k := Find(s, [c]);
    if k >= 0 {
      OccursAtChar(s, c, k);
      CharFreeBefore(s, c, k);
      ReplaceCharSwaps(s[k + 1..], c, d);
      ReplaceStep(s, [c], [d]);
      var r := Replace(s, [c], [d]);
      assert r == s[..k] + [d] + SwapChar(s[k + 1..], c, d);
      forall i | 0 <= i < |s| ensures r[i] == SwapChar(s, c, d)[i] {
        if i < k { assert s[..k][i] == s[i] && s[i] != c by { assert s[i] in s[..k]; } }
      }
    } else {
      CharFreeBefore(s, c, |s|);
      assert s[..|s|] == s;
      forall i | 0 <= i < |s| ensures s[i] != c { assert s[i] in s[..|s|]; }
    }
  }

  /** Turning one whitespace character into a space keeps the words. */
  lemma WordsSwapSpace(s: string, c: char)
    requires IsSpace(c)
    ensures Words(Replace(s, [c], " ")) == Words(s)
  {
    ReplaceCharSwaps(s, c, ' ');
    RunsAgree(SwapChar(s, c, ' '), s);
  }

  /** Leading whitespace starts no run. */
  lemma {:induction false} RunsSkip(s: string, i: nat, j: nat)
    requires i <= j <= |s| && AllSpace(s[i..j])
    ensures SpaceRuns(s[i..]) == SpaceRuns(s[j..])
    decreases j - i
  {
    if i < j {
      assert s[i..][1..] == s[i + 1..];
      assert s[i..j][0] == s[i];
      var u, v := s[i + 1..j], s[i..j];
      assert AllSpace(u) by {
        forall m | 0 <= m < |u| ensures IsSpace(u[m]) { assert u[m] == v[m + 1]; }
      }
      RunsSkip(s, i + 1, j);
    }
  }

  /** The non-whitespace characters of `s`, in order. */
  function NonSpaceChars(s: string): (r: string)
    ensures NoSpace(r) && |r| <= |s|
    decreases |s|
  {
    if s == "" then ""
    else
      var rest := NonSpaceChars(s[1..]);
      if IsSpace(s[0]) then rest
      else
        assert forall m :: 0 <= m < |rest| ==> ([s[0]] + rest)[m + 1] == rest[m];
        [s[0]] + rest
  }

  /** Leading whitespace holds no non-whitespace character. */
  lemma {:induction false} NonSpaceCharsSkip(s: string, i: nat, j: nat)
    requires i <= j <= |s| && AllSpace(s[i..j])
    ensures NonSpaceChars(s[i..]) == NonSpaceChars(s[j..])
    decreases j - i
  {
    if i < j {
      assert s[i..][1..] == s[i + 1..];
      assert s[i..j][0] == s[i];
      var u, v := s[i + 1..j], s[i..j];
      assert AllSpace(u) by {
        forall m | 0 <= m < |u| ensures IsSpace(u[m]) { assert u[m] == v[m + 1]; }
      }
      NonSpaceCharsSkip(s, i + 1, j);
    }
  }

  // ---------------------------------------------------------------- numerals

  predicate IsDigit(c: char) { '0' <= c <= '9' }

  function DigitChar(d: nat): (c: char)
    requires d < 10
    ensures IsDigit(c)
  {
    ('0' as int + d) as char
  }

  /** `str(n)` for a natural number. */
  function NatToString(n: nat): (r: string)
    ensures |r| >= 1
    ensures forall i :: 0 <= i < |r| ==> IsDigit(r[i])
    decreases n
  {
    if n < 10 then [DigitChar(n)] else NatToString(n / 10) + [DigitChar(n % 10)]
  }

  /** `int(s)` for a string of decimal digits. */
  function ParseNat(s: string): nat
    requires forall i :: 0 <= i < |s| ==> IsDigit(s[i])
    decreases |s|
  {
    if |s| == 0 then 0
    else
      var last := s[|s| - 1];
      assert IsDigit(last);
      ParseNat(s[..|s| - 1]) * 10 + (last as int - '0' as int)
  }

  /** Reading back a rendered number gives the number. */
  lemma {:induction false} ParseNatToString(n: nat)
    ensures ParseNat(NatToString(n)) == n
    decreases n
  {
    if n >= 10 {
      ParseNatToString(n / 10);
      var r := NatToString(n);
      assert r[..|r| - 1] == NatToString(n / 10);
    }
  }
}
