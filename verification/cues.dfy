/** The keyword tests every extractor and router of the chatbot is built from:
    `'phrase' in text.lower()`, `'phrase' in text`, their conjunctions and
    disjunctions, `any(word in text for word in words)`, and the
    vocabulary filter `[v for v in vocab if v.lower() in text.lower()]`. */
module Cues {
  import opened Text
  import opened Seqs

  /** One condition an extractor tests on its text. */
  datatype Test =
    | Mentions(phrase: string)     // `phrase in text.lower()`, phrase written in lower case
    | Verbatim(phrase: string)     // `phrase in text`
    | Both(left: Test, right: Test)
    | Either(left: Test, right: Test)

  predicate Passes(t: Test, text: string) {
    match t
    case Mentions(p) => Contains(Lower(text), p)
    case Verbatim(p) => Contains(text, p)
    case Both(a, b) => Passes(a, text) && Passes(b, text)
    case Either(a, b) => Passes(a, text) || Passes(b, text)
  }

  /** `any(word in text for word in words)`. */
  predicate AnyIn(text: string, words: seq<string>) {
    exists k :: 0 <= k < |words| && Contains(text, words[k])
  }

  /** A list that gains `payload` when `test` passes, rule after rule. */
  type Rules<T> = seq<(Test, T)>

  function Payloads<T>(rules: Rules<T>): (r: seq<T>)
    ensures |r| == |rules|
    ensures forall k :: 0 <= k < |rules| ==> r[k] == rules[k].1
  {
    seq(|rules|, k requires 0 <= k < |rules| => rules[k].1)
  }

  /** The sequence of `if test: result.append(payload)` statements: the
      payloads whose test passes, in rule order. */
  function Select<T(==)>(rules: Rules<T>, text: string): (r: seq<T>)
    ensures |r| <= |rules|
    ensures IsSubsequence(r, Payloads(rules))
    ensures forall k :: 0 <= k < |rules| && Passes(rules[k].0, text) ==> rules[k].1 in r
    ensures forall x :: x in r ==> exists k :: 0 <= k < |rules| && rules[k].1 == x && Passes(rules[k].0, text)
    decreases |rules|
  {
    if |rules| == 0 then []
    else
      var rest := Select(rules[1..], text);
      assert Payloads(rules) == [rules[0].1] + Payloads(rules[1..]);
      assert forall x :: x in rest ==> exists k :: 0 <= k < |rules| && rules[k].1 == x && Passes(rules[k].0, text) by {
        forall x | x in rest ensures exists k :: 0 <= k < |rules| && rules[k].1 == x && Passes(rules[k].0, text) {
          var k :| 0 <= k < |rules[1..]| && rules[1..][k].1 == x && Passes(rules[1..][k].0, text);
          assert rules[k + 1] == rules[1..][k];
        }
      }
      if Passes(rules[0].0, text) then
        assert ([rules[0].1] + rest)[1..] == rest;
        [rules[0].1] + rest
      else rest
  }

  /** When no two rules carry the same payload, a payload is selected
      exactly when its own test passes. */
  lemma SelectExactly<T>(rules: Rules<T>, text: string, k: nat)
    requires k < |rules|
    requires forall i, j :: 0 <= i < j < |rules| ==> rules[i].1 != rules[j].1
    ensures rules[k].1 in Select(rules, text) <==> Passes(rules[k].0, text)
  {
    if rules[k].1 in Select(rules, text) {
      var i :| 0 <= i < |rules| && rules[i].1 == rules[k].1 && Passes(rules[i].0, text);
      assert i == k;
    }
  }

  /** `[v for v in vocab if v.lower() in text.lower()]`. */
  function VocabFilter(vocab: seq<string>, text: string): (r: seq<string>)
    ensures IsSubsequence(r, vocab)
    ensures forall v {:trigger v in r} :: v in r <==> v in vocab && Contains(Lower(text), Lower(v))
  {
    Filter(vocab, v => Contains(Lower(text), Lower(v)))
  }
}
