/**
 * The backend's word filter (backend/main.py): a prompt is lower-cased,
 * split on whitespace, and every word that contains one of a fixed list of
 * category substrings is reported.
 */
module FilteredWords {
  import opened Text
  import opened Sequences

  /** Categories scanned before any image is requested (`check_filtered_words`). */
  const PrecheckCategories: seq<string> := [
    "nude", "naked", "sex", "porn", "gore", "blood", "violence", "explicit",
    "drug", "terrorist", "weapon", "kill", "death", "abuse", "child", "children"
  ]

  /**
   * Categories scanned to explain a refusal by the image service
   * (`generate_single_image`); this list lacks `child` and `children`.
   */
  const RefusalCategories: seq<string> := [
    "nude", "naked", "sex", "porn", "gore", "blood", "violence", "explicit",
    "drug", "terrorist", "weapon", "kill", "death", "abuse"
  ]

  /** `any(category in word for category in categories)`. */
  predicate MatchesCategory(word: string, categories: seq<string>)
  {
    exists c :: c in categories && Contains(word, c)
  }

  /**
   * `[word for word in prompt.lower().split() if any(...)]`: exactly the
   * lower-cased words that contain a category, every occurrence of each,
   * in prompt order.
   */
  function FlaggedWords(prompt: string, categories: seq<string>): (r: seq<string>)
    ensures forall w :: w in r <==> w in Words(Lower(prompt)) && MatchesCategory(w, categories)
    ensures forall w :: multiset(r)[w] ==
              if MatchesCategory(w, categories) then multiset(Words(Lower(prompt)))[w] else 0
    ensures IsSubsequence(r, Words(Lower(prompt)))
  {
    var words := Words(Lower(prompt));
    FilterIsSubsequence(words, w => MatchesCategory(w, categories));
    FilterMultiset(words, w => MatchesCategory(w, categories));
    Filter(words, w => MatchesCategory(w, categories))
  }

  /** Flagged words are non-empty, hold no whitespace and no upper-case ASCII letter. */
  lemma FlaggedWordsShape(prompt: string, categories: seq<string>, k: nat)
    requires k < |FlaggedWords(prompt, categories)|
    ensures var w := FlaggedWords(prompt, categories)[k];
      |w| > 0 && NoSpace(w) && forall i :: 0 <= i < |w| ==> !('A' <= w[i] <= 'Z')
  {
    var s := Lower(prompt);
    var w := FlaggedWords(prompt, categories)[k];
    assert w in Words(s);
    var j :| 0 <= j < |Words(s)| && Words(s)[j] == w;
    WordsSound(s);
    forall i | 0 <= i < |w|
      ensures !('A' <= w[i] <= 'Z')
    {
      WordCharsFrom(s, j, i);
      if 'A' <= w[i] <= 'Z' {
        LowerHasNoUpper(prompt, w[i]);
      }
    }
  }

  /**
   * `check_filtered_words`: the words flagged against the pre-check list,
   * and whether there are any.
   */
  function CheckFilteredWords(prompt: string): (r: (bool, seq<string>))
    ensures r.1 == FlaggedWords(prompt, PrecheckCategories)
    ensures r.0 <==> |r.1| > 0
  {
    var flagged := FlaggedWords(prompt, PrecheckCategories);
    (|flagged| > 0, flagged)
  }

  /** A word matching a longer category also matches its prefix: "children" is caught by "child". */
  lemma {:induction false} ChildrenSubsumed(word: string)
    requires Contains(word, "children")
    ensures Contains(word, "child")
  {
    ContainsIff(word, "children");
    var i :| OccursAt(word, "children", i);
    assert word[i..i + 5] == word[i..i + 8][..5] == "children"[..5] == "child";
    assert OccursAt(word, "child", i);
    ContainsIff(word, "child");
  }
}
