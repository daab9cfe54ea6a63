/**
 * Contiguous k-grams of a token sequence, as `nltk.ngrams(preds, k)` yields
 * them to the diversity tracker of the conversation evaluator.
 */
module NGrams {
  /** A token of a generated or reference utterance. */
  type Token = string

  /** The k-gram of `s` that starts at position `i`. */
  function Gram(s: seq<Token>, k: nat, i: nat): (g: seq<Token>)
    requires i + k <= |s|
    ensures |g| == k
  {
    s[i..i + k]
  }

  /** The k-grams that start at the positions below `n`. */
  function GramsBefore(s: seq<Token>, k: nat, n: nat): set<seq<Token>>
    requires n == 0 || n - 1 + k <= |s|
  {
    if n == 0 then {}
    else GramsBefore(s, k, n - 1) + {Gram(s, k, n - 1)}
  }

  /** All k-grams of `s`: empty when `s` is shorter than `k`. */
  function Grams(s: seq<Token>, k: nat): set<seq<Token>>
    requires k >= 1
  {
    if |s| < k then {} else GramsBefore(s, k, |s| - k + 1)
  }

  /** Membership in `GramsBefore`, both directions: exactly the slices starting below `n`. */
  lemma {:induction false} GramsBeforeMembers(s: seq<Token>, k: nat, n: nat)
    requires n == 0 || n - 1 + k <= |s|
    ensures forall g :: g in GramsBefore(s, k, n) <==> exists i :: 0 <= i < n && g == Gram(s, k, i)
  {
    if n > 0 {
      GramsBeforeMembers(s, k, n - 1);
    }
  }

  /** Every k-gram has length k, and there are at most `n` of them. */
  lemma {:induction false} GramsBeforeShape(s: seq<Token>, k: nat, n: nat)
    requires n == 0 || n - 1 + k <= |s|
    ensures forall g :: g in GramsBefore(s, k, n) ==> |g| == k
    ensures |GramsBefore(s, k, n)| <= n
  {
    if n > 0 {
      GramsBeforeShape(s, k, n - 1);
    }
  }

  /**
   * The k-grams of `s` are exactly its contiguous slices of length k; each
   * has length k, there are at most `max(0, |s| - k + 1)` of them, and there
   * is at least one exactly when `|s| >= k`.
   */
  lemma GramsSpec(s: seq<Token>, k: nat)
    requires k >= 1
    ensures forall g :: g in Grams(s, k) <==> exists i :: 0 <= i <= |s| - k && g == Gram(s, k, i)
    ensures forall g :: g in Grams(s, k) ==> |g| == k
    ensures |Grams(s, k)| <= if |s| < k then 0 else |s| - k + 1
    ensures Grams(s, k) == {} <==> |s| < k
  {
    if |s| >= k {
      GramsBeforeMembers(s, k, |s| - k + 1);
      GramsBeforeShape(s, k, |s| - k + 1);
      assert Gram(s, k, 0) in Grams(s, k);
    }
  }
}
