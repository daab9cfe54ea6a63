/**
 * The pure part of `rec_evaluate`: restricting a score row to the catalogue
 * columns, selecting the top-k columns of the restricted row, and finding a
 * label's position in the catalogue (Python's `list.index`).
 */
module RecRanking {
  import opened Basics

  /** Position of the first occurrence of `x` in `s`; `None` where `list.index` raises. */
  function IndexOf(s: seq<nat>, x: nat): (r: Option<nat>)
    ensures r.None? <==> x !in s
    ensures r.Some? ==> r.value < |s| && s[r.value] == x
    ensures r.Some? ==> forall j :: 0 <= j < r.value ==> s[j] != x
  {
    if |s| == 0 then None
    else if s[0] == x then Some(0)
    else match IndexOf(s[1..], x)
      case None => None
      case Some(m) => Some(m + 1)
  }

  /** Every catalogue id names a column of `row`. */
  predicate ColumnsInRange(row: seq<int>, ids: seq<nat>)
  {
    forall j :: 0 <= j < |ids| ==> ids[j] < |row|
  }

  /** `row[ids]`: the row restricted to the catalogue columns, in catalogue order. */
  function Restrict(row: seq<int>, ids: seq<nat>): (r: seq<int>)
    requires ColumnsInRange(row, ids)
    ensures |r| == |ids|
    ensures forall j :: 0 <= j < |ids| ==> r[j] == row[ids[j]]
  {
    seq(|ids|, j requires 0 <= j < |ids| => row[ids[j]])
  }

  /**
   * The best column below `n` that is not yet in `chosen`, or -1 when every
   * column below `n` is chosen. Ties go to the lowest column.
   */
  function Best(row: seq<int>, chosen: seq<nat>, n: nat): (b: int)
    requires n <= |row|
    ensures -1 <= b < n
    decreases n
  {
    if n == 0 then -1
    else
      var b := Best(row, chosen, n - 1);
      if n - 1 in chosen then b
      else if b == -1 || row[b] < row[n - 1] then n - 1
      else b
  }

  /** `Best` finds an unchosen column with the highest score, and fails only when every column is chosen. */
  lemma {:induction false} BestSpec(row: seq<int>, chosen: seq<nat>, n: nat)
    requires n <= |row|
    ensures Best(row, chosen, n) == -1 <==> forall x :: 0 <= x < n ==> x in chosen
    ensures Best(row, chosen, n) >= 0 ==> Best(row, chosen, n) !in chosen
    ensures Best(row, chosen, n) >= 0 ==>
      forall x :: 0 <= x < n && x !in chosen ==> row[x] <= row[Best(row, chosen, n)]
    decreases n
  {
    if n > 0 {
      BestSpec(row, chosen, n - 1);
    }
  }

  /** The set of the first `n` naturals. */
  function Below(n: nat): (r: set<nat>)
    ensures forall x: nat :: x in r <==> x < n
    ensures |r| == n
  {
    if n == 0 then {}
    else
      var r := Below(n - 1);
      assert n - 1 !in r;
      r + {n - 1}
  }

  /** The set of the entries of `s`; it has at most `|s|` members. */
  function Elements(s: seq<nat>): (r: set<nat>)
    ensures forall x :: x in r <==> x in s
    ensures |r| <= |s|
  {
    if |s| == 0 then {}
    else Elements(s[..|s| - 1]) + {s[|s| - 1]}
  }

  /** A sequence that mentions every natural below `n` has at least `n` entries. */
  lemma Pigeonhole(s: seq<nat>, n: nat)
    requires forall x :: 0 <= x < n ==> x in s
    ensures n <= |s|
  {
    SubsetSize(Below(n), Elements(s));
  }

  lemma {:induction false} SubsetSize(a: set<nat>, b: set<nat>)
    requires a <= b
    ensures |a| <= |b|
    decreases |a|
  {
    if a != {} {
      var x :| x in a;
      SubsetSize(a - {x}, b - {x});
    }
  }

  /**
   * `torch.topk(row, k)` indices: k distinct columns, chosen greedily,
   * each the best column among those not chosen before it.
   */
  function TopK(row: seq<int>, k: nat): (r: seq<nat>)
    requires k <= |row|
    ensures |r| == k
    ensures forall i :: 0 <= i < k ==> r[i] < |row|
    decreases k
  {
    if k == 0 then []
    else
      var prev := TopK(row, k - 1);
      var b := Best(row, prev, |row|);
      BestSpec(row, prev, |row|);
      if b == -1 then
        Pigeonhole(prev, |row|);
        assert false; prev
      else prev + [b]
  }

  /** The picks are distinct. */
  lemma {:induction false} TopKSpec(row: seq<int>, k: nat)
    requires k <= |row|
    ensures forall i, j :: 0 <= i < j < k ==> TopK(row, k)[i] != TopK(row, k)[j]
  {
    if k > 0 {
      TopKSpec(row, k - 1);
      TopKLast(row, k);
      var prev := TopK(row, k - 1);
      BestSpec(row, prev, |row|);
      var r := TopK(row, k);
      assert r == prev + [r[k - 1]];
    }
  }

  /** One more pick extends the previous selection by the best remaining column. */
  lemma TopKLast(row: seq<int>, k: nat)
    requires 1 <= k <= |row|
    ensures TopK(row, k)[..k - 1] == TopK(row, k - 1)
    ensures TopK(row, k)[k - 1] == Best(row, TopK(row, k - 1), |row|)
  {
  }

  /** The first `i` picks of a top-k selection are the top-i selection. */
  lemma {:induction false} TopKPrefix(row: seq<int>, k: nat, i: nat)
    requires i <= k <= |row|
    ensures TopK(row, k)[..i] == TopK(row, i)
    decreases k
  {
    if i < k {
      TopKPrefix(row, k - 1, i);
      TopKLast(row, k);
      var r := TopK(row, k);
      assert r[..i] == r[..k - 1][..i];
    }
  }

  /** The i-th pick is not among the earlier picks and beats every column not picked before it. */
  lemma TopKPick(row: seq<int>, k: nat, i: nat)
    requires i < k <= |row|
    ensures TopK(row, k)[i] !in TopK(row, k)[..i]
    ensures forall x :: 0 <= x < |row| && x !in TopK(row, k)[..i] ==> row[x] <= row[TopK(row, k)[i]]
  {
    var r := TopK(row, k);
    TopKPrefix(row, k, i + 1);
    TopKPrefix(row, k, i);
    TopKLast(row, i + 1);
    BestSpec(row, TopK(row, i), |row|);
    assert r[i] == r[..i + 1][i];
  }

  /**
   * What `torch.topk` promises, independent of how ties are broken: the picks
   * come in non-increasing score order, and no column left out scores
   * strictly higher than a column picked.
   */
  lemma TopKOrdered(row: seq<int>, k: nat)
    requires k <= |row|
    ensures forall i, j :: 0 <= i < j < k ==> row[TopK(row, k)[i]] >= row[TopK(row, k)[j]]
    ensures forall x, i :: 0 <= x < |row| && x !in TopK(row, k) && 0 <= i < k ==> row[x] <= row[TopK(row, k)[i]]
  {
    var r := TopK(row, k);
    TopKSpec(row, k);
    forall i, j | 0 <= i < j < k
      ensures row[r[i]] >= row[r[j]]
    {
      TopKPick(row, k, i);
      assert r[j] !in r[..i];
    }
    forall x, i | 0 <= x < |row| && x !in r && 0 <= i < k
      ensures row[x] <= row[r[i]]
    {
      TopKPick(row, k, i);
      assert x !in r[..i];
    }
  }
}
