/**
 * The conversation evaluator: per-prediction F1 and BLEU records, and the
 * distinct-n-gram sets (dist@1..dist@4) with the count of non-empty
 * predictions they were collected from.
 */
module ConvEvaluation {
  import opened NGrams

  /** A metric value. F1 and BLEU scores are opaque: only their arguments are kept. */
  datatype Value =
    | F1Of(pred: seq<Token>, ref: seq<Token>)
    | BleuOf(pred: seq<Token>, ref: seq<Token>, k: nat)
    | Average(x: real)

  /** One `Metrics.add(name, value)` call. */
  datatype Record = Record(name: string, value: Value)

  function Digit(k: nat): char
    requires k <= 9
  {
    (48 + k) as char
  }

  /** A metric name such as "bleu@3" or "dist@2". */
  function Tagged(prefix: string, k: nat): (r: string)
    requires 1 <= k <= 4
    ensures |r| == |prefix| + 2 && r[|prefix| + 1] == Digit(k)
  {
    prefix + "@" + [Digit(k)]
  }

  /** The dist sets; key k stands for the key "dist@k" of the source's dictionary. */
  type DistSets = map<nat, set<seq<Token>>>

  /** The set under key k, or the empty set a `defaultdict(set)` would create. */
  function Get(d: DistSets, k: nat): set<seq<Token>>
  {
    if k in d then d[k] else {}
  }

  /**
   * The inner loop for one order k: each k-gram of `preds` is added under
   * key k. The key comes into being on the first insertion, so a prediction
   * shorter than k leaves the dictionary as it was.
   */
  function AddGrams(d: DistSets, preds: seq<Token>, k: nat): DistSets
    requires k >= 1
  {
    if |preds| < k then d else d[k := Get(d, k) + Grams(preds, k)]
  }

  /** The n-gram insertions for the orders 1..k. */
  function AbsorbUpTo(d: DistSets, preds: seq<Token>, k: nat): DistSets
    requires k <= 4
  {
    if k == 0 then d else AddGrams(AbsorbUpTo(d, preds, k - 1), preds, k)
  }

  /** The n-gram insertions of one `evaluate` call (orders 1..4). */
  function Absorb(d: DistSets, preds: seq<Token>): DistSets
  {
    AbsorbUpTo(d, preds, 4)
  }

  /** The dist sets after evaluating the predictions of `h` in order, starting from empty sets. */
  function DistOf(h: seq<seq<Token>>): DistSets
  {
    if h == [] then map[] else Absorb(DistOf(h[..|h| - 1]), h[|h| - 1])
  }

  /** The F1 and BLEU records of one non-empty `evaluate`, in the order the source adds them. */
  function BleuRecords(preds: seq<Token>, target: seq<Token>, k: nat): seq<Record>
    requires k <= 4
  {
    if k == 0 then [] else BleuRecords(preds, target, k - 1) + [Record(Tagged("bleu", k), BleuOf(preds, target, k))]
  }

  function GenRecords(preds: seq<Token>, target: seq<Token>): seq<Record>
  {
    [Record("f1", F1Of(preds, target))] + BleuRecords(preds, target, 4)
  }

  /** The record `report` adds for key k: |dist@k| / dist_cnt. */
  function DistRecord(d: DistSets, cnt: nat, k: nat): Record
    requires 1 <= k <= 4 && k in d && cnt > 0
  {
    Record(Tagged("dist", k), Average(|d[k]| as real / cnt as real))
  }

  /** The records `report` adds for the keys 1..k that are present, in ascending order. */
  function DistRecords(d: DistSets, cnt: nat, k: nat): seq<Record>
    requires k <= 4
    requires cnt > 0 || d == map[]
  {
    if k == 0 then []
    else DistRecords(d, cnt, k - 1) + (if k in d then [DistRecord(d, cnt, k)] else [])
  }

  /** Effect of the insertions for orders 1..k on key j, by induction on k. */
  lemma {:induction false} AbsorbUpToAt(d: DistSets, preds: seq<Token>, k: nat, j: nat)
    requires k <= 4
    ensures j in AbsorbUpTo(d, preds, k) <==> j in d || (1 <= j <= k && j <= |preds|)
    ensures Get(AbsorbUpTo(d, preds, k), j) == if 1 <= j <= k then Get(d, j) + Grams(preds, j) else Get(d, j)
  {
    if k > 0 {
      AbsorbUpToAt(d, preds, k - 1, j);
      var prev := AbsorbUpTo(d, preds, k - 1);
      assert AbsorbUpTo(d, preds, k) == AddGrams(prev, preds, k);
    }
  }

  /**
   * One non-empty `evaluate` on the dist sets: key j (1..4) gains exactly
   * the j-grams of `preds`, the key exists afterwards exactly when it existed
   * before or `preds` has a j-gram, and nothing else changes.
   */
  lemma AbsorbSpec(d: DistSets, preds: seq<Token>)
    ensures forall j: nat :: j in Absorb(d, preds) <==> j in d || (1 <= j <= 4 && j <= |preds|)
    ensures forall j: nat :: Get(Absorb(d, preds), j) == if 1 <= j <= 4 then Get(d, j) + Grams(preds, j) else Get(d, j)
  {
    forall j: nat
      ensures j in Absorb(d, preds) <==> j in d || (1 <= j <= 4 && j <= |preds|)
      ensures Get(Absorb(d, preds), j) == if 1 <= j <= 4 then Get(d, j) + Grams(preds, j) else Get(d, j)
    {
      AbsorbUpToAt(d, preds, 4, j);
    }
  }

  /** Sets only grow: no key disappears and no element is removed. */
  lemma AbsorbGrows(d: DistSets, preds: seq<Token>)
    ensures d.Keys <= Absorb(d, preds).Keys
    ensures forall j :: j in d ==> d[j] <= Absorb(d, preds)[j]
  {
    AbsorbSpec(d, preds);
    forall j | j in d
      ensures d[j] <= Absorb(d, preds)[j]
    {
      assert Get(d, j) == d[j];
    }
  }

  /** After one `evaluate`, every contiguous j-gram of `preds` (j = 1..4) is in the set under key j. */
  lemma AbsorbContains(d: DistSets, preds: seq<Token>)
    ensures forall j: nat, i: nat :: 1 <= j <= 4 && i + j <= |preds| ==> j in Absorb(d, preds) && Gram(preds, j, i) in Absorb(d, preds)[j]
  {
    AbsorbSpec(d, preds);
    forall j: nat, i: nat | 1 <= j <= 4 && i + j <= |preds|
      ensures j in Absorb(d, preds) && Gram(preds, j, i) in Absorb(d, preds)[j]
    {
      GramsSpec(preds, j);
    }
  }

  /** One `evaluate` adds at most max(0, |preds| - j + 1) new elements under key j. */
  lemma AbsorbBound(d: DistSets, preds: seq<Token>, j: nat)
    requires 1 <= j <= 4
    ensures |Get(Absorb(d, preds), j)| <= |Get(d, j)| + (if |preds| < j then 0 else |preds| - j + 1)
  {
    AbsorbSpec(d, preds);
    GramsSpec(preds, j);
  }

  /** A prediction whose k-grams are all present already leaves every set (and key) as it was. */
  lemma AbsorbKnown(d: DistSets, preds: seq<Token>)
    requires forall j: nat :: 1 <= j <= 4 ==> Grams(preds, j) <= Get(d, j)
    ensures Absorb(d, preds) == d
  {
    AbsorbSpec(d, preds);
    forall j: nat | 1 <= j <= 4 && j <= |preds|
      ensures j in d
    {
      GramsSpec(preds, j);
    }
    var a := Absorb(d, preds);
    assert a.Keys == d.Keys;
    forall j | j in d
      ensures a[j] == d[j]
    {
      assert Get(a, j) == a[j] && Get(d, j) == d[j];
    }
  }

  /** Evaluating the same prediction twice in a row leaves the sets as one evaluation does. */
  lemma AbsorbIdempotent(d: DistSets, preds: seq<Token>)
    ensures Absorb(Absorb(d, preds), preds) == Absorb(d, preds)
  {
    AbsorbSpec(d, preds);
    AbsorbKnown(Absorb(d, preds), preds);
  }

  /**
   * The keys present after evaluating the predictions of `h`: key j exists
   * exactly when j is one of 1..4 and some prediction had length at least j.
   */
  lemma {:induction false} DistOfKeys(h: seq<seq<Token>>)
    ensures forall j: nat :: j in DistOf(h) <==> 1 <= j <= 4 && exists p :: p in h && j <= |p|
  {
    if h != [] {
      var front := h[..|h| - 1];
      DistOfKeys(front);
      AbsorbSpec(DistOf(front), h[|h| - 1]);
      assert h == front + [h[|h| - 1]];
    }
  }

  /**
   * The set under key j holds exactly the j-grams of the predictions of `h`:
   * set membership, not counting, so a repeated j-gram is kept once.
   */
  lemma DistOfMembers(h: seq<seq<Token>>, j: nat)
    requires 1 <= j <= 4
    ensures forall g :: g in Get(DistOf(h), j) <==>
      exists m, i :: 0 <= m < |h| && 0 <= i && i + j <= |h[m]| && g == Gram(h[m], j, i)
  {
    forall g | g in Get(DistOf(h), j)
      ensures exists m, i :: 0 <= m < |h| && 0 <= i && i + j <= |h[m]| && g == Gram(h[m], j, i)
    {
      DistOfSound(h, j, g);
    }
    forall m, i | 0 <= m < |h| && 0 <= i && i + j <= |h[m]|
      ensures Gram(h[m], j, i) in Get(DistOf(h), j)
    {
      DistOfComplete(h, j, m, i);
    }
  }

  /** Each j-gram under key j comes from one of the predictions. */
  lemma {:induction false} DistOfSound(h: seq<seq<Token>>, j: nat, g: seq<Token>)
    requires 1 <= j <= 4
    requires g in Get(DistOf(h), j)
    ensures exists m, i :: 0 <= m < |h| && 0 <= i && i + j <= |h[m]| && g == Gram(h[m], j, i)
  {
    var front, last := h[..|h| - 1], h[|h| - 1];
    AbsorbUpToAt(DistOf(front), last, 4, j);
    if g in Get(DistOf(front), j) {
      DistOfSound(front, j, g);
      var m, i :| 0 <= m < |front| && 0 <= i && i + j <= |front[m]| && g == Gram(front[m], j, i);
      assert h[m] == front[m];
    } else {
      GramsSpec(last, j);
      var i :| 0 <= i <= |last| - j && g == Gram(last, j, i);
      assert h[|h| - 1] == last;
    }
  }

  /** Each j-gram of each prediction is under key j. */
  lemma {:induction false} DistOfComplete(h: seq<seq<Token>>, j: nat, m: nat, i: nat)
    requires 1 <= j <= 4 && m < |h| && i + j <= |h[m]|
    ensures Gram(h[m], j, i) in Get(DistOf(h), j)
  {
    var front, last := h[..|h| - 1], h[|h| - 1];
    AbsorbUpToAt(DistOf(front), last, 4, j);
    if m < |front| {
      assert h[m] == front[m];
      DistOfComplete(front, j, m, i);
    } else {
      GramsSpec(last, j);
    }
  }

  /**
   * The shape of the dist sets, whatever was evaluated: every key is one of
   * 1..4, every element under key j has length j, the keys present are
   * always 1..m for some m, and with nothing evaluated there are no keys.
   */
  lemma DistOfShape(h: seq<seq<Token>>)
    ensures forall j :: j in DistOf(h) ==> 1 <= j <= 4
    ensures forall j, g :: j in DistOf(h) && g in DistOf(h)[j] ==> |g| == j
    ensures forall j :: j in DistOf(h) && j > 1 ==> j - 1 in DistOf(h)
    ensures h == [] ==> DistOf(h) == map[]
  {
    DistOfKeys(h);
    forall j, g | j in DistOf(h) && g in DistOf(h)[j]
      ensures |g| == j
    {
      DistOfMembers(h, j);
      assert g in Get(DistOf(h), j);
    }
  }

  /**
   * Evaluating the same prediction twice leaves the dist sets as evaluating it
   * once does; only the prediction count differs (2 against 1), so each
   * dist@k ratio is halved.
   */
  lemma EvaluateTwice(h: seq<seq<Token>>, preds: seq<Token>)
    ensures DistOf(h + [preds, preds]) == DistOf(h + [preds])
  {
    assert (h + [preds, preds])[..|h| + 1] == h + [preds];
    assert (h + [preds])[..|h|] == h;
    AbsorbIdempotent(DistOf(h), preds);
  }

  /** `rec` is the record `report` adds for one of the present keys 1..k. */
  ghost predicate RecordsKey(d: DistSets, cnt: nat, rec: Record, k: nat)
    requires cnt > 0 || d == map[]
  {
    exists j :: 1 <= j <= k && j <= 4 && j in d && rec == DistRecord(d, cnt, j)
  }

  /**
   * What `report` adds: one record per key present, named dist@j and valued
   * |set| / dist_cnt, no two with the same name, and nothing for absent keys.
   */
  lemma {:induction false} DistRecordsSpec(d: DistSets, cnt: nat, k: nat)
    requires k <= 4
    requires cnt > 0 || d == map[]
    ensures forall i :: 0 <= i < |DistRecords(d, cnt, k)| ==> RecordsKey(d, cnt, DistRecords(d, cnt, k)[i], k)
    ensures forall j :: 1 <= j <= k && j in d ==> DistRecord(d, cnt, j) in DistRecords(d, cnt, k)
    ensures forall a, b :: 0 <= a < b < |DistRecords(d, cnt, k)| ==>
      DistRecords(d, cnt, k)[a].name != DistRecords(d, cnt, k)[b].name
  {
    if k > 0 {
      DistRecordsSpec(d, cnt, k - 1);
      var prev := DistRecords(d, cnt, k - 1);
      var r := DistRecords(d, cnt, k);
      forall i | 0 <= i < |r|
        ensures RecordsKey(d, cnt, r[i], k)
      {
        if i < |prev| {
          assert RecordsKey(d, cnt, prev[i], k - 1);
          var j :| 1 <= j <= k - 1 && j <= 4 && j in d && prev[i] == DistRecord(d, cnt, j);
          assert r[i] == prev[i];
        } else {
          assert k in d && r[i] == DistRecord(d, cnt, k);
        }
      }
      if k in d {
        assert r == prev + [DistRecord(d, cnt, k)];
        forall a | 0 <= a < |prev|
          ensures prev[a].name != DistRecord(d, cnt, k).name
        {
          assert RecordsKey(d, cnt, prev[a], k - 1);
          var j :| 1 <= j <= k - 1 && j <= 4 && j in d && prev[a] == DistRecord(d, cnt, j);
          assert prev[a].name[5] == Digit(j);
        }
      }
    }
  }

  /**
   * The evaluator's state. `history` is the ghost list of the non-empty
   * predictions evaluated since the last reset; the invariant ties the
   * counter and the dist sets to it.
   */
  class ConvEvaluator {
    var distSet: DistSets
    var distCnt: nat
    var genMetrics: seq<Record>
    /** The optimisation-loss accumulator owned by the base evaluator. */
    var optimMetrics: seq<Record>
    ghost var history: seq<seq<Token>>

    ghost predicate Valid()
      reads this
    {
      && distCnt == |history|
      && (forall m :: 0 <= m < |history| ==> history[m] != [])
      && distSet == DistOf(history)
    }

    constructor ()
      ensures Valid()
      ensures distSet == map[] && distCnt == 0 && genMetrics == [] && optimMetrics == []
    {
      distSet := map[];
      distCnt := 0;
      genMetrics := [];
      optimMetrics := [];
      history := [];
    }

    /**
     * An empty prediction changes nothing. Otherwise one F1 and four BLEU
     * records are added, every k-gram (k = 1..4) of `preds` is inserted under
     * key k, and the counter rises by exactly one.
     */
    method Evaluate(preds: seq<Token>, target: seq<Token>)
      requires Valid()
      modifies this
      ensures Valid()
      ensures optimMetrics == old(optimMetrics)
      ensures preds == [] ==>
        genMetrics == old(genMetrics) && distSet == old(distSet) && distCnt == old(distCnt) && history == old(history)
      ensures preds != [] ==>
        && genMetrics == old(genMetrics) + GenRecords(preds, target)
        && distSet == Absorb(old(distSet), preds)
        && distCnt == old(distCnt) + 1
        && history == old(history) + [preds]
    {
      if preds != [] {
        genMetrics := genMetrics + [Record("f1", F1Of(preds, target))];
        for k := 1 to 5
          modifies this`genMetrics, this`distSet
          invariant genMetrics == old(genMetrics) + [Record("f1", F1Of(preds, target))] + BleuRecords(preds, target, k - 1)
          invariant distSet == AbsorbUpTo(old(distSet), preds, k - 1)
        {
          genMetrics := genMetrics + [Record(Tagged("bleu", k), BleuOf(preds, target, k))];
          InsertGrams(preds, k);
        }
        distCnt := distCnt + 1;
        history := history + [preds];
        assert history[..|history| - 1] == old(history);
      }
    }

    /** The inner loop of `evaluate` for one order k: each k-gram of `preds` goes into the set under key k. */
    method InsertGrams(preds: seq<Token>, k: nat)
      requires k >= 1
      modifies this`distSet
      ensures distSet == AddGrams(old(distSet), preds, k)
    {
      var i := 0;
      while i + k <= |preds|
        invariant i == 0 || i - 1 + k <= |preds|
        invariant distSet == if i == 0 then old(distSet) else old(distSet)[k := Get(old(distSet), k) + GramsBefore(preds, k, i)]
      {
        assert GramsBefore(preds, k, i + 1) == GramsBefore(preds, k, i) + {Gram(preds, k, i)};
        ghost var grown := Get(old(distSet), k) + GramsBefore(preds, k, i + 1);
        assert Get(distSet, k) + {preds[i..i + k]} == grown;
        distSet := distSet[k := Get(distSet, k) + {preds[i..i + k]}];
        assert distSet == old(distSet)[k := grown];
        i := i + 1;
      }
    }

    /**
     * Adds dist@k = |set| / dist_cnt for each key present, in ascending k,
     * which is the dictionary's insertion order: `evaluate` creates key k
     * only after creating every lower key that was missing. The invariant guarantees a
     * non-zero counter whenever a key is present, so the division is defined.
     */
    method Report()
      requires Valid()
      modifies this`genMetrics
      ensures Valid()
      ensures genMetrics == old(genMetrics) + DistRecords(distSet, distCnt, 4)
    {
      assert distCnt > 0 || distSet == map[] by {
        DistOfShape(history);
      }
      for k := 1 to 5
        invariant genMetrics == old(genMetrics) + DistRecords(distSet, distCnt, k - 1)
      {
        if k in distSet {
          genMetrics := genMetrics + [Record(Tagged("dist", k), Average(|distSet[k]| as real / distCnt as real))];
        }
      }
    }

    /** Clears both accumulators, the dist sets and the counter together. */
    method ResetMetrics()
      modifies this
      ensures Valid()
      ensures distSet == map[] && distCnt == 0 && genMetrics == [] && optimMetrics == []
    {
      optimMetrics := [];
      genMetrics := [];
      distCnt := 0;
      distSet := map[];
      history := [];
    }
  }
}
