/**
 * What the KGSF control logic guarantees: the effects of one `step` per
 * stage and mode, what `rec_evaluate` hands on, the bracketing of every
 * pass, and the order and number of passes in each phase.
 */
module KgsfProperties {
  import opened Basics
  import opened RecRanking
  import opened KgsfTrace

  /** The number of elements of `xs` that satisfy `p`. */
  function Count<T>(xs: seq<T>, p: T -> bool): nat
  {
    if xs == [] then 0 else Count(xs[..|xs| - 1], p) + (if p(xs[|xs| - 1]) then 1 else 0)
  }

  lemma {:induction false} CountAppend<T>(xs: seq<T>, ys: seq<T>, p: T -> bool)
    ensures Count(xs + ys, p) == Count(xs, p) + Count(ys, p)
    decreases |ys|
  {
    if ys == [] {
      assert xs + ys == xs;
    } else {
      CountAppend(xs, ys[..|ys| - 1], p);
      assert (xs + ys)[..|xs + ys| - 1] == xs + ys[..|ys| - 1];
    }
  }

  lemma CountNone<T>(xs: seq<T>, p: T -> bool)
    requires forall i :: 0 <= i < |xs| ==> !p(xs[i])
    ensures Count(xs, p) == 0
  {
    if xs != [] {
      CountNone(xs[..|xs| - 1], p);
    }
  }

  predicate IsBackward(e: Event) { e.Backward? }
  predicate IsRecEval(e: Event) { e.RecEval? }
  predicate IsGenEval(e: Event) { e.GenEval? }
  predicate IsReset(e: Event) { e.Reset? }
  predicate IsReport(e: Event) { e.Report? }
  predicate IsRecord(e: Event) { e.Record? }

  function RecordNamed(name: string): Event -> bool
  {
    (e: Event) => e.Record? && e.name == name
  }

  /** The effects `step` may have on the collaborators inside a pass. */
  predicate IsStepEffect(e: Event)
  {
    e.Backward? || e.Record? || e.RecEval? || e.GenEval?
  }

  lemma CountOne<T>(x: T, p: T -> bool)
    ensures Count([x], p) == if p(x) then 1 else 0
  {
    assert [x][..0] == [];
  }

  /** A log extended by a run that did not raise, then by another run, holds the two runs one after the other. */
  lemma AppendThen(log: seq<Event>, a: Run, b: Run)
    requires a.failure.None?
    ensures log + a.events + b.events == log + Then(a, b).events
    ensures Then(a, b).failure == b.failure
  {
  }

  lemma ThenAssoc(a: Run, b: Run, c: Run)
    ensures Then(Then(a, b), c) == Then(a, Then(b, c))
  {
  }

  // ---------------------------------------------------------------- rec_evaluate

  /** The column check holds exactly when every row has every catalogue column. */
  lemma {:induction false} AllColumnsInRangeSpec(scores: seq<seq<int>>, ids: seq<nat>)
    ensures AllColumnsInRange(scores, ids) <==> forall r :: 0 <= r < |scores| ==> ColumnsInRange(scores[r], ids)
  {
    if |scores| > 0 {
      var front := scores[..|scores| - 1];
      AllColumnsInRangeSpec(front, ids);
      assert forall r :: 0 <= r < |front| ==> front[r] == scores[r];
    }
  }

  /** Row `i`'s ranking is the top k of that row. */
  lemma {:induction false} RanksAt(ids: seq<nat>, scores: seq<seq<int>>, k: nat, i: nat)
    requires AllColumnsInRange(scores, ids) && k <= |ids| && i < |scores|
    ensures ColumnsInRange(scores[i], ids) && Ranks(ids, scores, k)[i] == RowRank(ids, scores[i], k)
    decreases |scores|
  {
    var front := scores[..|scores| - 1];
    if i < |front| {
      RanksAt(ids, front, k, i);
      assert front[i] == scores[i];
    }
  }

  /**
   * The evaluator calls of `rec_evaluate` over its first `n` rows: one call
   * per row in row order, with the row's ranking and the label's first
   * position in the catalogue, up to the first label missing from the
   * catalogue, where `list.index` raises.
   */
  lemma {:induction false} RecRowsSpec(ids: seq<nat>, ranks: seq<seq<nat>>, labels: seq<nat>, n: nat)
    requires n <= |ranks| && n <= |labels|
    ensures |RecRows(ids, ranks, labels, n).events| <= n
    ensures forall i :: 0 <= i < |RecRows(ids, ranks, labels, n).events| ==>
      labels[i] in ids &&
      RecRows(ids, ranks, labels, n).events[i] == RecEval(ranks[i], IndexOf(ids, labels[i]).value)
    ensures RecRows(ids, ranks, labels, n).failure.None? ==> |RecRows(ids, ranks, labels, n).events| == n
    ensures RecRows(ids, ranks, labels, n).failure.Some? ==>
      var f := |RecRows(ids, ranks, labels, n).events|;
      f < n && labels[f] !in ids && RecRows(ids, ranks, labels, n).failure == Some(LabelNotInCatalog(labels[f]))
  {
    if n > 0 {
      RecRowsSpec(ids, ranks, labels, n - 1);
      var prev := RecRows(ids, ranks, labels, n - 1);
      var r := RecRows(ids, ranks, labels, n);
      if prev.failure.Some? {
        assert r == prev;
      } else {
        match IndexOf(ids, labels[n - 1])
        case None =>
          assert r == Run(prev.events, Some(LabelNotInCatalog(labels[n - 1])));
        case Some(m) =>
          var e := RecEval(ranks[n - 1], m);
          assert r == Run(prev.events + [e], None);
          forall i | 0 <= i < |r.events|
            ensures labels[i] in ids && r.events[i] == RecEval(ranks[i], IndexOf(ids, labels[i]).value)
          {
            if i < n - 1 {
              assert r.events[i] == prev.events[i];
            }
          }
      }
    }
  }

  /**
   * The ranking handed on for a row: k distinct catalogue positions, in
   * non-increasing order of the row's score at the catalogue column, and no
   * position left out scores strictly higher than one chosen.
   */
  lemma RankSpec(ids: seq<nat>, row: seq<int>, k: nat)
    requires ColumnsInRange(row, ids) && k <= |ids|
    ensures |TopK(Restrict(row, ids), k)| == k
    ensures forall i :: 0 <= i < k ==> TopK(Restrict(row, ids), k)[i] < |ids|
    ensures forall i, j :: 0 <= i < j < k ==> TopK(Restrict(row, ids), k)[i] != TopK(Restrict(row, ids), k)[j]
    ensures forall i, j :: 0 <= i < j < k ==>
      row[ids[TopK(Restrict(row, ids), k)[i]]] >= row[ids[TopK(Restrict(row, ids), k)[j]]]
    ensures forall x, i :: 0 <= x < |ids| && x !in TopK(Restrict(row, ids), k) && 0 <= i < k ==>
      row[ids[x]] <= row[ids[TopK(Restrict(row, ids), k)[i]]]
  {
    var restricted := Restrict(row, ids);
    var r := TopK(restricted, k);
    TopKSpec(restricted, k);
    TopKOrdered(restricted, k);
    forall i, j | 0 <= i < j < k
      ensures row[ids[r[i]]] >= row[ids[r[j]]]
    {
      assert restricted[r[i]] >= restricted[r[j]];
    }
    forall x, i | 0 <= x < |ids| && x !in r && 0 <= i < k
      ensures row[ids[x]] <= row[ids[r[i]]]
    {
      assert restricted[x] <= restricted[r[i]];
    }
  }

  /**
   * `rec_evaluate` only calls the ranking evaluator, once per row, in row
   * order, with the row's top-k ranking and the label's catalogue position.
   * It raises when a catalogue id is past the end of a row, when there are
   * fewer than k catalogue ids, or when a label is not in the catalogue.
   */
  lemma RecEvaluateSpec(ids: seq<nat>, scores: seq<seq<int>>, labels: seq<nat>, k: nat)
    ensures forall i :: 0 <= i < |RecEvaluateRun(ids, scores, labels, k).events| ==> IsRecEval(RecEvaluateRun(ids, scores, labels, k).events[i])
    ensures !(forall r :: 0 <= r < |scores| ==> ColumnsInRange(scores[r], ids)) ==>
      RecEvaluateRun(ids, scores, labels, k) == Run([], Some(ColumnOutOfRange))
    ensures (forall r :: 0 <= r < |scores| ==> ColumnsInRange(scores[r], ids)) && |ids| < k ==>
      RecEvaluateRun(ids, scores, labels, k) == Run([], Some(TooFewCandidates))
    ensures RecEvaluateRun(ids, scores, labels, k).failure.None? <==>
      (forall r :: 0 <= r < |scores| ==> ColumnsInRange(scores[r], ids)) && k <= |ids| &&
      forall i :: 0 <= i < Min(|scores|, |labels|) ==> labels[i] in ids
    ensures RecEvaluateRun(ids, scores, labels, k).failure.None? ==> |RecEvaluateRun(ids, scores, labels, k).events| == Min(|scores|, |labels|)
    ensures forall i :: 0 <= i < |RecEvaluateRun(ids, scores, labels, k).events| ==>
      i < |scores| && i < |labels| && ColumnsInRange(scores[i], ids) && k <= |ids| && labels[i] in ids &&
      RecEvaluateRun(ids, scores, labels, k).events[i] == RecEval(RowRank(ids, scores[i], k), IndexOf(ids, labels[i]).value)
  {
    AllColumnsInRangeSpec(scores, ids);
    if AllColumnsInRange(scores, ids) && k <= |ids| {
      var n := Min(|scores|, |labels|);
      var ranks := Ranks(ids, scores, k);
      RecRowsSpec(ids, ranks, labels, n);
      var r := RecRows(ids, ranks, labels, n);
      if r.failure.None? {
        forall i | 0 <= i < n
          ensures labels[i] in ids
        {
          assert r.events[i] == r.events[i];
        }
      }
      forall i | 0 <= i < |r.events|
        ensures ColumnsInRange(scores[i], ids) && r.events[i] == RecEval(RowRank(ids, scores[i], k), IndexOf(ids, labels[i]).value)
      {
        RanksAt(ids, scores, k, i);
      }
    }
  }

  /** `rec_evaluate` only calls the ranking evaluator. */
  lemma RecEvaluateEffects(ids: seq<nat>, scores: seq<seq<int>>, labels: seq<nat>, k: nat)
    ensures forall i :: 0 <= i < |RecEvaluateRun(ids, scores, labels, k).events| ==> IsRecEval(RecEvaluateRun(ids, scores, labels, k).events[i])
  {
    if AllColumnsInRange(scores, ids) && k <= |ids| {
      RecRowsSpec(ids, Ranks(ids, scores, k), labels, Min(|scores|, |labels|));
    }
  }

  // ---------------------------------------------------------------- conv_evaluate

  /** `conv_evaluate` calls the generation evaluator once per pair, in order, while both sequences last. */
  lemma {:induction false} GenEvalsSpec(preds: seq<seq<TokenId>>, responses: seq<seq<TokenId>>, n: nat)
    requires n <= |preds| && n <= |responses|
    ensures |GenEvals(preds, responses, n)| == n
    ensures forall i :: 0 <= i < n ==> GenEvals(preds, responses, n)[i] == GenEval(preds[i], responses[i])
  {
    if n > 0 {
      GenEvalsSpec(preds, responses, n - 1);
    }
  }

  lemma ConvEvaluateSpec(preds: seq<seq<TokenId>>, responses: seq<seq<TokenId>>)
    ensures |ConvEvaluateEvents(preds, responses)| == Min(|preds|, |responses|)
    ensures forall i :: 0 <= i < Min(|preds|, |responses|) ==>
      ConvEvaluateEvents(preds, responses)[i] == GenEval(preds[i], responses[i])
    ensures Count(ConvEvaluateEvents(preds, responses), IsGenEval) == Min(|preds|, |responses|)
  {
    var evs := ConvEvaluateEvents(preds, responses);
    GenEvalsSpec(preds, responses, Min(|preds|, |responses|));
    CountAll(evs, IsGenEval);
  }

  lemma {:induction false} CountAll<T>(xs: seq<T>, p: T -> bool)
    requires forall i :: 0 <= i < |xs| ==> p(xs[i])
    ensures Count(xs, p) == |xs|
  {
    if xs != [] {
      CountAll(xs[..|xs| - 1], p);
    }
  }

  // ---------------------------------------------------------------- step

  /** The pretrain step ignores the mode; it back-propagates and records the infomax loss exactly when it is truthy. */
  lemma StepPretrainSpec(s: Setup, b: Batch, mode: Mode)
    ensures StepRun(s, b, Pretrain, mode).failure.None?
    ensures StepRun(s, b, Pretrain, mode) == StepRun(s, b, Pretrain, Train)
    ensures Count(StepRun(s, b, Pretrain, mode).events, IsBackward) == if Present(s.model.pretrainInfomax(b)) then 1 else 0
    ensures Count(StepRun(s, b, Pretrain, mode).events, RecordNamed("info_loss")) == if Present(s.model.pretrainInfomax(b)) then 1 else 0
    ensures !Present(s.model.pretrainInfomax(b)) ==> StepRun(s, b, Pretrain, mode).events == []
    ensures Present(s.model.pretrainInfomax(b)) ==>
      var info := s.model.pretrainInfomax(b).value;
      StepRun(s, b, Pretrain, mode).events == [Backward(Single(info)), Record(OptimMetrics, "info_loss", info)]
  {
    var info := s.model.pretrainInfomax(b);
    if Present(info) {
      var e1 := Backward(Single(info.value));
      var e2 := Record(OptimMetrics, "info_loss", info.value);
      CountAppend([e1], [e2], IsBackward);
      CountAppend([e1], [e2], RecordNamed("info_loss"));
      CountOne(e1, IsBackward);
      CountOne(e2, IsBackward);
      CountOne(e1, RecordNamed("info_loss"));
      CountOne(e2, RecordNamed("info_loss"));
      assert [e1] + [e2] == [e1, e2];
    }
  }

  /** The rec loss inside the objective: alone, or weighted together with the info loss exactly when that is truthy. */
  function RecLossOf(o: Objective): Loss
  {
    match o
    case Single(l) => l
    case Weighted(l, _) => l
  }

  /** The rec step's loss records: the rec loss once, the info loss once exactly when it is truthy, and nothing else. */
  lemma LossRecordsSpec(out: RecOut)
    ensures forall i :: 0 <= i < |LossRecords(out)| ==> IsRecord(LossRecords(out)[i])
    ensures Count(LossRecords(out), IsRecord) == |LossRecords(out)|
    ensures Count(LossRecords(out), RecordNamed("rec_loss")) == 1
    ensures Record(OptimMetrics, "rec_loss", out.recLoss) in LossRecords(out)
    ensures Count(LossRecords(out), RecordNamed("info_loss")) == if Present(out.infoLoss) then 1 else 0
    ensures Present(out.infoLoss) ==> Record(OptimMetrics, "info_loss", out.infoLoss.value) in LossRecords(out)
    ensures |LossRecords(out)| == if Present(out.infoLoss) then 2 else 1
    ensures LossRecords(out)[0] == Record(OptimMetrics, "rec_loss", out.recLoss)
  {
    var e1 := Record(OptimMetrics, "rec_loss", out.recLoss);
    var tail := LossRecords(out)[1..];
    assert LossRecords(out) == [e1] + tail;
    CountAll(LossRecords(out), IsRecord);
    CountOne(e1, RecordNamed("rec_loss"));
    CountOne(e1, RecordNamed("info_loss"));
    CountNone(tail, RecordNamed("rec_loss"));
    CountAppend([e1], tail, RecordNamed("rec_loss"));
    CountAppend([e1], tail, RecordNamed("info_loss"));
    if Present(out.infoLoss) {
      CountOne(tail[0], RecordNamed("info_loss"));
      assert tail == [tail[0]];
    } else {
      CountNone(tail, RecordNamed("info_loss"));
    }
  }

  /**
   * The rec step in training: one back-propagation of the rec loss, weighted
   * together with the info loss exactly when that is truthy, no ranking
   * evaluation, then the loss records; it never raises.
   */
  lemma StepRecTrainSpec(s: Setup, b: Batch)
    ensures StepRun(s, b, Rec, Train).failure.None?
    ensures Count(StepRun(s, b, Rec, Train).events, IsBackward) == 1
    ensures Count(StepRun(s, b, Rec, Train).events, IsRecEval) == 0
    ensures var out := s.model.recommender(b, Train);
      var o := StepRun(s, b, Rec, Train).events[0].objective;
      && StepRun(s, b, Rec, Train).events[0].Backward?
      && RecLossOf(o) == out.recLoss
      && (o.Weighted? <==> Present(out.infoLoss))
      && (o.Weighted? ==> o.infoLoss == out.infoLoss.value)
    ensures StepRun(s, b, Rec, Train).events[1..] == LossRecords(s.model.recommender(b, Train))
  {
    var out := s.model.recommender(b, Train);
    var e0 := Backward(RecObjective(out));
    var records := LossRecords(out);
    assert StepRun(s, b, Rec, Train).events == [e0] + records;
    LossRecordsSpec(out);
    CountNone(records, IsBackward);
    CountNone(records, IsRecEval);
    CountOne(e0, IsBackward);
    CountOne(e0, IsRecEval);
    CountAppend([e0], records, IsBackward);
    CountAppend([e0], records, IsRecEval);
  }

  /**
   * The rec step in validation and test: no back-propagation; the ranking
   * evaluation, and the loss records only if it did not raise.
   */
  lemma StepRecEvalSpec(s: Setup, b: Batch, mode: Mode)
    requires mode != Train
    ensures var ev := RecEvaluateRun(s.movieIds, s.model.recommender(b, mode).scores, b.movieLabels, TopN);
      && StepRun(s, b, Rec, mode).failure == ev.failure
      && Count(StepRun(s, b, Rec, mode).events, IsBackward) == 0
      && Count(StepRun(s, b, Rec, mode).events, IsRecEval) == |ev.events|
      && StepRun(s, b, Rec, mode).events[..|ev.events|] == ev.events
      && (ev.failure.None? ==> StepRun(s, b, Rec, mode).events[|ev.events|..] == LossRecords(s.model.recommender(b, mode)))
      && (ev.failure.Some? ==> Count(StepRun(s, b, Rec, mode).events, IsRecord) == 0)
  {
    var out := s.model.recommender(b, mode);
    var ev := RecEvaluateRun(s.movieIds, out.scores, b.movieLabels, TopN);
    var records := LossRecords(out);
    var r := StepRun(s, b, Rec, mode);
    assert r == Then(ev, Emit(records));
    RecEvaluateSpec(s.movieIds, out.scores, b.movieLabels, TopN);
    CountNone(ev.events, IsBackward);
    CountNone(ev.events, IsRecord);
    CountAll(ev.events, IsRecEval);
    if ev.failure.None? {
      LossRecordsSpec(out);
      CountNone(records, IsBackward);
      CountNone(records, IsRecEval);
      CountAppend(ev.events, records, IsBackward);
      CountAppend(ev.events, records, IsRecEval);
      assert r.events == ev.events + records;
    }
  }

  /**
   * The conv step never raises; it back-propagates exactly in training,
   * records the generation loss and its perplexity exactly outside test, and
   * in every mode ends with the generation evaluator's calls for its prediction.
   */
  lemma StepConvSpec(s: Setup, b: Batch, mode: Mode)
    ensures StepRun(s, b, Conv, mode).failure.None?
    ensures Count(StepRun(s, b, Conv, mode).events, IsBackward) == if mode == Train then 1 else 0
    ensures Count(StepRun(s, b, Conv, mode).events, RecordNamed("gen_loss")) == if mode != Test then 1 else 0
    ensures Count(StepRun(s, b, Conv, mode).events, RecordNamed("ppl")) == if mode != Test then 1 else 0
    ensures mode == Train ==> StepRun(s, b, Conv, mode).events[0] == Backward(Single(s.model.conversation(b, mode).genLoss))
    ensures mode != Test ==>
      Record(OptimMetrics, "gen_loss", s.model.conversation(b, mode).genLoss) in StepRun(s, b, Conv, mode).events &&
      Record(GenMetrics, "ppl", s.model.conversation(b, mode).genLoss) in StepRun(s, b, Conv, mode).events
    ensures var n := Min(|ConvPreds(s, b, mode)|, |b.response|);
      && Count(StepRun(s, b, Conv, mode).events, IsGenEval) == n
      && n <= |StepRun(s, b, Conv, mode).events|
      && StepRun(s, b, Conv, mode).events[|StepRun(s, b, Conv, mode).events| - n..]
         == ConvEvaluateEvents(ConvPreds(s, b, mode), b.response)
  {
    var pre := ConvLossEvents(s, b, mode);
    var evs := ConvEvaluateEvents(ConvPreds(s, b, mode), b.response);
    assert StepRun(s, b, Conv, mode).events == pre + evs;
    ConvEvaluateSpec(ConvPreds(s, b, mode), b.response);
    CountNone(evs, IsBackward);
    CountNone(evs, RecordNamed("gen_loss"));
    CountNone(evs, RecordNamed("ppl"));
    CountAppend(pre, evs, IsBackward);
    CountAppend(pre, evs, IsGenEval);
    CountAppend(pre, evs, RecordNamed("gen_loss"));
    CountAppend(pre, evs, RecordNamed("ppl"));
    ConvLossCounts(s, b, mode);
  }

  lemma CountPair<T>(x: T, y: T, p: T -> bool)
    ensures Count([x, y], p) == (if p(x) then 1 else 0) + (if p(y) then 1 else 0)
  {
    CountOne(x, p);
    assert [x, y][..1] == [x];
  }

  lemma CountTriple<T>(x: T, y: T, z: T, p: T -> bool)
    ensures Count([x, y, z], p) == (if p(x) then 1 else 0) + (if p(y) then 1 else 0) + (if p(z) then 1 else 0)
  {
    CountPair(x, y, p);
    assert [x, y, z][..2] == [x, y];
  }

  lemma ConvLossCounts(s: Setup, b: Batch, mode: Mode)
    ensures Count(ConvLossEvents(s, b, mode), IsBackward) == if mode == Train then 1 else 0
    ensures Count(ConvLossEvents(s, b, mode), IsGenEval) == 0
    ensures Count(ConvLossEvents(s, b, mode), RecordNamed("gen_loss")) == if mode != Test then 1 else 0
    ensures Count(ConvLossEvents(s, b, mode), RecordNamed("ppl")) == if mode != Test then 1 else 0
  {
    var pre := ConvLossEvents(s, b, mode);
    CountNone(pre, IsGenEval);
    if mode != Test {
      var out := s.model.conversation(b, mode);
      var g := Record(OptimMetrics, "gen_loss", out.genLoss);
      var p := Record(GenMetrics, "ppl", out.genLoss);
      if mode == Train {
        var k := Backward(Single(out.genLoss));
        assert pre == [k, g, p];
        CountTriple(k, g, p, IsBackward);
        CountTriple(k, g, p, RecordNamed("gen_loss"));
        CountTriple(k, g, p, RecordNamed("ppl"));
      } else {
        assert pre == [g, p];
        CountPair(g, p, IsBackward);
        CountPair(g, p, RecordNamed("gen_loss"));
        CountPair(g, p, RecordNamed("ppl"));
      }
    }
  }

  /** A stage other than the three known ones raises before any effect. */
  lemma StepUnknownSpec(s: Setup, b: Batch, name: string, mode: Mode)
    ensures StepRun(s, b, OtherStage(name), mode).events == []
    ensures StepRun(s, b, OtherStage(name), mode).failure == Some(UnknownStage(name))
  {
  }

  /** Inside a pass, `step` only back-propagates, records losses and calls the evaluators. */
  lemma StepEffects(s: Setup, b: Batch, stage: Stage, mode: Mode)
    ensures forall i :: 0 <= i < |StepRun(s, b, stage, mode).events| ==> IsStepEffect(StepRun(s, b, stage, mode).events[i])
  {
    match stage
    case Pretrain =>
      StepPretrainEffects(s, b, mode);
    case Rec =>
      StepRecEffects(s, b, mode);
    case Conv =>
      StepConvEffects(s, b, mode);
    case OtherStage(name) =>
      StepUnknownSpec(s, b, name, mode);
  }

  lemma StepPretrainEffects(s: Setup, b: Batch, mode: Mode)
    ensures forall i :: 0 <= i < |StepRun(s, b, Pretrain, mode).events| ==> IsStepEffect(StepRun(s, b, Pretrain, mode).events[i])
  {
  }

  lemma StepConvEffects(s: Setup, b: Batch, mode: Mode)
    ensures forall i :: 0 <= i < |StepRun(s, b, Conv, mode).events| ==> IsStepEffect(StepRun(s, b, Conv, mode).events[i])
  {
    var loss := ConvLossEvents(s, b, mode);
    var gen := ConvEvaluateEvents(ConvPreds(s, b, mode), b.response);
    assert StepRun(s, b, Conv, mode).events == loss + gen;
    ConvLossEffects(s, b, mode);
    ConvEvaluateSpec(ConvPreds(s, b, mode), b.response);
    EffectsAppend(loss, gen);
  }

  lemma ThenEffects(a: Run, b: Run)
    requires forall i :: 0 <= i < |a.events| ==> IsStepEffect(a.events[i])
    requires forall i :: 0 <= i < |b.events| ==> IsStepEffect(b.events[i])
    ensures forall i :: 0 <= i < |Then(a, b).events| ==> IsStepEffect(Then(a, b).events[i])
  {
    if a.failure.None? {
      EffectsAppend(a.events, b.events);
    }
  }

  lemma EffectsAppend(xs: seq<Event>, ys: seq<Event>)
    requires forall i :: 0 <= i < |xs| ==> IsStepEffect(xs[i])
    requires forall i :: 0 <= i < |ys| ==> IsStepEffect(ys[i])
    ensures forall i :: 0 <= i < |xs + ys| ==> IsStepEffect((xs + ys)[i])
  {
    forall i | 0 <= i < |xs + ys|
      ensures IsStepEffect((xs + ys)[i])
    {
      if i >= |xs| {
        assert (xs + ys)[i] == ys[i - |xs|];
      }
    }
  }

  lemma ConvLossEffects(s: Setup, b: Batch, mode: Mode)
    ensures forall i :: 0 <= i < |ConvLossEvents(s, b, mode)| ==> IsStepEffect(ConvLossEvents(s, b, mode)[i])
  {
    if mode != Test {
      var out := s.model.conversation(b, mode);
      var records := [Record(OptimMetrics, "gen_loss", out.genLoss), Record(GenMetrics, "ppl", out.genLoss)];
      if mode == Train {
        assert ConvLossEvents(s, b, mode) == [Backward(Single(out.genLoss))] + records;
      } else {
        assert ConvLossEvents(s, b, mode) == records;
      }
    }
  }

  lemma StepRecEffects(s: Setup, b: Batch, mode: Mode)
    ensures forall i :: 0 <= i < |StepRun(s, b, Rec, mode).events| ==> IsStepEffect(StepRun(s, b, Rec, mode).events[i])
  {
    var out := s.model.recommender(b, mode);
    var r := StepRun(s, b, Rec, mode);
    LossRecordsSpec(out);
    if mode == Train {
      assert r.events == [Backward(RecObjective(out))] + LossRecords(out);
      EffectsAppend([Backward(RecObjective(out))], LossRecords(out));
    } else {
      var ev := RecEvaluateRun(s.movieIds, out.scores, b.movieLabels, TopN);
      RecEvaluateEffects(s.movieIds, out.scores, b.movieLabels, TopN);
      if ev.failure.None? {
        assert r.events == ev.events + LossRecords(out);
        EffectsAppend(ev.events, LossRecords(out));
      }
    }
  }

  /** Only a rec evaluation or an unknown stage raises. */
  lemma StepFailureCause(s: Setup, b: Batch, stage: Stage, mode: Mode)
    ensures StepRun(s, b, stage, mode).failure.Some? ==> stage.OtherStage? || (stage == Rec && mode != Train)
  {
  }

  // ---------------------------------------------------------------- passes

  /** One more step at the end of a pass, unless an earlier step raised. */
  lemma StepsRunLast(s: Setup, batches: seq<Batch>, stage: Stage, mode: Mode, n: nat)
    requires 0 < n <= |batches|
    ensures StepsRun(s, batches, stage, mode, n) ==
      Then(StepsRun(s, batches, stage, mode, n - 1), StepRun(s, batches[n - 1], stage, mode))
  {
    assert StepsRun(s, batches, stage, mode, n) == StepsThrough(s, batches, stage, mode, n - 1);
  }

  /** The steps of a pass only have step effects. */
  lemma {:induction false} StepsEffects(s: Setup, batches: seq<Batch>, stage: Stage, mode: Mode, n: nat)
    requires n <= |batches|
    ensures forall i :: 0 <= i < |StepsRun(s, batches, stage, mode, n).events| ==>
      IsStepEffect(StepsRun(s, batches, stage, mode, n).events[i])
  {
    if n > 0 {
      StepsEffects(s, batches, stage, mode, n - 1);
      StepsThroughEffects(s, batches, stage, mode, n - 1);
    }
  }

  lemma StepsThroughEffects(s: Setup, batches: seq<Batch>, stage: Stage, mode: Mode, i: nat)
    requires i < |batches|
    requires forall j :: 0 <= j < |StepsRun(s, batches, stage, mode, i).events| ==>
      IsStepEffect(StepsRun(s, batches, stage, mode, i).events[j])
    ensures forall j :: 0 <= j < |StepsThrough(s, batches, stage, mode, i).events| ==>
      IsStepEffect(StepsThrough(s, batches, stage, mode, i).events[j])
  {
    StepEffects(s, batches[i], stage, mode);
    ThenEffects(StepsRun(s, batches, stage, mode, i), StepRun(s, batches[i], stage, mode));
  }

  /** The steps of a pass raise only in a rec pass outside training, or at an unknown stage. */
  lemma {:induction false} StepsFailure(s: Setup, batches: seq<Batch>, stage: Stage, mode: Mode, n: nat)
    requires n <= |batches|
    ensures StepsRun(s, batches, stage, mode, n).failure.Some? ==> stage.OtherStage? || (stage == Rec && mode != Train)
  {
    if n > 0 {
      StepsFailure(s, batches, stage, mode, n - 1);
      StepsRunLast(s, batches, stage, mode, n);
      StepFailureCause(s, batches[n - 1], stage, mode);
    }
  }

  /** Steps bracketed by a reset and a report: the report happens only when no step raised. */
  lemma BracketSpec(steps: Run)
    requires forall i :: 0 <= i < |steps.events| ==> IsStepEffect(steps.events[i])
    ensures var r := Then(Then(Emit([Reset]), steps), Emit([Report]));
      && |r.events| >= 1 && r.events[0] == Reset
      && r.failure == steps.failure
      && (r.failure.None? ==> |r.events| >= 2 && r.events[|r.events| - 1] == Report)
      && (forall i :: 1 <= i < |r.events| - (if r.failure.None? then 1 else 0) ==> IsStepEffect(r.events[i]))
      && Count(r.events, IsReset) == 1
      && Count(r.events, IsReport) == (if r.failure.None? then 1 else 0)
  {
    var r := Then(Then(Emit([Reset]), steps), Emit([Report]));
    CountNone(steps.events, IsReset);
    CountNone(steps.events, IsReport);
    CountOne(Reset, IsReset);
    CountOne(Reset, IsReport);
    CountAppend([Reset], steps.events, IsReset);
    CountAppend([Reset], steps.events, IsReport);
    if steps.failure.None? {
      assert r.events == [Reset] + steps.events + [Report];
      CountOne(Report, IsReset);
      CountOne(Report, IsReport);
      CountAppend([Reset] + steps.events, [Report], IsReset);
      CountAppend([Reset] + steps.events, [Report], IsReport);
      forall i | 1 <= i < |r.events| - 1
        ensures IsStepEffect(r.events[i])
      {
        assert r.events[i] == steps.events[i - 1];
      }
    } else {
      assert r.events == [Reset] + steps.events;
      forall i | 1 <= i < |r.events|
        ensures IsStepEffect(r.events[i])
      {
        assert r.events[i] == steps.events[i - 1];
      }
    }
  }

  /**
   * Every pass starts with a metrics reset; when no step raised it ends with
   * a report, with only step effects between. Only a rec pass outside
   * training can raise, and a pass that raised reports nothing.
   */
  lemma PassSpec(s: Setup, stage: Stage, mode: Mode)
    ensures |PassRun(s, stage, mode).events| >= 1 && PassRun(s, stage, mode).events[0] == Reset
    ensures PassRun(s, stage, mode).failure.None? ==>
      |PassRun(s, stage, mode).events| >= 2 &&
      PassRun(s, stage, mode).events[|PassRun(s, stage, mode).events| - 1] == Report
    ensures forall i :: 1 <= i < |PassRun(s, stage, mode).events| - (if PassRun(s, stage, mode).failure.None? then 1 else 0) ==>
      IsStepEffect(PassRun(s, stage, mode).events[i])
    ensures Count(PassRun(s, stage, mode).events, IsReset) == 1
    ensures Count(PassRun(s, stage, mode).events, IsReport) == if PassRun(s, stage, mode).failure.None? then 1 else 0
    ensures PassRun(s, stage, mode).failure.Some? ==> stage == Rec && mode != Train
  {
    var batches := Batches(s, stage, mode);
    var steps := StepsRun(s, batches, stage, mode, |batches|);
    StepsEffects(s, batches, stage, mode, |batches|);
    StepsFailure(s, batches, stage, mode, |batches|);
    BracketSpec(steps);
  }

  // ---------------------------------------------------------------- phases

  /** Carrying out two plans one after the other is carrying out their concatenation. */
  lemma {:induction false} PlanRunAppend(s: Setup, p: seq<Action>, q: seq<Action>)
    ensures PlanRun(s, p + q) == Then(PlanRun(s, p), PlanRun(s, q))
    decreases |q|
  {
    if q == [] {
      assert p + q == p;
    } else {
      var front := q[..|q| - 1];
      assert (p + q)[..|p + q| - 1] == p + front;
      PlanRunAppend(s, p, front);
      ThenAssoc(PlanRun(s, p), PlanRun(s, front), ActionRun(s, q[|q| - 1]));
    }
  }

  /** `fit` is `pretrain`, then `train_recommender`, then `train_conversation`, stopping at an exception. */
  lemma FitSplit(s: Setup)
    ensures PlanRun(s, FitPlan(s)) == Then(Then(PlanRun(s, PretrainPlan(s)), PlanRun(s, RecPlan(s))), PlanRun(s, ConvPlan(s)))
  {
    PlanRunAppend(s, PretrainPlan(s) + RecPlan(s), ConvPlan(s));
    PlanRunAppend(s, PretrainPlan(s), RecPlan(s));
  }

  /** An empty run in front of another changes nothing. */
  lemma ThenEmpty(r: Run)
    ensures Then(Emit([]), r) == r
  {
    assert [] + r.events == r.events;
  }

  /** Carrying out `n` copies of a plan is `n` epochs of that plan's run. */
  lemma {:induction false} RepeatedPlan(s: Setup, xs: seq<Action>, n: nat)
    ensures PlanRun(s, Repeat(xs, n)) == Repeated(PlanRun(s, xs), n)
  {
    if n > 0 {
      RepeatedPlan(s, xs, n - 1);
      PlanRunAppend(s, Repeat(xs, n - 1), xs);
    }
  }

  /** A one-action plan is that action's run. */
  lemma PlanRunOne(s: Setup, a: Action)
    ensures PlanRun(s, [a]) == ActionRun(s, a)
  {
    PlanRunSnoc(s, [], a);
    assert [] + [a] == [a];
    ThenEmpty(ActionRun(s, a));
  }

  /** The pair of actions of a rec or conv epoch is `EpochRun`. */
  lemma EpochPlan(s: Setup, stage: Stage)
    ensures PlanRun(s, [PassOf(stage, Train), PassOf(stage, Val)]) == EpochRun(s, stage)
  {
    PlanRunOne(s, PassOf(stage, Train));
    PlanRunSnoc(s, [PassOf(stage, Train)], PassOf(stage, Val));
    assert [PassOf(stage, Train)] + [PassOf(stage, Val)] == [PassOf(stage, Train), PassOf(stage, Val)];
  }

  /** `pretrain` as the code runs it: the optimiser, then the epoch loop. */
  lemma PretrainPlanSplit(s: Setup)
    ensures PlanRun(s, PretrainPlan(s)) ==
      Then(Emit([BuildOptimizer(Pretrain)]), Repeated(PassRun(s, Pretrain, Train), s.pretrainEpoch))
  {
    PlanRunAppend(s, [BuildFor(Pretrain)], Repeat([PassOf(Pretrain, Train)], s.pretrainEpoch));
    PlanRunOne(s, BuildFor(Pretrain));
    PlanRunOne(s, PassOf(Pretrain, Train));
    RepeatedPlan(s, [PassOf(Pretrain, Train)], s.pretrainEpoch);
  }

  /** A phase of the shape head, `n` copies of a block, last action. */
  lemma PhaseSplit(s: Setup, head: seq<Action>, xs: seq<Action>, n: nat, last: Action)
    ensures PlanRun(s, head + Repeat(xs, n) + [last]) ==
      Then(Then(PlanRun(s, head), Repeated(PlanRun(s, xs), n)), ActionRun(s, last))
  {
    PlanRunSnoc(s, head + Repeat(xs, n), last);
    PlanRunAppend(s, head, Repeat(xs, n));
    RepeatedPlan(s, xs, n);
  }

  /** `train_recommender` as the code runs it: the optimiser, the epoch loop, then the test pass. */
  lemma RecPlanSplit(s: Setup)
    ensures PlanRun(s, RecPlan(s)) ==
      Then(Then(Emit([BuildOptimizer(Rec)]), Repeated(EpochRun(s, Rec), RecEpochs(s))), PassRun(s, Rec, Test))
  {
    PhaseSplit(s, [BuildFor(Rec)], [PassOf(Rec, Train), PassOf(Rec, Val)], RecEpochs(s), PassOf(Rec, Test));
    PlanRunOne(s, BuildFor(Rec));
    EpochPlan(s, Rec);
  }

  /** `train_conversation` as the code runs it: freeze, the optimiser, the epoch loop, then the test pass. */
  lemma ConvPlanSplit(s: Setup)
    ensures PlanRun(s, ConvPlan(s)) ==
      Then(Then(Emit([StemConvParameters, BuildOptimizer(Conv)]), Repeated(EpochRun(s, Conv), s.convEpoch)), PassRun(s, Conv, Test))
  {
    PhaseSplit(s, [StemConv, BuildFor(Conv)], [PassOf(Conv, Train), PassOf(Conv, Val)], s.convEpoch, PassOf(Conv, Test));
    ConvHead(s);
    EpochPlan(s, Conv);
  }

  /** Freezing the stem, then building the optimiser. */
  lemma ConvHead(s: Setup)
    ensures PlanRun(s, [StemConv, BuildFor(Conv)]) == Emit([StemConvParameters, BuildOptimizer(Conv)])
  {
    PlanRunOne(s, StemConv);
    PlanRunSnoc(s, [StemConv], BuildFor(Conv));
    assert [StemConv] + [BuildFor(Conv)] == [StemConv, BuildFor(Conv)];
  }

  /** `n` repetitions of a one-item block. */
  lemma {:induction false} RepeatOneSpec(a: Action, n: nat)
    ensures |Repeat([a], n)| == n
    ensures forall i :: 0 <= i < n ==> Repeat([a], n)[i] == a
  {
    if n > 0 {
      RepeatOneSpec(a, n - 1);
    }
  }

  /** `n` repetitions of a two-item block alternate between its items. */
  lemma {:induction false} RepeatPairSpec(a: Action, b: Action, n: nat)
    ensures |Repeat([a, b], n)| == 2 * n
    ensures forall i :: 0 <= i < 2 * n ==> Repeat([a, b], n)[i] == if i % 2 == 0 then a else b
  {
    if n > 0 {
      RepeatPairSpec(a, b, n - 1);
    }
  }

  /**
   * The number of recommender epochs run: at most `rec_epoch`, at least one
   * when any is configured, none of the epochs before the last had its stop
   * flag set, and the loop ended early only because the last one had.
   */
  lemma {:induction false} EpochsFromSpec(n: nat, stop: nat -> bool, i: nat)
    requires i <= n
    ensures i <= EpochsFrom(n, stop, i) <= n
    ensures i < n ==> i < EpochsFrom(n, stop, i)
    ensures forall j :: i <= j < EpochsFrom(n, stop, i) - 1 ==> !stop(j)
    ensures EpochsFrom(n, stop, i) < n ==> stop(EpochsFrom(n, stop, i) - 1)
    decreases n - i
  {
    if i < n && !stop(i) {
      EpochsFromSpec(n, stop, i + 1);
    }
  }

  lemma RecEpochsSpec(s: Setup)
    ensures RecEpochs(s) <= s.recEpoch
    ensures s.recEpoch > 0 ==> RecEpochs(s) >= 1
    ensures forall j :: 0 <= j < RecEpochs(s) - 1 ==> !s.stop(j)
    ensures RecEpochs(s) < s.recEpoch ==> s.stop(RecEpochs(s) - 1)
  {
    EpochsFromSpec(s.recEpoch, s.stop, 0);
  }

  /** `pretrain`: the optimiser, then exactly `pretrain_epoch` training passes and nothing else. */
  lemma PretrainPlanShape(s: Setup)
    ensures |PretrainPlan(s)| == 1 + s.pretrainEpoch
    ensures PretrainPlan(s)[0] == BuildFor(Pretrain)
    ensures forall i :: 1 <= i < |PretrainPlan(s)| ==> PretrainPlan(s)[i] == PassOf(Pretrain, Train)
  {
    RepeatOneSpec(PassOf(Pretrain, Train), s.pretrainEpoch);
  }

  /**
   * `train_recommender`: the optimiser, then per epoch a training pass
   * followed by a validation pass, for the epochs `RecEpochs` counts, then
   * exactly one test pass, which is the last action.
   */
  lemma RecPlanShape(s: Setup)
    ensures |RecPlan(s)| == 2 * RecEpochs(s) + 2
    ensures RecPlan(s)[0] == BuildFor(Rec)
    ensures forall i :: 1 <= i < |RecPlan(s)| - 1 ==>
      RecPlan(s)[i] == if i % 2 == 1 then PassOf(Rec, Train) else PassOf(Rec, Val)
    ensures RecPlan(s)[|RecPlan(s)| - 1] == PassOf(Rec, Test)
  {
    var e := RecEpochs(s);
    var body := Repeat([PassOf(Rec, Train), PassOf(Rec, Val)], e);
    RepeatPairSpec(PassOf(Rec, Train), PassOf(Rec, Val), e);
    forall i | 1 <= i < 2 * e + 1
      ensures RecPlan(s)[i] == if i % 2 == 1 then PassOf(Rec, Train) else PassOf(Rec, Val)
    {
      assert RecPlan(s)[i] == body[i - 1];
    }
  }

  /**
   * `train_conversation`: freeze, the optimiser, then exactly `conv_epoch`
   * training and validation pairs with no early stop, then one test pass.
   */
  lemma ConvPlanShape(s: Setup)
    ensures |ConvPlan(s)| == 2 * s.convEpoch + 3
    ensures ConvPlan(s)[0] == StemConv && ConvPlan(s)[1] == BuildFor(Conv)
    ensures forall i :: 2 <= i < |ConvPlan(s)| - 1 ==>
      ConvPlan(s)[i] == if i % 2 == 0 then PassOf(Conv, Train) else PassOf(Conv, Val)
    ensures ConvPlan(s)[|ConvPlan(s)| - 1] == PassOf(Conv, Test)
  {
    var body := Repeat([PassOf(Conv, Train), PassOf(Conv, Val)], s.convEpoch);
    RepeatPairSpec(PassOf(Conv, Train), PassOf(Conv, Val), s.convEpoch);
    forall i | 2 <= i < 2 * s.convEpoch + 2
      ensures ConvPlan(s)[i] == if i % 2 == 0 then PassOf(Conv, Train) else PassOf(Conv, Val)
    {
      assert ConvPlan(s)[i] == body[i - 2];
    }
  }

  /** An action that raises is a rec pass outside training; every action emits a stem-freeze only if it is one. */
  lemma ActionSpec(s: Setup, a: Action)
    ensures ActionRun(s, a).failure.Some? ==> a.PassOf? && a.stage == Rec && a.mode != Train
    ensures a != StemConv ==> forall i :: 0 <= i < |ActionRun(s, a).events| ==> ActionRun(s, a).events[i] != StemConvParameters
  {
    if a.PassOf? {
      PassSpec(s, a.stage, a.mode);
      var r := PassRun(s, a.stage, a.mode);
      forall i | 0 <= i < |r.events|
        ensures r.events[i] != StemConvParameters
      {
        if 1 <= i < |r.events| - (if r.failure.None? then 1 else 0) {
          assert IsStepEffect(r.events[i]);
        }
      }
    }
  }

  /** A plan raises only through one of its rec passes outside training, and freezes the stem only if it says so. */
  lemma {:induction false} PlanSpec(s: Setup, plan: seq<Action>)
    ensures PlanRun(s, plan).failure.Some? ==>
      exists i :: 0 <= i < |plan| && plan[i].PassOf? && plan[i].stage == Rec && plan[i].mode != Train
    ensures StemConv !in plan ==>
      forall i :: 0 <= i < |PlanRun(s, plan).events| ==> PlanRun(s, plan).events[i] != StemConvParameters
    decreases |plan|
  {
    if plan != [] {
      var front := plan[..|plan| - 1];
      var a := plan[|plan| - 1];
      PlanSpec(s, front);
      ActionSpec(s, a);
      var prev := PlanRun(s, front);
      var r := PlanRun(s, plan);
      if prev.failure.Some? {
        var i :| 0 <= i < |front| && front[i].PassOf? && front[i].stage == Rec && front[i].mode != Train;
        assert plan[i] == front[i];
      } else {
        if r.failure.Some? {
          assert plan[|plan| - 1] == a;
        }
        if StemConv !in plan {
          assert StemConv !in front;
          forall i | 0 <= i < |r.events|
            ensures r.events[i] != StemConvParameters
          {
            if i >= |prev.events| {
              assert r.events[i] == ActionRun(s, a).events[i - |prev.events|];
            }
          }
        }
      }
    }
  }

  /** `pretrain` and `train_conversation` never raise. */
  lemma PhasesThatNeverRaise(s: Setup)
    ensures PlanRun(s, PretrainPlan(s)).failure.None?
    ensures PlanRun(s, ConvPlan(s)).failure.None?
  {
    PretrainPlanShape(s);
    ConvPlanShape(s);
    PlanSpec(s, PretrainPlan(s));
    PlanSpec(s, ConvPlan(s));
  }

  /**
   * `fit` raises exactly when `train_recommender` does, and then the
   * conversation phase never starts: its stem freeze does not happen.
   */
  lemma FitSpec(s: Setup)
    ensures PlanRun(s, FitPlan(s)).failure == PlanRun(s, RecPlan(s)).failure
    ensures PlanRun(s, FitPlan(s)).failure.Some? ==>
      forall i :: 0 <= i < |PlanRun(s, FitPlan(s)).events| ==> PlanRun(s, FitPlan(s)).events[i] != StemConvParameters
  {
    FitSplit(s);
    PhasesThatNeverRaise(s);
    PhasesBeforeConvNoStem(s);
    MiddleFailure(PlanRun(s, PretrainPlan(s)), PlanRun(s, RecPlan(s)), PlanRun(s, ConvPlan(s)), StemConvParameters);
  }

  /** Neither `pretrain` nor `train_recommender` freezes the stem. */
  lemma PhasesBeforeConvNoStem(s: Setup)
    ensures forall i :: 0 <= i < |PlanRun(s, PretrainPlan(s)).events| ==> PlanRun(s, PretrainPlan(s)).events[i] != StemConvParameters
    ensures forall i :: 0 <= i < |PlanRun(s, RecPlan(s)).events| ==> PlanRun(s, RecPlan(s)).events[i] != StemConvParameters
  {
    PretrainPlanShape(s);
    RecPlanShape(s);
    assert StemConv !in PretrainPlan(s) by {
      forall i | 0 <= i < |PretrainPlan(s)| ensures PretrainPlan(s)[i] != StemConv { }
    }
    assert StemConv !in RecPlan(s) by {
      forall i | 0 <= i < |RecPlan(s)| ensures RecPlan(s)[i] != StemConv { }
    }
    PlanSpec(s, PretrainPlan(s));
    PlanSpec(s, RecPlan(s));
  }

  /**
   * Three runs one after the other, where only the middle one can raise:
   * the whole raises exactly when the middle does, and then holds only what
   * the first two emitted.
   */
  lemma MiddleFailure(a: Run, b: Run, c: Run, e: Event)
    requires a.failure.None? && c.failure.None?
    requires forall i :: 0 <= i < |a.events| ==> a.events[i] != e
    requires forall i :: 0 <= i < |b.events| ==> b.events[i] != e
    ensures Then(Then(a, b), c).failure == b.failure
    ensures b.failure.Some? ==> forall i :: 0 <= i < |Then(Then(a, b), c).events| ==> Then(Then(a, b), c).events[i] != e
  {
    if b.failure.Some? {
      var r := Then(Then(a, b), c);
      assert r.events == a.events + b.events;
      forall i | 0 <= i < |r.events|
        ensures r.events[i] != e
      {
        if i >= |a.events| {
          assert r.events[i] == b.events[i - |a.events|];
        }
      }
    }
  }

  // ---------------------------------------------------------------- exceptions stop everything after them

  /** Once a row's label is missing from the catalogue, no later row is evaluated. */
  lemma {:induction false} RecRowsAbort(ids: seq<nat>, ranks: seq<seq<nat>>, labels: seq<nat>, i: nat, n: nat)
    requires i <= n <= |ranks| && n <= |labels|
    requires RecRows(ids, ranks, labels, i).failure.Some?
    ensures RecRows(ids, ranks, labels, n) == RecRows(ids, ranks, labels, i)
    decreases n
  {
    if i < n {
      RecRowsAbort(ids, ranks, labels, i, n - 1);
    }
  }

  /** Once a step raised, no later step of the pass runs. */
  lemma {:induction false} StepsAbort(s: Setup, batches: seq<Batch>, stage: Stage, mode: Mode, i: nat, n: nat)
    requires i <= n <= |batches|
    requires StepsRun(s, batches, stage, mode, i).failure.Some?
    ensures StepsRun(s, batches, stage, mode, n) == StepsRun(s, batches, stage, mode, i)
    decreases n
  {
    if i < n {
      StepsAbort(s, batches, stage, mode, i, n - 1);
      StepsRunLast(s, batches, stage, mode, n);
    }
  }

  /** One more action at the end of a plan. */
  lemma PlanRunSnoc(s: Setup, p: seq<Action>, a: Action)
    ensures PlanRun(s, p + [a]) == Then(PlanRun(s, p), ActionRun(s, a))
  {
    assert (p + [a])[..|p + [a]| - 1] == p;
  }

  /** Once a plan's prefix raised, the rest of the plan does not run. */
  lemma PlanAbort(s: Setup, p: seq<Action>, q: seq<Action>)
    requires PlanRun(s, p).failure.Some?
    ensures PlanRun(s, p + q) == PlanRun(s, p)
  {
    PlanRunAppend(s, p, q);
  }

  /** Once an epoch raised, no later epoch of the loop runs. */
  lemma {:induction false} EpochsAbort(r: Run, i: nat, n: nat)
    requires i <= n
    requires Repeated(r, i).failure.Some?
    ensures Repeated(r, n) == Repeated(r, i)
    decreases n
  {
    if i < n {
      EpochsAbort(r, i, n - 1);
    }
  }
}
