/**
 * `KGSFSystem`: the training system's control flow, step by step. The
 * system's effects on its collaborators are appended to `log`; an
 * exception is returned as a failure, and nothing runs after it.
 */
module KgsfSystem {
  import opened Basics
  import opened RecRanking
  import opened KgsfTrace
  import opened KgsfProperties

  class KGSFSystem {
    /** The configuration, the data loaders, the model and the early-stop flag. */
    const setup: Setup
    /** The effects so far, in the order they happened. */
    var log: seq<Event>

    constructor(setup: Setup)
      ensures this.setup == setup && log == []
    {
      this.setup := setup;
      log := [];
    }

    /** `rec_evaluate(rec_predict, movie_label)`. */
    method RecEvaluate(scores: seq<seq<int>>, labels: seq<nat>) returns (err: Option<Failure>)
      modifies this
      ensures log == old(log) + RecEvaluateRun(setup.movieIds, scores, labels, TopN).events
      ensures err == RecEvaluateRun(setup.movieIds, scores, labels, TopN).failure
    {
      var ids := setup.movieIds;
      if !AllColumnsInRange(scores, ids) {
        return Some(ColumnOutOfRange);
      }
      if |ids| < TopN {
        return Some(TooFewCandidates);
      }
      var ranks := Ranks(ids, scores, TopN);
      err := EvaluateRows(ranks, labels);
    }

    /** The loop of `rec_evaluate` over the (ranking, label) pairs. */
    method EvaluateRows(ranks: seq<seq<nat>>, labels: seq<nat>) returns (err: Option<Failure>)
      modifies this
      ensures var n := Min(|ranks|, |labels|);
        log == old(log) + RecRows(setup.movieIds, ranks, labels, n).events &&
        err == RecRows(setup.movieIds, ranks, labels, n).failure
    {
      var ids := setup.movieIds;
      var n := Min(|ranks|, |labels|);
      var i := 0;
      while i < n
        invariant 0 <= i <= n
        invariant RecRows(ids, ranks, labels, i).failure.None?
        invariant log == old(log) + RecRows(ids, ranks, labels, i).events
      {
        var movie := IndexOf(ids, labels[i]);
        if movie.None? {
          RecRowsAbort(ids, ranks, labels, i + 1, n);
          return Some(LabelNotInCatalog(labels[i]));
        }
        log := log + [RecEval(ranks[i], movie.value)];
        i := i + 1;
      }
      return None;
    }

    /** `conv_evaluate(prediction, response)`. */
    method ConvEvaluate(preds: seq<seq<TokenId>>, responses: seq<seq<TokenId>>)
      modifies this
      ensures log == old(log) + ConvEvaluateEvents(preds, responses)
    {
      var n := Min(|preds|, |responses|);
      var i := 0;
      while i < n
        invariant 0 <= i <= n
        invariant log == old(log) + GenEvals(preds, responses, i)
      {
        log := log + [GenEval(preds[i], responses[i])];
        i := i + 1;
      }
    }

    /** `step(batch, stage, mode)`. */
    method Step(b: Batch, stage: Stage, mode: Mode) returns (err: Option<Failure>)
      modifies this
      ensures log == old(log) + StepRun(setup, b, stage, mode).events
      ensures err == StepRun(setup, b, stage, mode).failure
    {
      match stage
      case Pretrain =>
        var info := setup.model.pretrainInfomax(b);
        if Present(info) {
          log := log + [Backward(Single(info.value))];
          log := log + [Record(OptimMetrics, "info_loss", info.value)];
        }
        return None;
      case Rec =>
        err := RecStep(b, mode);
      case Conv =>
        err := ConvStep(b, mode);
      case OtherStage(name) =>
        return Some(UnknownStage(name));
    }

    /** The `rec` branch of `step`: back-propagate in training, otherwise evaluate, then record the losses. */
    method RecStep(b: Batch, mode: Mode) returns (err: Option<Failure>)
      modifies this
      ensures log == old(log) + StepRun(setup, b, Rec, mode).events
      ensures err == StepRun(setup, b, Rec, mode).failure
    {
      var out := setup.model.recommender(b, mode);
      var loss;
      if Present(out.infoLoss) {
        loss := Weighted(out.recLoss, out.infoLoss.value);
      } else {
        loss := Single(out.recLoss);
      }
      ghost var first := if mode == Train then Emit([Backward(RecObjective(out))])
                         else RecEvaluateRun(setup.movieIds, out.scores, b.movieLabels, TopN);
      if mode == Train {
        log := log + [Backward(loss)];
      } else {
        err := RecEvaluate(out.scores, b.movieLabels);
        if err.Some? {
          return;
        }
      }
      ghost var mid := log;
      log := log + [Record(OptimMetrics, "rec_loss", out.recLoss)];
      if Present(out.infoLoss) {
        log := log + [Record(OptimMetrics, "info_loss", out.infoLoss.value)];
      }
      assert log == mid + LossRecords(out);
      AppendThen(old(log), first, Emit(LossRecords(out)));
      return None;
    }

    /** The `conv` branch of `step`: losses outside testing, then the generation metrics. */
    method ConvStep(b: Batch, mode: Mode) returns (err: Option<Failure>)
      modifies this
      ensures log == old(log) + StepRun(setup, b, Conv, mode).events
      ensures err == StepRun(setup, b, Conv, mode).failure
    {
      var pred;
      if mode != Test {
        var out := setup.model.conversation(b, mode);
        if mode == Train {
          log := log + [Backward(Single(out.genLoss))];
        }
        log := log + [Record(OptimMetrics, "gen_loss", out.genLoss)];
        log := log + [Record(GenMetrics, "ppl", out.genLoss)];
        pred := out.preds;
      } else {
        pred := setup.model.generate(b);
      }
      ConvEvaluate(pred, b.response);
      return None;
    }

    /** One pass of a phase loop: reset the metrics, step over every batch, report. */
    method RunPass(stage: Stage, mode: Mode) returns (err: Option<Failure>)
      modifies this
      ensures log == old(log) + PassRun(setup, stage, mode).events
      ensures err == PassRun(setup, stage, mode).failure
    {
      var batches := Batches(setup, stage, mode);
      ghost var steps := StepsRun(setup, batches, stage, mode, |batches|);
      AppendThen(old(log), Emit([Reset]), steps);
      log := log + [Reset];
      err := RunSteps(batches, stage, mode);
      if err.None? {
        AppendThen(old(log), Then(Emit([Reset]), steps), Emit([Report]));
        log := log + [Report];
      }
    }

    /** The batch loop of a pass. */
    method RunSteps(batches: seq<Batch>, stage: Stage, mode: Mode) returns (err: Option<Failure>)
      modifies this
      ensures log == old(log) + StepsRun(setup, batches, stage, mode, |batches|).events
      ensures err == StepsRun(setup, batches, stage, mode, |batches|).failure
    {
      ghost var start := log;
      var i := 0;
      assert StepsRun(setup, batches, stage, mode, 0) == Emit([]);
      assert log == start + [];
      while i < |batches|
        invariant 0 <= i <= |batches|
        invariant StepsRun(setup, batches, stage, mode, i).failure.None?
        invariant log == start + StepsRun(setup, batches, stage, mode, i).events
      {
        err := StepOnto(start, batches, stage, mode, i);
        if err.Some? {
          return;
        }
        i := i + 1;
      }
      return None;
    }

    /** The step on batch `i`, taking the log of the pass's first `i` steps to that of its first `i + 1`. */
    method StepOnto(ghost start: seq<Event>, batches: seq<Batch>, stage: Stage, mode: Mode, i: nat) returns (err: Option<Failure>)
      requires i < |batches|
      requires StepsRun(setup, batches, stage, mode, i).failure.None?
      requires log == start + StepsRun(setup, batches, stage, mode, i).events
      modifies this
      ensures log == start + StepsRun(setup, batches, stage, mode, i + 1).events
      ensures err == StepsRun(setup, batches, stage, mode, i + 1).failure
      ensures err.Some? ==> StepsRun(setup, batches, stage, mode, |batches|) == StepsRun(setup, batches, stage, mode, i + 1)
    {
      err := Step(batches[i], stage, mode);
      StepsRunLast(setup, batches, stage, mode, i + 1);
      AppendThen(start, StepsRun(setup, batches, stage, mode, i), StepRun(setup, batches[i], stage, mode));
      if err.Some? {
        StepsAbort(setup, batches, stage, mode, i + 1, |batches|);
      }
    }

    /** `pretrain()`: build the optimiser, then `pretrain_epoch` epochs of one training pass each. */
    method Pretrain() returns (err: Option<Failure>)
      modifies this
      ensures log == old(log) + PlanRun(setup, PretrainPlan(setup)).events
      ensures err == PlanRun(setup, PretrainPlan(setup)).failure
    {
      PretrainPlanSplit(setup);
      log := log + [BuildOptimizer(Stage.Pretrain)];
      err := PretrainEpochs();
    }

    /** The epoch loop of `pretrain`: one training pass per epoch. */
    method PretrainEpochs() returns (err: Option<Failure>)
      modifies this
      ensures log == old(log) + Repeated(PassRun(setup, Stage.Pretrain, Train), setup.pretrainEpoch).events
      ensures err == Repeated(PassRun(setup, Stage.Pretrain, Train), setup.pretrainEpoch).failure
    {
      var epoch := 0;
      while epoch < setup.pretrainEpoch
        invariant epoch <= setup.pretrainEpoch
        invariant Repeated(PassRun(setup, Stage.Pretrain, Train), epoch).failure.None?
        invariant log == old(log) + Repeated(PassRun(setup, Stage.Pretrain, Train), epoch).events
      {
        err := RunPass(Stage.Pretrain, Train);
        if err.Some? {
          EpochsAbort(PassRun(setup, Stage.Pretrain, Train), epoch + 1, setup.pretrainEpoch);
          return;
        }
        epoch := epoch + 1;
      }
      return None;
    }

    /** One epoch of the recommender or conversation phase: a training pass, then a validation pass. */
    method RunEpoch(stage: Stage) returns (err: Option<Failure>)
      modifies this
      ensures log == old(log) + EpochRun(setup, stage).events
      ensures err == EpochRun(setup, stage).failure
    {
      err := RunPass(stage, Train);
      if err.Some? {
        return;
      }
      err := RunPass(stage, Val);
    }

    /** Epoch `i + 1` of a loop, taking the log of the first `i` epochs to that of the first `i + 1`. */
    method EpochOnto(ghost start: seq<Event>, stage: Stage, ghost i: nat) returns (err: Option<Failure>)
      requires Repeated(EpochRun(setup, stage), i).failure.None?
      requires log == start + Repeated(EpochRun(setup, stage), i).events
      modifies this
      ensures log == start + Repeated(EpochRun(setup, stage), i + 1).events
      ensures err == Repeated(EpochRun(setup, stage), i + 1).failure
    {
      err := RunEpoch(stage);
      AppendThen(start, Repeated(EpochRun(setup, stage), i), EpochRun(setup, stage));
    }

    /**
     * `train_recommender()`: build the optimiser; per epoch a training pass
     * and a validation pass, leaving the loop after the first epoch whose
     * early-stop flag is set; then one test pass.
     */
    method TrainRecommender() returns (err: Option<Failure>)
      modifies this
      ensures log == old(log) + PlanRun(setup, RecPlan(setup)).events
      ensures err == PlanRun(setup, RecPlan(setup)).failure
    {
      ghost var epochs := Repeated(EpochRun(setup, Rec), RecEpochs(setup));
      RecPlanSplit(setup);
      log := log + [BuildOptimizer(Rec)];
      err := RecommenderEpochs();
      AppendThen(old(log), Emit([BuildOptimizer(Rec)]), epochs);
      if err.Some? {
        return;
      }
      err := RunPass(Rec, Test);
      AppendThen(old(log), Then(Emit([BuildOptimizer(Rec)]), epochs), PassRun(setup, Rec, Test));
    }

    /** The epoch loop of `train_recommender`, with its early stop. */
    method RecommenderEpochs() returns (err: Option<Failure>)
      modifies this
      ensures log == old(log) + Repeated(EpochRun(setup, Rec), RecEpochs(setup)).events
      ensures err == Repeated(EpochRun(setup, Rec), RecEpochs(setup)).failure
    {
      ghost var n := setup.recEpoch;
      var epoch := 0;
      while epoch < setup.recEpoch
        invariant epoch <= n
        invariant EpochsFrom(n, setup.stop, epoch) == RecEpochs(setup)
        invariant Repeated(EpochRun(setup, Rec), epoch).failure.None?
        invariant log == old(log) + Repeated(EpochRun(setup, Rec), epoch).events
      {
        EpochsFromSpec(n, setup.stop, epoch);
        err := EpochOnto(old(log), Rec, epoch);
        if err.Some? {
          EpochsAbort(EpochRun(setup, Rec), epoch + 1, RecEpochs(setup));
          return;
        }
        epoch := epoch + 1;
        if setup.stop(epoch - 1) {
          break;
        }
      }
      return None;
    }

    /**
     * `train_conversation()`: freeze the stem, build the optimiser, then
     * `conv_epoch` epochs of a training and a validation pass, then one test pass.
     */
    method TrainConversation() returns (err: Option<Failure>)
      modifies this
      ensures log == old(log) + PlanRun(setup, ConvPlan(setup)).events
      ensures err == PlanRun(setup, ConvPlan(setup)).failure
    {
      ghost var head := Emit([StemConvParameters, BuildOptimizer(Conv)]);
      ghost var epochs := Repeated(EpochRun(setup, Conv), setup.convEpoch);
      ConvPlanSplit(setup);
      log := log + [StemConvParameters];
      log := log + [BuildOptimizer(Conv)];
      assert log == old(log) + head.events;
      err := ConversationEpochs();
      AppendThen(old(log), head, epochs);
      if err.Some? {
        return;
      }
      err := RunPass(Conv, Test);
      AppendThen(old(log), Then(head, epochs), PassRun(setup, Conv, Test));
    }

    /** The epoch loop of `train_conversation`: every epoch runs unless one raises. */
    method ConversationEpochs() returns (err: Option<Failure>)
      modifies this
      ensures log == old(log) + Repeated(EpochRun(setup, Conv), setup.convEpoch).events
      ensures err == Repeated(EpochRun(setup, Conv), setup.convEpoch).failure
    {
      var epoch := 0;
      while epoch < setup.convEpoch
        invariant epoch <= setup.convEpoch
        invariant Repeated(EpochRun(setup, Conv), epoch).failure.None?
        invariant log == old(log) + Repeated(EpochRun(setup, Conv), epoch).events
      {
        err := EpochOnto(old(log), Conv, epoch);
        if err.Some? {
          EpochsAbort(EpochRun(setup, Conv), epoch + 1, setup.convEpoch);
          return;
        }
        epoch := epoch + 1;
      }
      return None;
    }

    /** `fit()`: pretraining, then the recommender phase, then the conversation phase. */
    method Fit() returns (err: Option<Failure>)
      modifies this
      ensures log == old(log) + PlanRun(setup, FitPlan(setup)).events
      ensures err == PlanRun(setup, FitPlan(setup)).failure
    {
      ghost var pre := PlanRun(setup, PretrainPlan(setup));
      ghost var rec := PlanRun(setup, RecPlan(setup));
      ghost var conv := PlanRun(setup, ConvPlan(setup));
      FitSplit(setup);
      err := Pretrain();
      if err.Some? {
        return;
      }
      err := TrainRecommender();
      AppendThen(old(log), pre, rec);
      if err.Some? {
        return;
      }
      err := TrainConversation();
      AppendThen(old(log), Then(pre, rec), conv);
    }
  }
}
