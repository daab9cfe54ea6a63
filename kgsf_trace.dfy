/**
 * The control logic of the KGSF training system, stated as values: what one
 * `step` does for each stage and mode, what `rec_evaluate` hands to the
 * ranking evaluator, and the order of the passes of the three training
 * phases. The neural model, the data loaders, the optimiser and the
 * early-stop tracker are oracles; their effects are recorded as events.
 */
module KgsfTrace {
  import opened Basics
  import opened RecRanking

  /** A token id; turning ids into text is not modelled. */
  type TokenId = nat

  /** The `stage` string; any value other than the three known ones is a programming error. */
  datatype Stage = Pretrain | Rec | Conv | OtherStage(name: string)

  datatype Mode = Train | Val | Test

  /** A scalar loss tensor, opaque except for its truthiness: a zero value is falsy. */
  datatype Loss = Loss(id: nat, isZero: bool)

  /** Python's `if info_loss:` — the loss was returned and is not zero. */
  predicate Present(l: Option<Loss>)
  {
    l.Some? && !l.value.isZero
  }

  /** The loss handed to `backward`: one loss, or `rec_loss + 0.025 * info_loss`. */
  datatype Objective = Single(loss: Loss) | Weighted(recLoss: Loss, infoLoss: Loss)

  /** The evaluator's optimisation-loss accumulator or its generation-metric accumulator. */
  datatype Accumulator = OptimMetrics | GenMetrics

  /** The effects of the system on its collaborators, in the order they happen. */
  datatype Event =
    | BuildOptimizer(stage: Stage)            // build_optimizer and build_lr_scheduler
    | StemConvParameters                      // model.stem_conv_parameters()
    | Reset                                   // evaluator.reset_metrics()
    | Report                                  // evaluator.report()
    | Backward(objective: Objective)          // self.backward(loss)
    | Record(acc: Accumulator, name: string, loss: Loss)
    | RecEval(rank: seq<nat>, item: nat)      // evaluator.rec_evaluate(rank, position)
    | GenEval(pred: seq<TokenId>, reference: seq<TokenId>)

  /** The exceptions the control logic can raise. */
  datatype Failure =
    | UnknownStage(name: string)      // the bare `raise` of `step`
    | ColumnOutOfRange                // `rec_predict[:, movie_ids]` with an id past the last column
    | TooFewCandidates                // `torch.topk(..., 50)` over fewer than 50 columns
    | LabelNotInCatalog(movie: nat)   // `movie_ids.index(movie)` raises ValueError

  /** The events emitted and, when an exception escaped, which one; nothing runs after it. */
  datatype Run = Run(events: seq<Event>, failure: Option<Failure>)

  function Emit(events: seq<Event>): Run
  {
    Run(events, None)
  }

  /** `a` followed by `b`, unless `a` raised. */
  function Then(a: Run, b: Run): Run
  {
    if a.failure.Some? then a else Run(a.events + b.events, b.failure)
  }

  /** A batch: an opaque input and its last element, the supervision target. */
  datatype Batch = Batch(id: nat, movieLabels: seq<nat>, response: seq<seq<TokenId>>)

  datatype RecOut = RecOut(recLoss: Loss, infoLoss: Option<Loss>, scores: seq<seq<int>>)

  datatype ConvOut = ConvOut(genLoss: Loss, preds: seq<seq<TokenId>>)

  /** The model's forward passes as oracles. */
  datatype Model = Model(
    pretrainInfomax: Batch -> Option<Loss>,
    recommender: (Batch, Mode) -> RecOut,
    conversation: (Batch, Mode) -> ConvOut,   // train and val: loss and prediction
    generate: Batch -> seq<seq<TokenId>>)       // test: prediction only

  /** One data loader's batches for each stage. */
  datatype Loader = Loader(pretrainData: seq<Batch>, recData: seq<Batch>, convData: seq<Batch>)

  /** The system's configuration and collaborators; `stop(e)` is the early-stop flag after epoch e. */
  datatype Setup = Setup(
    movieIds: seq<nat>,
    pretrainEpoch: nat, recEpoch: nat, convEpoch: nat,
    train: Loader, valid: Loader, test: Loader,
    model: Model,
    stop: nat -> bool)

  /** The number of candidates `rec_evaluate` ranks. */
  const TopN: nat := 50

  function Min(a: nat, b: nat): nat
  {
    if a <= b then a else b
  }

  /** Every catalogue id names a column of every score row. */
  predicate AllColumnsInRange(scores: seq<seq<int>>, ids: seq<nat>)
  {
    |scores| == 0 ||
    (AllColumnsInRange(scores[..|scores| - 1], ids) && ColumnsInRange(scores[|scores| - 1], ids))
  }

  /** `torch.topk(rec_predict[:, movie_ids], k)` for one row: positions in the catalogue. */
  function RowRank(ids: seq<nat>, row: seq<int>, k: nat): seq<nat>
    requires ColumnsInRange(row, ids) && k <= |ids|
  {
    TopK(Restrict(row, ids), k)
  }

  /** `torch.topk(rec_predict[:, movie_ids], k)` over every row. */
  function Ranks(ids: seq<nat>, scores: seq<seq<int>>, k: nat): (r: seq<seq<nat>>)
    requires AllColumnsInRange(scores, ids) && k <= |ids|
    ensures |r| == |scores|
  {
    if |scores| == 0 then []
    else Ranks(ids, scores[..|scores| - 1], k) + [RowRank(ids, scores[|scores| - 1], k)]
  }

  /** The ranking evaluator call for one row, or the `list.index` error. */
  function RecRow(ids: seq<nat>, rank: seq<nat>, movie: nat): Run
  {
    match IndexOf(ids, movie)
    case None => Run([], Some(LabelNotInCatalog(movie)))
    case Some(m) => Emit([RecEval(rank, m)])
  }

  /** The calls for the first `n` (rank, label) pairs, in row order. */
  function RecRows(ids: seq<nat>, ranks: seq<seq<nat>>, labels: seq<nat>, n: nat): Run
    requires n <= |ranks| && n <= |labels|
  {
    if n == 0 then Emit([])
    else Then(RecRows(ids, ranks, labels, n - 1), RecRow(ids, ranks[n - 1], labels[n - 1]))
  }

  /**
   * `rec_evaluate` with k candidates (the source passes 50): restrict, rank
   * the top k of every row, then call the evaluator per row while both the
   * rankings and the labels last.
   */
  function RecEvaluateRun(ids: seq<nat>, scores: seq<seq<int>>, labels: seq<nat>, k: nat): Run
  {
    if !AllColumnsInRange(scores, ids) then Run([], Some(ColumnOutOfRange))
    else if |ids| < k then Run([], Some(TooFewCandidates))
    else RecRows(ids, Ranks(ids, scores, k), labels, Min(|scores|, |labels|))
  }

  /** `conv_evaluate`: one generation-evaluator call for each of the first `n` prediction/response pairs. */
  function GenEvals(preds: seq<seq<TokenId>>, responses: seq<seq<TokenId>>, n: nat): seq<Event>
    requires n <= |preds| && n <= |responses|
  {
    if n == 0 then [] else GenEvals(preds, responses, n - 1) + [GenEval(preds[n - 1], responses[n - 1])]
  }

  function ConvEvaluateEvents(preds: seq<seq<TokenId>>, responses: seq<seq<TokenId>>): seq<Event>
  {
    GenEvals(preds, responses, Min(|preds|, |responses|))
  }

  /** The loss `step` back-propagates in the rec stage. */
  function RecObjective(out: RecOut): Objective
  {
    if Present(out.infoLoss) then Weighted(out.recLoss, out.infoLoss.value) else Single(out.recLoss)
  }

  /** The losses the rec step records: the rec loss, then the info loss when it is truthy. */
  function LossRecords(out: RecOut): seq<Event>
  {
    [Record(OptimMetrics, "rec_loss", out.recLoss)]
    + (if Present(out.infoLoss) then [Record(OptimMetrics, "info_loss", out.infoLoss.value)] else [])
  }

  /** The conv step's prediction: from the loss-computing forward pass, or from generation in test. */
  function ConvPreds(s: Setup, b: Batch, mode: Mode): seq<seq<TokenId>>
  {
    if mode != Test then s.model.conversation(b, mode).preds else s.model.generate(b)
  }

  /** The conv step's effects before evaluation: back-propagation in training, loss records outside test. */
  function ConvLossEvents(s: Setup, b: Batch, mode: Mode): seq<Event>
  {
    if mode != Test then
      var out := s.model.conversation(b, mode);
      (if mode == Train then [Backward(Single(out.genLoss))] else [])
      + [Record(OptimMetrics, "gen_loss", out.genLoss), Record(GenMetrics, "ppl", out.genLoss)]
    else []
  }

  /** `step(batch, stage, mode)`. */
  function StepRun(s: Setup, b: Batch, stage: Stage, mode: Mode): Run
  {
    match stage
    case Pretrain =>
      var info := s.model.pretrainInfomax(b);
      if Present(info) then Emit([Backward(Single(info.value)), Record(OptimMetrics, "info_loss", info.value)])
      else Emit([])
    case Rec =>
      var out := s.model.recommender(b, mode);
      var first := if mode == Train then Emit([Backward(RecObjective(out))])
                   else RecEvaluateRun(s.movieIds, out.scores, b.movieLabels, TopN);
      Then(first, Emit(LossRecords(out)))
    case Conv =>
      Emit(ConvLossEvents(s, b, mode) + ConvEvaluateEvents(ConvPreds(s, b, mode), b.response))
    case OtherStage(name) => Run([], Some(UnknownStage(name)))
  }

  /** The batches a pass iterates: the loader chosen by the mode, the data chosen by the stage. */
  function Batches(s: Setup, stage: Stage, mode: Mode): seq<Batch>
  {
    var loader := match mode case Train => s.train case Val => s.valid case Test => s.test;
    match stage
    case Pretrain => loader.pretrainData
    case Rec => loader.recData
    case Conv => loader.convData
    case OtherStage(_) => []
  }

  /** The steps over the first `n` batches, stopping at the first exception. */
  function StepsRun(s: Setup, batches: seq<Batch>, stage: Stage, mode: Mode, n: nat): Run
    requires n <= |batches|
    decreases n, 1
  {
    if n == 0 then Emit([]) else StepsThrough(s, batches, stage, mode, n - 1)
  }

  /** The steps over batches 0..i: those before batch `i`, then its own step unless one of them raised. */
  function StepsThrough(s: Setup, batches: seq<Batch>, stage: Stage, mode: Mode, i: nat): Run
    requires i < |batches|
    decreases i + 1, 0
  {
    Then(StepsRun(s, batches, stage, mode, i), StepRun(s, batches[i], stage, mode))
  }

  /** One pass: reset the metrics, step over every batch, report. */
  function PassRun(s: Setup, stage: Stage, mode: Mode): Run
  {
    var batches := Batches(s, stage, mode);
    Then(Then(Emit([Reset]), StepsRun(s, batches, stage, mode, |batches|)), Emit([Report]))
  }

  /** What a training phase does, one item at a time. */
  datatype Action = BuildFor(stage: Stage) | StemConv | PassOf(stage: Stage, mode: Mode)

  function ActionRun(s: Setup, a: Action): Run
  {
    match a
    case BuildFor(stage) => Emit([BuildOptimizer(stage)])
    case StemConv => Emit([StemConvParameters])
    case PassOf(stage, mode) => PassRun(s, stage, mode)
  }

  /** A plan carried out in order, stopping at the first exception. */
  function PlanRun(s: Setup, plan: seq<Action>): Run
  {
    if plan == [] then Emit([])
    else Then(PlanRun(s, plan[..|plan| - 1]), ActionRun(s, plan[|plan| - 1]))
  }

  function Repeat(xs: seq<Action>, n: nat): seq<Action>
  {
    if n == 0 then [] else Repeat(xs, n - 1) + xs
  }

  /** One epoch of the recommender or conversation loop: a training pass, then a validation pass. */
  function EpochRun(s: Setup, stage: Stage): Run
  {
    Then(PassRun(s, stage, Train), PassRun(s, stage, Val))
  }

  /**
   * `n` epochs of a loop whose every epoch does `r`, stopping at the first
   * exception. Every epoch of a phase does the same, since the model's
   * outputs on a batch do not depend on the epoch.
   */
  function Repeated(r: Run, n: nat): Run
  {
    if n == 0 then Emit([]) else Then(Repeated(r, n - 1), r)
  }

  /**
   * The number of recommender epochs that run when epochs i.. remain: the
   * loop stops after the first epoch whose stop flag is set.
   */
  function EpochsFrom(n: nat, stop: nat -> bool, i: nat): nat
    requires i <= n
    decreases n - i
  {
    if i == n then n else if stop(i) then i + 1 else EpochsFrom(n, stop, i + 1)
  }

  function RecEpochs(s: Setup): nat
  {
    EpochsFrom(s.recEpoch, s.stop, 0)
  }

  /** `pretrain`: build the optimiser, then `pretrain_epoch` training passes. */
  function PretrainPlan(s: Setup): seq<Action>
  {
    [BuildFor(Pretrain)] + Repeat([PassOf(Pretrain, Train)], s.pretrainEpoch)
  }

  /** `train_recommender`: train and val per epoch until the stop flag, then one test pass. */
  function RecPlan(s: Setup): seq<Action>
  {
    [BuildFor(Rec)] + Repeat([PassOf(Rec, Train), PassOf(Rec, Val)], RecEpochs(s)) + [PassOf(Rec, Test)]
  }

  /** `train_conversation`: freeze, build, `conv_epoch` train and val epochs, then one test pass. */
  function ConvPlan(s: Setup): seq<Action>
  {
    [StemConv, BuildFor(Conv)] + Repeat([PassOf(Conv, Train), PassOf(Conv, Val)], s.convEpoch) + [PassOf(Conv, Test)]
  }

  /** `fit`: the three phases in order. */
  function FitPlan(s: Setup): seq<Action>
  {
    PretrainPlan(s) + RecPlan(s) + ConvPlan(s)
  }
}
