# KGSF training control and conversation evaluator, in Dafny

This project models two pieces of CRSLab:

- **The conversation evaluator** (`ConvEvaluator`). It tracks diversity: per
  non-empty prediction it keeps an F1 record and four BLEU records, the sets
  of distinct 1- to 4-grams ("dist@1".."dist@4"), and a count of the
  predictions they came from. `report` turns each set into
  `|set| / count`. `reset_metrics` clears everything together.
- **The control logic of the KGSF system** (`KGSFSystem`). This covers:
  - `step`, dispatched on stage × mode;
  - `rec_evaluate`: restrict to the catalogue columns, take the top 50, and
    remap the label to its catalogue position;
  - `conv_evaluate`;
  - the three training phases `pretrain`, `train_recommender` and
    `train_conversation`, and `fit`, which runs them in order.

  The neural model, the data loaders and the early-stop flag are oracles
  held in a `Setup` value. Every effect on a collaborator is appended to an
  event log: optimiser build, stem freeze, metrics reset, report, backward,
  loss record, ranking-evaluator call and generation-evaluator call. An
  exception is a `Failure` value, and nothing runs after it.

Layout:

- `basics.dfy`: `Option`.
- `ngrams.dfy`: contiguous k-grams (`nltk.ngrams`).
- `conv_evaluator.dfy`: the dist-set specification functions and lemmas, and
  the imperative `ConvEvaluator` class. Its ghost `history` lists the
  predictions evaluated since the last reset, and `Valid()` ties the counter
  and the dist sets to that history.
- `ranking.dfy`: `list.index`, column restriction and top-k selection.
- `kgsf_trace.dfy`: what each operation of `KGSFSystem` does, as pure
  functions producing a `Run` (the events, plus the exception if one
  escaped). The phases are written as plans, i.e. sequences of actions.
- `kgsf_properties.dfy`: the lemmas about those functions.
- `kgsf_system.dfy`: the imperative `KGSFSystem` class. Its methods follow
  the source's branches and loops. Each method is proved to append exactly
  the events of the matching specification run to `log`, and to return its
  exception.

## Model

| member | source | states |
|---|---|---|
| KgsfTrace.RowRank | crslab/system/kgsf_system.py:41-42 | one row of `torch.topk(rec_predict[:, movie_ids], k)`: the top-k selection over the row restricted to the catalogue, as catalogue positions |
| KgsfTrace.RecRow | crslab/system/kgsf_system.py:45-46 | one iteration of the zip loop: a label missing from the catalogue raises `LabelNotInCatalog` with no call; otherwise one ranking-evaluator call with the row's ranking and the label's first catalogue position |
| KgsfTrace.RecRows | crslab/system/kgsf_system.py:44-46 | the zip loop over the first n (ranking, label) pairs, in row order, stopping at the first exception |
| KgsfTrace.RecEvaluateRun | crslab/system/kgsf_system.py:39-46 | `rec_evaluate` with k candidates: first the column selection (an id past the end of a row raises `ColumnOutOfRange`), then `topk` (fewer than k catalogue ids raises `TooFewCandidates`), then the per-row calls over min(rows, labels) pairs |
| KgsfTrace.GenEvals | crslab/system/kgsf_system.py:51-54 | one generation-evaluator call per pair for the first n (prediction, response) pairs, in order |
| KgsfTrace.ConvEvaluateEvents | crslab/system/kgsf_system.py:48-54 | `conv_evaluate`: the zip loop over predictions and responses, stopping at the shorter |
| KgsfTrace.RecObjective | crslab/system/kgsf_system.py:70-73 | the loss handed to `backward` in the rec stage: `rec_loss + 0.025 * info_loss` when the info loss is truthy, `rec_loss` otherwise |
| KgsfTrace.LossRecords | crslab/system/kgsf_system.py:78-82 | the rec step's optimisation records: `rec_loss`, then `info_loss` when it is truthy |
| KgsfTrace.ConvPreds | crslab/system/kgsf_system.py:84-92 | the conv step's prediction: from the loss-computing forward pass in train and val, from generation in test |
| KgsfTrace.ConvLossEvents | crslab/system/kgsf_system.py:84-90 | the conv step before evaluation: backward of the generation loss in train; `gen_loss` and `ppl` records in train and val; nothing in test |
| KgsfTrace.StepRun | crslab/system/kgsf_system.py:56-95 | `step`: the pretrain branch (backward and `info_loss` only when the infomax loss is truthy); the rec branch (backward in train, otherwise `rec_evaluate`, then the loss records unless it raised); the conv branch (loss part by mode, then `conv_evaluate`); any other stage raises at once |
| KgsfTrace.Batches | crslab/system/kgsf_system.py:129-146 | the batches of a pass: the loader chosen by the mode (train, valid, test), the data chosen by the stage |
| KgsfTrace.StepsRun | crslab/system/kgsf_system.py:129-130 | the batch loop over the first n batches, stopping at the first exception |
| KgsfTrace.StepsThrough | crslab/system/kgsf_system.py:129-130 | the batch loop through batch i: the steps before it, then its own step unless one of them raised |
| KgsfTrace.PassRun | crslab/system/kgsf_system.py:127-131 | one pass: reset the metrics, step over every batch, then report; an exception skips the report |
| KgsfTrace.ActionRun | crslab/system/kgsf_system.py:97-181 | one item of a phase: an optimiser and scheduler build, the stem freeze, or a pass |
| KgsfTrace.PlanRun | crslab/system/kgsf_system.py:97-189 | a phase carried out item by item, stopping at the first exception |
| KgsfTrace.EpochRun | crslab/system/kgsf_system.py:126-137 | one recommender or conversation epoch: a training pass, then a validation pass unless training raised |
| KgsfTrace.Repeated | crslab/system/kgsf_system.py:126-137 | n epochs of the same run, stopping at the first exception |
| KgsfTrace.EpochsFrom | crslab/system/kgsf_system.py:126-142 | the number of recommender epochs run: the loop breaks after the first epoch whose stop flag is set, and otherwise runs to the configured count |
| KgsfTrace.RecEpochs | crslab/system/kgsf_system.py:126-142 | the epochs `train_recommender` runs, counted from epoch 0 up to `rec_epoch` |
| KgsfTrace.PretrainPlan | crslab/system/kgsf_system.py:97-111 | `pretrain`: the optimiser build, then `pretrain_epoch` training passes |
| KgsfTrace.RecPlan | crslab/system/kgsf_system.py:113-148 | `train_recommender`: the optimiser build, a training and a validation pass per epoch run, then one test pass |
| KgsfTrace.ConvPlan | crslab/system/kgsf_system.py:150-181 | `train_conversation`: the stem freeze, the optimiser build, `conv_epoch` training and validation pairs, then one test pass |
| KgsfTrace.FitPlan | crslab/system/kgsf_system.py:183-189 | `fit`: the three phases in order |
| RecRanking.IndexOf | crslab/system/kgsf_system.py:45 | `list.index`: absent exactly when the label is not in the catalogue; otherwise a position holding the label, with no earlier position holding it |
| RecRanking.Restrict | crslab/system/kgsf_system.py:41 | `rec_predict[:, movie_ids]` for one row: one entry per catalogue id, entry j being the row's score at column `movie_ids[j]` |
| RecRanking.Best | crslab/system/kgsf_system.py:42 | one top-k selection step yields -1 or a column below the bound |
| RecRanking.BestSpec | crslab/system/kgsf_system.py:42 | the step fails exactly when every column is already chosen; otherwise it returns an unchosen column scoring at least as high as every other unchosen column |
| RecRanking.TopK | crslab/system/kgsf_system.py:42 | `torch.topk` indices: exactly k of them, each a column of the row |
| RecRanking.TopKSpec | crslab/system/kgsf_system.py:42 | the k picks are pairwise distinct |
| RecRanking.TopKLast | crslab/system/kgsf_system.py:42 | k picks are the k-1 picks followed by the best remaining column |
| RecRanking.TopKPrefix | crslab/system/kgsf_system.py:42 | the first i of the top-k picks are the top-i picks |
| RecRanking.TopKPick | crslab/system/kgsf_system.py:42 | pick i is new and scores at least as high as every column not picked before it |
| RecRanking.TopKOrdered | crslab/system/kgsf_system.py:42 | picks come in non-increasing score order, and no column left out scores strictly higher than a picked one |
| NGrams.GramsBefore | crslab/evaluator/conv_evaluator.py:33 | the k-grams `s[i..i+k]` for the start positions i below n |
| NGrams.Grams | crslab/evaluator/conv_evaluator.py:33 | `ngrams(preds, k)` collected as a set: the k-grams at every start position from 0 to len - k, and none when the prediction is shorter than k |
| ConvEvaluation.AddGrams | crslab/evaluator/conv_evaluator.py:33-34 | the inner loop for order k: every k-gram is added under key k; like the `defaultdict`, the key is created by the first insertion, so a prediction shorter than k leaves the dictionary as it was |
| ConvEvaluation.AbsorbUpTo | crslab/evaluator/conv_evaluator.py:31-34 | the insertions for the orders 1..k, in ascending order |
| ConvEvaluation.Absorb | crslab/evaluator/conv_evaluator.py:31-34 | the insertions of one non-empty `evaluate`: the orders 1..4 of `range(1, 5)` |
| ConvEvaluation.DistOf | crslab/evaluator/conv_evaluator.py:24-34 | the dist sets after evaluating the non-empty predictions of a history in order, starting from the empty dictionary of `__init__` and `reset_metrics` |
| ConvEvaluation.BleuRecords | crslab/evaluator/conv_evaluator.py:31-32 | the records bleu@1..bleu@k in ascending k, each holding the prediction, the reference and k |
| ConvEvaluation.GenRecords | crslab/evaluator/conv_evaluator.py:30-32 | the generation records of one non-empty `evaluate`: f1, then bleu@1..bleu@4 |
| ConvEvaluation.DistRecord | crslab/evaluator/conv_evaluator.py:39 | the record for a present key k: dist@k with value \|set\| / dist_cnt |
| ConvEvaluation.DistRecords | crslab/evaluator/conv_evaluator.py:38-39 | the records for the keys among 1..k that are present, in ascending k |
| NGrams.Gram | crslab/evaluator/conv_evaluator.py:33 | a k-gram has length k |
| NGrams.GramsBeforeMembers | crslab/evaluator/conv_evaluator.py:33 | the grams starting below n are exactly the slices starting at positions below n |
| NGrams.GramsBeforeShape | crslab/evaluator/conv_evaluator.py:33 | those grams have length k, and there are at most n of them |
| NGrams.GramsSpec | crslab/evaluator/conv_evaluator.py:33 | `ngrams(preds, k)` as a set: exactly the contiguous slices of length k, each of length k, at most max(0, len - k + 1) of them, and empty exactly when the prediction is shorter than k |
| ConvEvaluation.Tagged | crslab/evaluator/conv_evaluator.py:32 | the name "bleu@k" / "dist@k" ends in the digit of k, so names for different k differ |
| ConvEvaluation.AbsorbUpToAt | crslab/evaluator/conv_evaluator.py:31-34 | after the insertions for orders 1..k, key j exists exactly when it existed before or j ≤ k and j ≤ len(preds); its set gains exactly the j-grams when j ≤ k and is unchanged otherwise |
| ConvEvaluation.AbsorbSpec | crslab/evaluator/conv_evaluator.py:31-34 | one non-empty `evaluate` on the dist sets: key j in 1..4 gains exactly the j-grams of the prediction; a key is created only when the prediction has a j-gram; every other key is unchanged |
| ConvEvaluation.AbsorbGrows | crslab/evaluator/conv_evaluator.py:31-34 | no key disappears and no element is removed |
| ConvEvaluation.AbsorbContains | crslab/evaluator/conv_evaluator.py:31-34 | afterwards every contiguous j-gram of the prediction (j = 1..4) is in the set under key j |
| ConvEvaluation.AbsorbBound | crslab/evaluator/conv_evaluator.py:33-34 | one `evaluate` adds at most max(0, len(preds) - j + 1) elements under key j |
| ConvEvaluation.AbsorbKnown | crslab/evaluator/conv_evaluator.py:33-34 | a prediction whose 1..4-grams are all present already leaves every key and set as it was |
| ConvEvaluation.AbsorbIdempotent | crslab/evaluator/conv_evaluator.py:33-34 | inserting the same prediction's grams twice gives the same sets as inserting them once |
| ConvEvaluation.DistOfKeys | crslab/evaluator/conv_evaluator.py:31-34 | after a history of evaluations, key j exists exactly when j is in 1..4 and some evaluated prediction had length at least j |
| ConvEvaluation.DistOfMembers | crslab/evaluator/conv_evaluator.py:31-34 | the set under key j holds exactly the j-grams of the evaluated predictions (both directions) |
| ConvEvaluation.DistOfSound | crslab/evaluator/conv_evaluator.py:31-34 | every element under key j is a j-gram of some evaluated prediction |
| ConvEvaluation.DistOfComplete | crslab/evaluator/conv_evaluator.py:31-34 | every j-gram of every evaluated prediction is under key j |
| ConvEvaluation.DistOfShape | crslab/evaluator/conv_evaluator.py:24-34 | every key is one of 1..4; elements under key j have length j; the keys present are always 1..m for some m; with nothing evaluated there are no keys |
| ConvEvaluation.EvaluateTwice | crslab/evaluator/conv_evaluator.py:33-35 | evaluating a prediction again right away leaves the dist sets as one evaluation left them (only the counter moves) |
| ConvEvaluation.DistRecordsSpec | crslab/evaluator/conv_evaluator.py:38-39 | `report` adds one record per key present, named dist@j with value \|set\| / dist_cnt, no two with the same name, and nothing for absent keys |
| ConvEvaluation.ConvEvaluator.constructor | crslab/evaluator/conv_evaluator.py:22-26 | the evaluator starts with no dist sets, a zero counter and empty accumulators, and its invariant holds |
| ConvEvaluation.ConvEvaluator.Evaluate | crslab/evaluator/conv_evaluator.py:28-35 | an empty prediction changes nothing; otherwise exactly one f1 and one bleu@1..bleu@4 record are added, every k-gram goes under key k, and the counter rises by exactly one; the invariant (counter = number of non-empty predictions, sets = their grams) is kept |
| ConvEvaluation.ConvEvaluator.InsertGrams | crslab/evaluator/conv_evaluator.py:33-34 | the n-gram loop for one order k adds exactly the k-grams under key k, and creates the key only when there is one |
| ConvEvaluation.ConvEvaluator.Report | crslab/evaluator/conv_evaluator.py:37-39 | appends exactly the dist records of the present keys in ascending order; the division is defined because the invariant rules out a key with a zero counter; the dist sets and the counter are unchanged |
| ConvEvaluation.ConvEvaluator.ResetMetrics | crslab/evaluator/conv_evaluator.py:43-47 | both accumulators, the dist sets and the counter are cleared together, and the invariant holds again |
| KgsfTrace.Ranks | crslab/system/kgsf_system.py:41-42 | one ranking per score row |
| KgsfProperties.AllColumnsInRangeSpec | crslab/system/kgsf_system.py:41 | the column selection succeeds exactly when every row has every catalogue column |
| KgsfProperties.RanksAt | crslab/system/kgsf_system.py:41-42 | row i's ranking is the top-k selection of row i restricted to the catalogue |
| KgsfProperties.RankSpec | crslab/system/kgsf_system.py:41-42 | a row's ranking has k distinct catalogue positions, in non-increasing order of `row[movie_ids[j]]`, and no unchosen position scores strictly higher than a chosen one |
| KgsfProperties.RecRowsSpec | crslab/system/kgsf_system.py:44-46 | the per-row loop makes one evaluator call per row, in row order, each with the row's ranking and the label's first catalogue position; it stops at the first label missing from the catalogue and raises for it |
| KgsfProperties.RecRowsAbort | crslab/system/kgsf_system.py:44-46 | once a label is missing from the catalogue, no later row is evaluated |
| KgsfProperties.RecEvaluateSpec | crslab/system/kgsf_system.py:39-46 | `rec_evaluate` only calls the ranking evaluator. It raises when a catalogue id is past the end of a row, when there are fewer than 50 catalogue ids, or when a label (up to the shorter of the two sequences) is missing, and in no other case. Without an exception it makes one call per zipped row, with the top-50 ranking and the remapped label |
| KgsfProperties.RecEvaluateEffects | crslab/system/kgsf_system.py:44-46 | every effect of `rec_evaluate` is a ranking-evaluator call |
| KgsfProperties.GenEvalsSpec | crslab/system/kgsf_system.py:51-54 | the first n pairs give n generation-evaluator calls, pair i with prediction i and response i |
| KgsfProperties.ConvEvaluateSpec | crslab/system/kgsf_system.py:48-54 | `conv_evaluate` makes one generation-evaluator call per zipped pair, in order, and nothing else |
| KgsfProperties.StepPretrainSpec | crslab/system/kgsf_system.py:62-67 | the pretrain step never raises and ignores the mode; with a falsy infomax loss it does nothing; otherwise it does exactly one backward of that loss, then exactly one info_loss record |
| KgsfProperties.LossRecordsSpec | crslab/system/kgsf_system.py:78-82 | the rec step records rec_loss exactly once, and info_loss once exactly when it is truthy, and nothing else |
| KgsfProperties.StepRecTrainSpec | crslab/system/kgsf_system.py:69-82 | in training the rec step never raises and does exactly one backward and no ranking evaluation; the loss is `rec_loss + 0.025 * info_loss` exactly when the info loss is truthy, and `rec_loss` alone otherwise; the loss records follow |
| KgsfProperties.StepRecEvalSpec | crslab/system/kgsf_system.py:69-82 | outside training the rec step does no backward and runs `rec_evaluate` first; it raises exactly when that does, and then records no loss; otherwise the loss records follow |
| KgsfProperties.StepConvSpec | crslab/system/kgsf_system.py:83-93 | the conv step never raises. It does a backward exactly in training. It records gen_loss and ppl exactly once each outside test and never in test. In every mode it ends with `conv_evaluate` of its prediction |
| KgsfProperties.ConvLossCounts | crslab/system/kgsf_system.py:84-90 | the conv step's loss part does a backward exactly in training and records gen_loss and ppl once each exactly outside test |
| KgsfProperties.StepUnknownSpec | crslab/system/kgsf_system.py:94-95 | a stage other than pretrain, rec and conv raises before any effect |
| KgsfProperties.StepEffects | crslab/system/kgsf_system.py:56-95 | `step` only does backwards, loss records and evaluator calls: never a reset, report, optimiser build or stem freeze |
| KgsfProperties.StepPretrainEffects | crslab/system/kgsf_system.py:62-67 | the pretrain step has only step effects |
| KgsfProperties.StepRecEffects | crslab/system/kgsf_system.py:68-82 | the rec step has only step effects |
| KgsfProperties.StepConvEffects | crslab/system/kgsf_system.py:83-93 | the conv step has only step effects |
| KgsfProperties.ConvLossEffects | crslab/system/kgsf_system.py:84-90 | the conv step's loss part has only step effects |
| KgsfProperties.StepFailureCause | crslab/system/kgsf_system.py:56-95 | `step` raises only at an unknown stage, or in the rec stage outside training |
| KgsfProperties.StepsRunLast | crslab/system/kgsf_system.py:109-110 | the batch loop over n batches is the loop over n-1 batches followed by the last step, unless an earlier step raised |
| KgsfProperties.StepsEffects | crslab/system/kgsf_system.py:109-110 | the batch loop has only step effects |
| KgsfProperties.StepsThroughEffects | crslab/system/kgsf_system.py:109-110 | adding one step to a loop with only step effects keeps it so |
| KgsfProperties.StepsFailure | crslab/system/kgsf_system.py:129-130 | the batch loop raises only at an unknown stage, or in a rec pass outside training |
| KgsfProperties.StepsAbort | crslab/system/kgsf_system.py:109-110 | once a step raised, no later batch is stepped |
| KgsfProperties.BracketSpec | crslab/system/kgsf_system.py:127-131 | steps bracketed by a reset and a report: exactly one reset, first; exactly one report, last, when no step raised; none otherwise |
| KgsfProperties.PassSpec | crslab/system/kgsf_system.py:127-131 | every pass starts with its one reset and, unless it raised, ends with its one report, with only step effects between; only a rec pass outside training can raise |
| KgsfProperties.PlanRunAppend | crslab/system/kgsf_system.py:183-189 | two plans carried out one after the other are their concatenation carried out, stopping at the first exception |
| KgsfProperties.FitSplit | crslab/system/kgsf_system.py:187-189 | `fit` is `pretrain`, then `train_recommender`, then `train_conversation` |
| KgsfProperties.RepeatedPlan | crslab/system/kgsf_system.py:106-111 | carrying out n copies of an epoch's actions is n epochs of that run |
| KgsfProperties.EpochPlan | crslab/system/kgsf_system.py:126-137 | an epoch of the recommender or conversation loop is its training pass, then its validation pass |
| KgsfProperties.PretrainPlanSplit | crslab/system/kgsf_system.py:103-111 | `pretrain` is the optimiser build followed by `pretrain_epoch` one-pass epochs |
| KgsfProperties.PhaseSplit | crslab/system/kgsf_system.py:123-148 | a phase shaped as setup actions, n epochs and a final action runs as those three parts in order |
| KgsfProperties.RecPlanSplit | crslab/system/kgsf_system.py:123-148 | `train_recommender` is the optimiser build, the epochs that run before the stop flag, then the test pass |
| KgsfProperties.ConvPlanSplit | crslab/system/kgsf_system.py:160-181 | `train_conversation` is the stem freeze and optimiser build, `conv_epoch` epochs, then the test pass |
| KgsfProperties.ConvHead | crslab/system/kgsf_system.py:160-162 | the conversation phase freezes the stem before building its optimiser |
| KgsfProperties.RepeatOneSpec | crslab/system/kgsf_system.py:106-110 | n one-pass epochs are n copies of that pass |
| KgsfProperties.RepeatPairSpec | crslab/system/kgsf_system.py:126-137 | n two-pass epochs alternate training and validation, 2n actions in all |
| KgsfProperties.EpochsFromSpec | crslab/system/kgsf_system.py:126-142 | the epoch loop runs at most the configured count and at least one more epoch when any remain; no epoch before the last had its stop flag set, and it ends early only because the last one had |
| KgsfProperties.RecEpochsSpec | crslab/system/kgsf_system.py:126-142 | `train_recommender` runs at most `rec_epoch` epochs, at least one when any is configured, and breaks right after the first epoch whose stop flag is set |
| KgsfProperties.PretrainPlanShape | crslab/system/kgsf_system.py:103-111 | `pretrain` is one optimiser build, then exactly `pretrain_epoch` training passes, with no validation or test pass |
| KgsfProperties.RecPlanShape | crslab/system/kgsf_system.py:123-148 | `train_recommender` is one optimiser build, then a training and a validation pass per epoch run, then exactly one test pass, last |
| KgsfProperties.ConvPlanShape | crslab/system/kgsf_system.py:160-181 | `train_conversation` is the stem freeze, one optimiser build, exactly `conv_epoch` training and validation pairs with no early stop, then exactly one test pass, last |
| KgsfProperties.ActionSpec | crslab/system/kgsf_system.py:97-181 | the only phase action that can raise is a rec pass outside training; only the stem-freeze action freezes the stem |
| KgsfProperties.PlanSpec | crslab/system/kgsf_system.py:97-181 | a plan raises only if it holds a rec pass outside training, and freezes the stem only if it holds the freeze action |
| KgsfProperties.PhasesThatNeverRaise | crslab/system/kgsf_system.py:97-181 | `pretrain` and `train_conversation` never raise |
| KgsfProperties.PhasesBeforeConvNoStem | crslab/system/kgsf_system.py:97-148 | neither `pretrain` nor `train_recommender` freezes the stem |
| KgsfProperties.MiddleFailure | crslab/system/kgsf_system.py:187-189 | of three phases where only the middle one can raise, the whole raises exactly when the middle does, and then an event neither of the first two emits does not occur at all |
| KgsfProperties.FitSpec | crslab/system/kgsf_system.py:183-189 | `fit` raises exactly when `train_recommender` does, and then the conversation phase never starts (no stem freeze) |
| KgsfProperties.PlanAbort | crslab/system/kgsf_system.py:187-189 | once a phase raised, nothing after it runs |
| KgsfProperties.EpochsAbort | crslab/system/kgsf_system.py:126-137 | once an epoch raised, no later epoch runs |
| KgsfSystem.KGSFSystem.constructor | crslab/system/kgsf_system.py:24-37 | the system keeps its configuration and collaborators, and nothing has happened yet |
| KgsfSystem.KGSFSystem.RecEvaluate | crslab/system/kgsf_system.py:39-46 | appends exactly the ranking-evaluator calls of `rec_evaluate` and returns its exception (see RecEvaluateSpec) |
| KgsfSystem.KGSFSystem.EvaluateRows | crslab/system/kgsf_system.py:44-46 | the zip loop appends one call per row up to the first missing label, and returns that label's error |
| KgsfSystem.KGSFSystem.ConvEvaluate | crslab/system/kgsf_system.py:48-54 | the zip loop appends exactly the generation-evaluator calls of `conv_evaluate` (see ConvEvaluateSpec) |
| KgsfSystem.KGSFSystem.Step | crslab/system/kgsf_system.py:56-95 | appends exactly the effects of `step` for its stage and mode, and returns its exception (see the Step*Spec lemmas) |
| KgsfSystem.KGSFSystem.RecStep | crslab/system/kgsf_system.py:68-82 | the rec branch: backward in training, `rec_evaluate` otherwise, then the loss records unless the evaluation raised |
| KgsfSystem.KGSFSystem.ConvStep | crslab/system/kgsf_system.py:83-93 | the conv branch: backward and loss records by mode, then `conv_evaluate` |
| KgsfSystem.KGSFSystem.RunPass | crslab/system/kgsf_system.py:127-131 | one pass: reset, the batch loop, then report unless a step raised (see PassSpec) |
| KgsfSystem.KGSFSystem.RunSteps | crslab/system/kgsf_system.py:129-130 | the batch loop steps every batch in order and stops at the first exception |
| KgsfSystem.KGSFSystem.StepOnto | crslab/system/kgsf_system.py:129-130 | one iteration of the batch loop extends the log of the first i steps to that of the first i+1; an exception ends the pass |
| KgsfSystem.KGSFSystem.Pretrain | crslab/system/kgsf_system.py:97-111 | appends exactly the effects of `pretrain` (see PretrainPlanShape) |
| KgsfSystem.KGSFSystem.PretrainEpochs | crslab/system/kgsf_system.py:106-111 | the epoch loop of `pretrain` runs `pretrain_epoch` training passes |
| KgsfSystem.KGSFSystem.RunEpoch | crslab/system/kgsf_system.py:126-137 | one epoch: a training pass, then a validation pass unless training raised |
| KgsfSystem.KGSFSystem.EpochOnto | crslab/system/kgsf_system.py:126-137 | one iteration of an epoch loop extends the log of i epochs to that of i+1 |
| KgsfSystem.KGSFSystem.TrainRecommender | crslab/system/kgsf_system.py:113-148 | appends exactly the effects of `train_recommender` (see RecPlanShape and RecEpochsSpec) and returns its exception |
| KgsfSystem.KGSFSystem.RecommenderEpochs | crslab/system/kgsf_system.py:126-142 | the recommender epoch loop runs exactly the epochs before and including the first whose stop flag is set |
| KgsfSystem.KGSFSystem.TrainConversation | crslab/system/kgsf_system.py:150-181 | appends exactly the effects of `train_conversation` (see ConvPlanShape) |
| KgsfSystem.KGSFSystem.ConversationEpochs | crslab/system/kgsf_system.py:164-175 | the conversation epoch loop runs all `conv_epoch` epochs |
| KgsfSystem.KGSFSystem.Fit | crslab/system/kgsf_system.py:183-189 | appends exactly the effects of the three phases in order and returns their exception (see FitSpec) |

## Left out

- Floating point. Losses are opaque values, with only their truthiness
  (zero or not) kept. The weighted objective `rec_loss + 0.025 * info_loss`
  records which losses are combined, not the value. F1, BLEU and perplexity
  keep only their arguments. The dist ratio is a Dafny `real`, not a
  float.
- The `Metrics` accumulators are logs of named records. Averaging,
  `aggregate_unnamed_reports`, `nice_report` and the logging of the report
  are not modelled, and neither is the `recall@1 + recall@50` sum handed to
  `early_stop`.
- `early_stop` and `self.stop` are defined in the base system, which is not
  part of this model. The stop flag is an oracle `stop(epoch)`. The call
  to `early_stop` is not an event.
- `build_optimizer`, `build_lr_scheduler`, `backward` and
  `stem_conv_parameters` are events; their effect on the parameters is not
  modelled. The model's forward passes are oracle functions of the batch
  and mode. So every epoch of a phase produces the same events: training
  history does not change the model's outputs here.
- Exceptions raised by collaborators are not modelled. That covers the
  model's forward passes, `backward`, `ind2txt`, the evaluator's
  `gen_evaluate`, `rec_evaluate` and `report`, and the `rec_metrics` lookup
  before `early_stop`. The oracles are total functions. So "raises" and
  "never raises" in the table refer only to the core's own exceptions:
  - the bare `raise` of `step`;
  - `movie_ids.index`;
  - the column selection `rec_predict[:, movie_ids]`;
  - `torch.topk` over fewer than 50 columns.

  Within that limit, PhasesThatNeverRaise, FitSpec and the never-raises
  clauses of StepPretrainSpec, StepRecTrainSpec and StepConvSpec hold.
- Tensor plumbing (`.to(device)`, `.cpu().detach()`, `.item()`,
  `torch.no_grad()`), loguru logging, tqdm, the batch size, shuffling and
  `ind2txt` detokenisation are not modelled. Predictions and responses are
  token sequences, and a label is a natural number.
- The `debug` flag only chooses which loader object feeds a pass, so it is
  not modelled. The loaders are fixed in `Setup`.
- RecRanking.TopK: `torch.topk` breaks ties among equal scores in an
  unspecified way. TopK picks the lowest column, and the proved properties
  (RankSpec, TopKOrdered) hold however ties are broken.
- The score tensor is a sequence of rows, not a rectangular 2-D tensor.
  The column range is checked row by row.
- `report` iterates the dictionary in insertion order, while the model
  iterates k = 1..4 ascending. The two agree because keys are created in
  ascending order. An `evaluate` call creates key k only when the
  prediction has at least k tokens. Its ascending k loop then also creates
  every lower key that is still missing, before key k. The model does not
  record insertion order itself. DistOfShape states only the consequence
  that the keys present are always 1..m.
- The base evaluator's `reset_metrics` is not part of this model. It is
  taken to clear the optimisation-loss accumulator, which is a field of
  `ConvEvaluator` here.
- KgsfProperties.StepsFailure: states only that the batch loop raises at
  most where a step can; when exactly it raises is stated per step by the
  Step*Spec lemmas.
- RunPass, RunSteps, StepOnto, RunEpoch, EpochOnto, PretrainEpochs,
  RecommenderEpochs, ConversationEpochs, RecStep, ConvStep, InsertGrams and
  EvaluateRows are inline code of the source factored into methods of their
  own.
