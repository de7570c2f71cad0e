/**
 * The epoch loop: train, validate and append a report row on validation epochs,
 * save a checkpoint on checkpoint epochs, and step the scheduler with the
 * validation loss, or with 0 on epochs without validation.
 */
module TrainingLoop {
  import opened Wrappers
  import opened TrainConfig
  import opened EpochRunner

  /** The options the loop reads. */
  datatype Schedule = Schedule(numEpochs: int, validationEpochs: int, checkpointEpochs: int, debugSteps: int)

  /**
   * What the network and the optimizer produce, per epoch: the losses of the training
   * and validation batches, and the optimizer's group learning rates when the report
   * row is written (the scheduler's own arithmetic is not part of this model).
   */
  datatype Feeds = Feeds(
    train: int -> seq<BatchLoss>,
    validation: int -> seq<BatchLoss>,
    groupLrs: int -> seq<real>)

  /** A checkpoint file name, from the epoch and the loss of a validation. */
  datatype ModelPath = ModelPath(epoch: int, validationLoss: real)

  /** A row of the CSV report. */
  datatype ReportRow = ReportRow(epoch: int, learningRate: Option<real>, training: Losses, validation: Losses)

  /** A checkpoint written to `path` with the epoch it stores. */
  datatype Saved = Saved(path: ModelPath, trainingEpoch: int)

  /** What one epoch did. */
  datatype EpochRecord = EpochRecord(
    epoch: int,
    training: Losses,
    trainingLogs: seq<DebugLog>,
    report: Option<ReportRow>,
    saved: Option<Saved>,
    schedulerArg: real)

  /** The records so far, and the last `model_path` assigned, if any. */
  datatype LoopState = LoopState(records: seq<EpochRecord>, modelPath: Option<ModelPath>)

  /** The index of the latest record with a report row, or -1 when none has one. */
  function LastReported(records: seq<EpochRecord>): (j: int)
    ensures -1 <= j < |records|
    ensures j >= 0 ==> records[j].report.Some?
    ensures forall m :: j < m < |records| ==> records[m].report.None?
    ensures j < 0 <==> forall m :: 0 <= m < |records| ==> records[m].report.None?
  {
    if records == [] then -1
    else if records[|records| - 1].report.Some? then |records| - 1
    else LastReported(records[..|records| - 1])
  }

  /** The path named after the latest validation, if there has been one. */
  function LastPath(records: seq<EpochRecord>): Option<ModelPath>
  {
    var j := LastReported(records);
    if j < 0 then None else Some(ModelPath(records[j].epoch, records[j].report.value.validation.total))
  }

  /**
   * One pass of the loop body, from the state before `epoch`: it appends the record of
   * `epoch` and keeps the earlier ones; the unbound `model_path` can only be hit
   * before any validation has named one.
   */
  function StepEpoch(sched: Schedule, feeds: Feeds, epoch: int, st: LoopState): (r: Result<LoopState, RunError>)
    ensures r.Success? ==> |r.value.records| == |st.records| + 1 && r.value.records[..|st.records|] == st.records
    ensures r.Success? ==> r.value.records[|st.records|].epoch == epoch
    ensures r == Failure(UnboundModelPath) ==> st.modelPath.None?
  {
    var batches := feeds.train(epoch);
    match TrainResult(batches, sched.debugSteps)
    case Failure(e) => Failure(e)
    case Success(training) =>
      match Due(epoch, sched.validationEpochs, sched.numEpochs)
      case Failure(e) => Failure(e)
      case Success(validate) =>
        if validate && TestResult(feeds.validation(epoch)).Failure? then Failure(ZeroDivision)
        else
          var validation := if validate then TestResult(feeds.validation(epoch)).value else NoLoss;
          var report := if validate then Some(ReportRow(epoch, CurrentLr(feeds.groupLrs(epoch)), training, validation)) else None;
          var modelPath := if validate then Some(ModelPath(epoch, validation.total)) else st.modelPath;
          match Due(epoch, sched.checkpointEpochs, sched.numEpochs)
          case Failure(e) => Failure(e)
          case Success(save) =>
            if save && modelPath.None? then Failure(UnboundModelPath)
            else
              var saved := if save then Some(Saved(modelPath.value, epoch)) else None;
              var arg := if validate then validation.total else 0.0;
              var logs := LogsUpTo(batches, sched.debugSteps, |batches|);
              Success(LoopState(st.records + [EpochRecord(epoch, training, logs, report, saved, arg)], modelPath))
  }

  /** The loop over `range(lo, hi)`, stopped by the first error. */
  function RunUpTo(sched: Schedule, feeds: Feeds, lo: int, hi: int): (r: Result<LoopState, RunError>)
    ensures r.Success? ==> |r.value.records| == if hi > lo then hi - lo else 0
    decreases hi - lo
  {
    if hi <= lo then Success(LoopState([], None))
    else
      match RunUpTo(sched, feeds, lo, hi - 1)
      case Failure(e) => Failure(e)
      case Success(st) => StepEpoch(sched, feeds, hi - 1, st)
  }

  /** Runs epochs `lo .. hi-1`. */
  method RunEpochs(sched: Schedule, feeds: Feeds, lo: int, hi: int) returns (r: Result<LoopState, RunError>)
    ensures r == RunUpTo(sched, feeds, lo, hi)
  {
    var st := LoopState([], None);
    if hi <= lo {
      return Success(st);
    }
    var epoch := lo;
    while epoch < hi
      invariant lo <= epoch <= hi
      invariant RunUpTo(sched, feeds, lo, epoch) == Success(st)
    {
      var next := RunEpoch(sched, feeds, epoch, st);
      RunUpToNext(sched, feeds, lo, epoch, st);
      if next.Failure? {
        FailureSticks(sched, feeds, lo, epoch + 1, hi);
        return next;
      }
      st := next.value;
      epoch := epoch + 1;
    }
    r := Success(st);
  }

  /** The loop one epoch further on. */
  lemma RunUpToNext(sched: Schedule, feeds: Feeds, lo: int, epoch: int, st: LoopState)
    requires lo <= epoch && RunUpTo(sched, feeds, lo, epoch) == Success(st)
    ensures RunUpTo(sched, feeds, lo, epoch + 1) == StepEpoch(sched, feeds, epoch, st)
  {
  }

  /** Once the loop stops with an error, it stays stopped with that error. */
  lemma {:induction false} FailureSticks(sched: Schedule, feeds: Feeds, lo: int, mid: int, hi: int)
    requires lo < mid <= hi
    requires RunUpTo(sched, feeds, lo, mid).Failure?
    ensures RunUpTo(sched, feeds, lo, hi) == RunUpTo(sched, feeds, lo, mid)
    decreases hi - mid
  {
    if mid < hi {
      FailureSticks(sched, feeds, lo, mid, hi - 1);
    }
  }

  /** One pass of the loop body. */
  method RunEpoch(sched: Schedule, feeds: Feeds, epoch: int, st: LoopState) returns (r: Result<LoopState, RunError>)
    ensures r == StepEpoch(sched, feeds, epoch, st)
  {
    var modelPath := st.modelPath;
    var batches := feeds.train(epoch);
    var training, logs := Train(batches, sched.debugSteps);
    if training.Failure? {
      return Failure(training.error);
    }
    var validate := Due(epoch, sched.validationEpochs, sched.numEpochs);
    if validate.Failure? {
      return Failure(validate.error);
    }
    var validation := NoLoss;
    var report: Option<ReportRow> := None;
    if validate.value {
      var tested := Test(feeds.validation(epoch));
      if tested.Failure? {
        return Failure(tested.error);
      }
      validation := tested.value;
      report := Some(ReportRow(epoch, CurrentLr(feeds.groupLrs(epoch)), training.value, validation));
      modelPath := Some(ModelPath(epoch, validation.total));
    }
    var save := Due(epoch, sched.checkpointEpochs, sched.numEpochs);
    if save.Failure? {
      return Failure(save.error);
    }
    var saved: Option<Saved> := None;
    if save.value {
      if modelPath.None? {
        return Failure(UnboundModelPath);
      }
      saved := Some(Saved(modelPath.value, epoch));
    }
    var arg := if validate.value then validation.total else 0.0;
    r := Success(LoopState(st.records + [EpochRecord(epoch, training.value, logs, report, saved, arg)], modelPath));
  }

  // ------------------------------------------------------------------ properties

  /** Every epoch of the range leaves one record, in order. */
  lemma {:induction false} RecordsFollowEpochs(sched: Schedule, feeds: Feeds, lo: int, hi: int)
    requires RunUpTo(sched, feeds, lo, hi).Success?
    ensures var records := RunUpTo(sched, feeds, lo, hi).value.records;
      && |records| == (if hi > lo then hi - lo else 0)
      && forall k :: 0 <= k < |records| ==> records[k].epoch == lo + k
    decreases hi - lo
  {
    if hi > lo {
      RecordsFollowEpochs(sched, feeds, lo, hi - 1);
    }
  }

  /** The `model_path` in force is the one named after the latest validation. */
  lemma {:induction false} ModelPathIsLastValidation(sched: Schedule, feeds: Feeds, lo: int, hi: int)
    requires RunUpTo(sched, feeds, lo, hi).Success?
    ensures var st := RunUpTo(sched, feeds, lo, hi).value;
      st.modelPath == LastPath(st.records)
    decreases hi - lo
  {
    if hi > lo {
      ModelPathIsLastValidation(sched, feeds, lo, hi - 1);
      var st := RunUpTo(sched, feeds, lo, hi - 1).value;
      var st' := RunUpTo(sched, feeds, lo, hi).value;
      assert st'.records[..|st.records|] == st.records;
    }
  }

  /**
   * What the last of `records` says about its epoch, `lo + |records| - 1`: the training
   * averages, a report row exactly when validation is due (holding the first group's
   * learning rate and both averages), the validation loss as the scheduler's argument
   * or 0 when it did not validate, and a checkpoint exactly when one is due, saved
   * under the path of the latest validation so far.
   */
  predicate LastRecordFits(sched: Schedule, feeds: Feeds, lo: int, records: seq<EpochRecord>)
    requires |records| > 0
  {
    var rec := records[|records| - 1];
    var e := lo + |records| - 1;
    && rec.epoch == e
    && TrainResult(feeds.train(e), sched.debugSteps) == Success(rec.training)
    && Due(e, sched.validationEpochs, sched.numEpochs).Success?
    && (rec.report.Some? <==> Due(e, sched.validationEpochs, sched.numEpochs).value)
    && (rec.report.Some? ==>
          TestResult(feeds.validation(e)).Success? &&
          rec.report.value == ReportRow(e, CurrentLr(feeds.groupLrs(e)), rec.training, TestResult(feeds.validation(e)).value))
    && rec.schedulerArg == (if rec.report.Some? then rec.report.value.validation.total else 0.0)
    && Due(e, sched.checkpointEpochs, sched.numEpochs).Success?
    && (rec.saved.Some? <==> Due(e, sched.checkpointEpochs, sched.numEpochs).value)
    && (rec.saved.Some? ==> LastPath(records).Some? && rec.saved.value == Saved(LastPath(records).value, e))
  }

  /** The record one loop pass appends fits its epoch. */
  lemma StepEpochFits(sched: Schedule, feeds: Feeds, lo: int, e: int, st: LoopState)
    requires e == lo + |st.records|
    requires st.modelPath == LastPath(st.records)
    requires StepEpoch(sched, feeds, e, st).Success?
    ensures |StepEpoch(sched, feeds, e, st).value.records| > 0
    ensures LastRecordFits(sched, feeds, lo, StepEpoch(sched, feeds, e, st).value.records)
  {
    var st' := StepEpoch(sched, feeds, e, st).value;
    assert st'.records[..|st'.records| - 1] == st.records;
  }

  /** A run that gets to `hi` got to every earlier epoch with a prefix of its records. */
  lemma {:induction false} RunPrefix(sched: Schedule, feeds: Feeds, lo: int, mid: int, hi: int)
    requires lo <= mid <= hi
    requires RunUpTo(sched, feeds, lo, hi).Success?
    ensures RunUpTo(sched, feeds, lo, mid).Success?
    ensures |RunUpTo(sched, feeds, lo, hi).value.records| == hi - lo
    ensures RunUpTo(sched, feeds, lo, mid).value.records == RunUpTo(sched, feeds, lo, hi).value.records[..mid - lo]
    decreases hi - mid
  {
    RecordsFollowEpochs(sched, feeds, lo, hi);
    if mid < hi {
      var st := RunUpTo(sched, feeds, lo, hi - 1);
      assert st.Success?;
      RunPrefix(sched, feeds, lo, mid, hi - 1);
    }
  }

  /** Every record of a run fits its epoch. */
  lemma EpochRecordMeaning(sched: Schedule, feeds: Feeds, lo: int, hi: int, k: nat)
    requires RunUpTo(sched, feeds, lo, hi).Success?
    requires k < |RunUpTo(sched, feeds, lo, hi).value.records|
    ensures LastRecordFits(sched, feeds, lo, RunUpTo(sched, feeds, lo, hi).value.records[..k + 1])
  {
    var e := lo + k;
    RecordsFollowEpochs(sched, feeds, lo, hi);
    RunPrefix(sched, feeds, lo, e + 1, hi);
    RunPrefix(sched, feeds, lo, e, hi);
    var st := RunUpTo(sched, feeds, lo, e).value;
    RecordsFollowEpochs(sched, feeds, lo, e);
    ModelPathIsLastValidation(sched, feeds, lo, e);
    RunUpToNext(sched, feeds, lo, e, st);
    StepEpochFits(sched, feeds, lo, e, st);
    var next := StepEpoch(sched, feeds, e, st).value;
    assert next.records == RunUpTo(sched, feeds, lo, hi).value.records[..k + 1];
  }

  /**
   * A run whose first epoch validates never saves before a path exists; a fresh run
   * starts at epoch 0, which every nonzero `validation_epochs` divides.
   */
  lemma {:induction false} ValidatedStartNeverUnbound(sched: Schedule, feeds: Feeds, lo: int, hi: int)
    requires Due(lo, sched.validationEpochs, sched.numEpochs) == Success(true)
    ensures RunUpTo(sched, feeds, lo, hi) != Failure(UnboundModelPath)
    ensures RunUpTo(sched, feeds, lo, hi).Success? && hi > lo ==>
      RunUpTo(sched, feeds, lo, hi).value.modelPath.Some?
    decreases hi - lo
  {
    if hi > lo + 1 {
      ValidatedStartNeverUnbound(sched, feeds, lo, hi - 1);
      if RunUpTo(sched, feeds, lo, hi - 1).Success? {
        RunUpToNext(sched, feeds, lo, hi - 1, RunUpTo(sched, feeds, lo, hi - 1).value);
      }
    } else if hi == lo + 1 {
      assert RunUpTo(sched, feeds, lo, lo) == Success(LoopState([], None));
      RunUpToNext(sched, feeds, lo, lo, LoopState([], None));
    }
  }

  /** A fresh run with a nonzero `validation_epochs` never hits the unassigned `model_path`. */
  lemma FreshRunNeverUnbound(sched: Schedule, feeds: Feeds, hi: int)
    requires sched.validationEpochs != 0
    ensures RunUpTo(sched, feeds, 0, hi) != Failure(UnboundModelPath)
  {
    DueMeaning(0, sched.validationEpochs, sched.numEpochs);
    ValidatedStartNeverUnbound(sched, feeds, 0, hi);
  }

  /**
   * Resuming from epoch 5 with validation every 4 epochs and checkpoints every 2, the
   * first epoch, 6, is due a checkpoint but not a validation, and saving it reads
   * `model_path` before any assignment.
   */
  lemma ResumedRunUnbound(feeds: Feeds)
    requires |feeds.train(6)| == 1
    ensures var (lo, hi) := EpochRange(30, Some(5));
      RunUpTo(Schedule(30, 4, 2, 10), feeds, lo, hi) == Failure(UnboundModelPath)
  {
    var sched := Schedule(30, 4, 2, 10);
    assert Due(6, 4, 30) == Success(false);
    assert Due(6, 2, 30) == Success(true);
    assert RunUpTo(sched, feeds, 6, 6) == Success(LoopState([], None));
    RunUpToNext(sched, feeds, 6, 6, LoopState([], None));
    FailureSticks(sched, feeds, 6, 7, 36);
  }
}
