/**
 * The loss bookkeeping of one training epoch and one validation pass: running sums
 * that are averaged and reset on a debug schedule, and epoch sums divided by the
 * number of batches.
 */
module EpochRunner {
  import opened Wrappers
  import opened TrainConfig

  /** The two loss terms the criterion returns for one batch. */
  datatype BatchLoss = BatchLoss(regression: real, classification: real)

  /** A triple of accumulated or averaged losses: the total and its two terms. */
  datatype Losses = Losses(total: real, regression: real, classification: real)

  /** A debug log line: the step and the averages of the window that ends there. */
  datatype DebugLog = DebugLog(step: nat, average: Losses)

  const NoLoss := Losses(0.0, 0.0, 0.0)

  /** The losses one batch adds: `loss = regression_loss + classification_loss`. */
  function Of(b: BatchLoss): Losses
  {
    Losses(b.regression + b.classification, b.regression, b.classification)
  }

  function Add(x: Losses, y: Losses): Losses
  {
    Losses(x.total + y.total, x.regression + y.regression, x.classification + y.classification)
  }

  /** The sums over a run of batches. */
  function Sum(batches: seq<BatchLoss>): Losses
  {
    if batches == [] then NoLoss
    else Add(Sum(batches[..|batches| - 1]), Of(batches[|batches| - 1]))
  }

  /** Every sum is divided by `divisor`. */
  function Average(sum: Losses, divisor: int): Losses
    requires divisor != 0
  {
    Losses(sum.total / divisor as real, sum.regression / divisor as real, sum.classification / divisor as real)
  }

  /** The total of a sum is the sum of its two terms. */
  lemma {:induction false} SumIsConsistent(batches: seq<BatchLoss>)
    ensures Sum(batches).total == Sum(batches).regression + Sum(batches).classification
  {
    if batches != [] {
      SumIsConsistent(batches[..|batches| - 1]);
    }
  }

  /** Summing is additive over concatenation. */
  lemma {:induction false} SumOfConcat(xs: seq<BatchLoss>, ys: seq<BatchLoss>)
    ensures Sum(xs + ys) == Add(Sum(xs), Sum(ys))
    decreases |ys|
  {
    if ys == [] {
      assert xs + ys == xs;
    } else {
      var ys' := ys[..|ys| - 1];
      assert (xs + ys)[..|xs + ys| - 1] == xs + ys';
      SumOfConcat(xs, ys');
    }
  }

  // ----------------------------------------------------------------- schedule

  /**
   * `i and i % debug_steps == 0`: step 0 is never logged, since the modulo is not
   * evaluated for it; a zero `debug_steps` raises on every later step.
   */
  function IsLogStep(i: nat, debugSteps: int): (r: Result<bool, RunError>)
    ensures r.Failure? <==> i != 0 && debugSteps == 0
    ensures i == 0 ==> r == Success(false)
  {
    if i == 0 then Success(false)
    else if debugSteps == 0 then Failure(ZeroDivision)
    else Success(PyMod(i, debugSteps) == 0)
  }

  /** Step `i` resets the running sums. */
  predicate Resets(i: nat, debugSteps: int)
  {
    IsLogStep(i, debugSteps) == Success(true)
  }

  /** The first step whose losses are in the running sums before step `i` is added. */
  function WindowStart(i: nat, debugSteps: int): (s: nat)
    ensures s <= i
  {
    if i == 0 then 0
    else if Resets(i - 1, debugSteps) then i
    else WindowStart(i - 1, debugSteps)
  }

  /** The debug lines written while steps `0 .. i-1` run. */
  function LogsUpTo(batches: seq<BatchLoss>, debugSteps: int, i: nat): (logs: seq<DebugLog>)
    requires i <= |batches|
  {
    if i == 0 then []
    else
      var s := i - 1;
      LogsUpTo(batches, debugSteps, s) +
        if Resets(s, debugSteps) then [DebugLog(s, Average(Sum(batches[WindowStart(s, debugSteps)..i]), debugSteps))]
        else []
  }

  /**
   * What `train` returns: the epoch sums divided by the number of batches; an empty
   * loader, or a zero `debug_steps` with two batches or more, raises
   * `ZeroDivisionError`.
   */
  function TrainResult(batches: seq<BatchLoss>, debugSteps: int): (r: Result<Losses, RunError>)
    ensures r.Failure? <==> |batches| == 0 || (debugSteps == 0 && |batches| >= 2)
  {
    if |batches| == 0 || (debugSteps == 0 && |batches| >= 2) then Failure(ZeroDivision)
    else Success(Average(Sum(batches), |batches|))
  }

  // -------------------------------------------------------------------- train

  /**
   * One training epoch over the batches' losses: the running sums are logged as
   * averages over `debug_steps` and reset on every logging step, and the epoch sums
   * are never reset.
   */
  method Train(batches: seq<BatchLoss>, debugSteps: int) returns (r: Result<Losses, RunError>, logs: seq<DebugLog>)
    ensures r == TrainResult(batches, debugSteps)
    ensures r.Success? ==> logs == LogsUpTo(batches, debugSteps, |batches|)
  {
    var running := NoLoss;
    var epoch := NoLoss;
    logs := [];
    var i := 0;
    while i < |batches|
      invariant 0 <= i <= |batches|
      invariant debugSteps == 0 ==> i <= 1
      invariant running == Sum(batches[WindowStart(i, debugSteps)..i])
      invariant epoch == Sum(batches[..i])
      invariant logs == LogsUpTo(batches, debugSteps, i)
    {
      TrainStep(batches, debugSteps, i);
      var b := Of(batches[i]);
      running := Add(running, b);
      epoch := Add(epoch, b);
      if i != 0 {
        if debugSteps == 0 {
          return Failure(ZeroDivision), logs;
        }
        if PyMod(i, debugSteps) == 0 {
          logs := logs + [DebugLog(i, Average(running, debugSteps))];
          running := NoLoss;
        }
      }
      i := i + 1;
    }
    assert batches[..i] == batches;
    if |batches| == 0 {
      return Failure(ZeroDivision), logs;
    }
    r := Success(Average(epoch, |batches|));
  }

  /** What one step of `train` does to the window, the epoch sums and the debug lines. */
  lemma TrainStep(batches: seq<BatchLoss>, debugSteps: int, i: nat)
    requires i < |batches|
    ensures Resets(i, debugSteps) <==> i != 0 && debugSteps != 0 && PyMod(i, debugSteps) == 0
    ensures Sum(batches[WindowStart(i, debugSteps)..i + 1]) ==
      Add(Sum(batches[WindowStart(i, debugSteps)..i]), Of(batches[i]))
    ensures Sum(batches[..i + 1]) == Add(Sum(batches[..i]), Of(batches[i]))
    ensures WindowStart(i + 1, debugSteps) == if Resets(i, debugSteps) then i + 1 else WindowStart(i, debugSteps)
    ensures Sum(batches[i + 1..i + 1]) == NoLoss
    ensures LogsUpTo(batches, debugSteps, i + 1) == LogsUpTo(batches, debugSteps, i) +
      if Resets(i, debugSteps) then [DebugLog(i, Average(Sum(batches[WindowStart(i, debugSteps)..i + 1]), debugSteps))]
      else []
  {
    var w := WindowStart(i, debugSteps);
    assert batches[w..i + 1][..i - w] == batches[w..i];
    assert batches[..i + 1][..i] == batches[..i];
    assert batches[i + 1..i + 1] == [];
  }

  // ------------------------------------------------------------------ schedule facts

  /** The running sums never span a reset: no step in `[from, i)` resets when the window starts at or before `from`. */
  lemma {:induction false} NoResetInsideWindow(from: nat, i: nat, debugSteps: int)
    requires from <= i
    requires forall j :: from <= j < i ==> !Resets(j, debugSteps)
    ensures WindowStart(i, debugSteps) == WindowStart(from, debugSteps)
    decreases i - from
  {
    if i > from {
      NoResetInsideWindow(from, i - 1, debugSteps);
    }
  }

  /** A step resets exactly when it is not the first and `debug_steps` divides it. */
  lemma ResetsMeaning(i: nat, debugSteps: int)
    requires debugSteps != 0
    ensures Resets(i, debugSteps) <==> i != 0 && i % debugSteps == 0
  {
    if i != 0 {
      PyModZero(i, debugSteps);
    }
  }

  /** `d * x` grows with `x` for a positive `d`. */
  lemma MulMonotone(d: int, x: int, y: int)
    requires d > 0 && x <= y
    ensures d * x <= d * y
  {
    var t := y - x;
    assert d * y == d * x + d * t;
  }

  /** Euclidean division leaves a unique remainder. */
  lemma ModUnique(a: int, d: int, q: int, r: int)
    requires d > 0 && 0 <= r < d && a == d * q + r
    ensures a % d == r
  {
    var q0 := a / d;
    assert a == d * q0 + a % d;
    if q0 < q {
      MulMonotone(d, q0 + 1, q);
    } else if q0 > q {
      MulMonotone(d, q + 1, q0);
    }
  }

  /** Between two multiples of a positive `d`, nothing is a multiple of it. */
  lemma NotMultiple(s: int, k: int, d: int)
    requires d > 0 && s % d == 0 && 0 < k < d
    ensures (s - k) % d != 0
  {
    var q := s / d;
    assert s == d * q + s % d;
    assert s - k == d * (q - 1) + (d - k);
    ModUnique(s - k, d, q - 1, d - k);
  }

  /** Subtracting `d` keeps a multiple of `d` one. */
  lemma MultipleBefore(s: int, d: int)
    requires d > 0 && s % d == 0
    ensures (s - d) % d == 0
  {
    var q := s / d;
    assert s == d * q + s % d;
    assert s - d == d * (q - 1) + 0;
    ModUnique(s - d, d, q - 1, 0);
  }

  /** No positive number below `d` is a multiple of it. */
  lemma SmallNotMultiple(j: int, d: int)
    requires 0 < j < d
    ensures j % d != 0
  {
    ModUnique(j, d, 0, j);
  }

  /**
   * With a positive `debug_steps` d, the first debug line comes at step d and averages
   * the d+1 batches 0..d; every later one, at a step s, averages the d batches
   * s-d+1..s; each sum is divided by d.
   */
  lemma WindowSizes(s: nat, d: int)
    requires d > 0 && Resets(s, d)
    ensures s >= d
    ensures WindowStart(s, d) == if s == d then 0 else s - d + 1
  {
    ResetsMeaning(s, d);
    if s < d {
      SmallNotMultiple(s, d);
    }
    if s == d {
      forall j | 0 <= j < s
        ensures !Resets(j, d)
      {
        ResetsMeaning(j, d);
        if j > 0 {
          SmallNotMultiple(j, d);
        }
      }
      NoResetInsideWindow(0, s, d);
    } else {
      forall j | s - d < j < s
        ensures !Resets(j, d)
      {
        ResetsMeaning(j, d);
        NotMultiple(s, s - j, d);
      }
      MultipleBefore(s, d);
      ResetsMeaning(s - d, d);
      assert WindowStart(s - d + 1, d) == s - d + 1;
      NoResetInsideWindow(s - d + 1, s, d);
    }
  }

  /** The debug lines come exactly at the steps that reset, in order. */
  lemma {:induction false} LogsAtResetSteps(batches: seq<BatchLoss>, debugSteps: int, i: nat)
    requires i <= |batches|
    ensures var logs := LogsUpTo(batches, debugSteps, i);
      && (forall k :: 0 <= k < |logs| ==> logs[k].step < i && Resets(logs[k].step, debugSteps))
      && (forall k, m :: 0 <= k < m < |logs| ==> logs[k].step < logs[m].step)
      && (forall s :: 0 <= s < i && Resets(s, debugSteps) ==> exists k :: 0 <= k < |logs| && logs[k].step == s)
  {
    if i > 0 {
      LogsAtResetSteps(batches, debugSteps, i - 1);
      var prev := LogsUpTo(batches, debugSteps, i - 1);
      var logs := LogsUpTo(batches, debugSteps, i);
      assert forall k :: 0 <= k < |prev| ==> logs[k] == prev[k];
      if Resets(i - 1, debugSteps) {
        assert logs[|prev|].step == i - 1;
      }
    }
  }

  /** Each debug line averages, over `debug_steps`, the window that ends at its step. */
  lemma {:induction false} LogAverage(batches: seq<BatchLoss>, debugSteps: int, i: nat, k: nat)
    requires i <= |batches|
    requires k < |LogsUpTo(batches, debugSteps, i)|
    ensures var log := LogsUpTo(batches, debugSteps, i)[k];
      && log.step < i
      && debugSteps != 0
      && log.average == Average(Sum(batches[WindowStart(log.step, debugSteps)..log.step + 1]), debugSteps)
  {
    var prev := LogsUpTo(batches, debugSteps, i - 1);
    if k < |prev| {
      LogAverage(batches, debugSteps, i - 1, k);
      assert LogsUpTo(batches, debugSteps, i)[k] == prev[k];
    }
  }

  // --------------------------------------------------------------------- test

  /** What `test` returns: the sums divided by the number of batches; none raises. */
  function TestResult(batches: seq<BatchLoss>): (r: Result<Losses, RunError>)
    ensures r.Failure? <==> |batches| == 0
  {
    if |batches| == 0 then Failure(ZeroDivision) else Success(Average(Sum(batches), |batches|))
  }

  /** One validation pass: every batch's losses are summed, and the sums divided by the count. */
  method Test(batches: seq<BatchLoss>) returns (r: Result<Losses, RunError>)
    ensures r == TestResult(batches)
  {
    var running := NoLoss;
    var num := 0;
    for i := 0 to |batches|
      invariant num == i
      invariant running == Sum(batches[..i])
    {
      assert batches[..i + 1][..i] == batches[..i];
      running := Add(running, Of(batches[i]));
      num := num + 1;
    }
    assert batches[..|batches|] == batches;
    if num == 0 {
      return Failure(ZeroDivision);
    }
    r := Success(Average(running, num));
  }

  /**
   * A pass whose batches all have the same losses returns those losses, and the
   * average of a total is the total of the averages.
   */
  lemma {:induction false} TestOfConstantBatches(batches: seq<BatchLoss>, b: BatchLoss)
    requires |batches| > 0
    requires forall i :: 0 <= i < |batches| ==> batches[i] == b
    ensures TestResult(batches) == Success(Of(b))
  {
    SumOfConstant(batches, b);
    var n := |batches| as real;
    assert Average(Sum(batches), |batches|) == Losses(n * Of(b).total / n, n * b.regression / n, n * b.classification / n);
    assert n * Of(b).total / n == Of(b).total;
    assert n * b.regression / n == b.regression;
    assert n * b.classification / n == b.classification;
  }

  lemma {:induction false} SumOfConstant(batches: seq<BatchLoss>, b: BatchLoss)
    requires forall i :: 0 <= i < |batches| ==> batches[i] == b
    ensures Sum(batches) == Losses(|batches| as real * Of(b).total, |batches| as real * b.regression,
                                  |batches| as real * b.classification)
  {
    if batches != [] {
      SumOfConstant(batches[..|batches| - 1], b);
    }
  }
}
