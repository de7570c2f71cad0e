/**
 * The decisions the training script takes before its first epoch: learning-rate
 * fallbacks, optimizer parameter groups, the initial weights, the network and the
 * learning-rate schedule by name, and the range of epochs to run.
 */
module TrainConfig {
  import opened Wrappers
  import opened Milestones

  /** The command-line options these decisions read. */
  datatype Args = Args(
    net: string,
    mb2WidthMult: real,
    freezeBaseNet: bool,
    freezeNet: bool,
    baseNet: Option<string>,
    pretrainedSsd: Option<string>,
    resume: Option<string>,
    lr: real,
    gamma: real,
    baseNetLr: Option<real>,
    extraLayersLr: Option<real>,
    scheduler: string,
    milestones: string,
    tMax: real,
    patience: int,
    reductionFactor: real,
    numEpochs: int,
    validationEpochs: int,
    checkpointEpochs: int,
    debugSteps: int)

  /** The defaults of the argument parser. */
  const DefaultArgs := Args(
    net := "mb1-ssd", mb2WidthMult := 1.0, freezeBaseNet := false, freezeNet := false,
    baseNet := None, pretrainedSsd := Some("models/mobilenet-v1-ssd-mp-0_675.pth"), resume := None,
    lr := 0.01, gamma := 0.1, baseNetLr := Some(0.001), extraLayersLr := None,
    scheduler := "cosine", milestones := "80,100", tMax := 100.0, patience := 10,
    reductionFactor := 0.1, numEpochs := 30, validationEpochs := 1, checkpointEpochs := 1,
    debugSteps := 10)

  /**
   * Why the script stops before or while training. An unknown network or scheduler
   * name ends the process with `sys.exit(1)`; the others are Python exceptions.
   */
  datatype RunError =
    | UnknownNet(net: string)
    | UnknownScheduler(scheduler: string)
    | BadMilestones(error: ParseError)      // `int()` refuses a milestone piece
    | GroupCountMismatch                    // the optimizer refuses a state with another group count
    | ParamGroupIndexError                  // `param_groups[2]` with fewer than three groups
    | ZeroDivision                          // a zero divisor or modulus
    | UnboundModelPath                      // a checkpoint saved before any `model_path` assignment

  // ---------------------------------------------------------------- networks

  datatype Arch =
    | VggSsd
    | MobileNetV1Ssd
    | MobileNetV1SsdLite
    | SqueezeNetSsdLite
    | MobileNetV2SsdLite(widthMult: real)

  /** The configuration module that supplies priors, image size and normalisation. */
  datatype Config = VggConfig | MobileNetV1Config | SqueezeNetConfig

  datatype NetSpec = NetSpec(arch: Arch, config: Config)

  /** The `--net` names the dispatch accepts, in the order it tests them. */
  const NetNames: seq<string> := ["vgg16-ssd", "mb1-ssd", "mb1-ssd-lite", "sq-ssd-lite", "mb2-ssd-lite"]

  /** The architecture and configuration chosen by name; any other name exits. */
  function SelectNet(name: string, widthMult: real): (r: Result<NetSpec, RunError>)
    ensures r.Success? <==> name in NetNames
    ensures r.Failure? ==> r.error == UnknownNet(name)
  {
    if name == "vgg16-ssd" then Success(NetSpec(VggSsd, VggConfig))
    else if name == "mb1-ssd" then Success(NetSpec(MobileNetV1Ssd, MobileNetV1Config))
    else if name == "mb1-ssd-lite" then Success(NetSpec(MobileNetV1SsdLite, MobileNetV1Config))
    else if name == "sq-ssd-lite" then Success(NetSpec(SqueezeNetSsdLite, SqueezeNetConfig))
    else if name == "mb2-ssd-lite" then Success(NetSpec(MobileNetV2SsdLite(widthMult), MobileNetV1Config))
    else Failure(UnknownNet(name))
  }

  /**
   * Every MobileNet variant, the second version included, takes the first version's
   * configuration; only the second version reads the width multiplier.
   */
  lemma MobileNetsShareConfig(name: string, widthMult: real)
    requires SelectNet(name, widthMult).Success?
    ensures var spec := SelectNet(name, widthMult).value;
      (spec.config == MobileNetV1Config <==> name in ["mb1-ssd", "mb1-ssd-lite", "mb2-ssd-lite"]) &&
      (spec.arch.MobileNetV2SsdLite? ==> spec.arch.widthMult == widthMult)
  {
  }

  /** The name `mb1-lite-ssd` that the option's help text offers is not accepted. */
  lemma HelpTextNameRejected(widthMult: real)
    ensures SelectNet("mb1-lite-ssd", widthMult) == Failure(UnknownNet("mb1-lite-ssd"))
  {
    assert "mb1-lite-ssd" !in NetNames by {
      assert "mb1-lite-ssd"[4] != "mb1-ssd-lite"[4];
    }
  }

  // ---------------------------------------------------------- parameter groups

  /** The blocks of an SSD network whose parameters the optimizer is given. */
  datatype Block = BaseNet | SourceLayerAddOns | Extras | RegressionHeaders | ClassificationHeaders

  const AllBlocks: set<Block> := {BaseNet, SourceLayerAddOns, Extras, RegressionHeaders, ClassificationHeaders}

  /** A parameter-group dict: the chained blocks and the `lr` entry, when it has one. */
  datatype ParamGroup = ParamGroup(blocks: seq<Block>, lr: Option<real>)

  /** What SGD receives: a list of group dicts, or a plain chain of parameters. */
  datatype Params = Groups(groups: seq<ParamGroup>) | Chain(blocks: seq<Block>)

  /** `x if x is not None else args.lr`. */
  function OrDefault(x: Option<real>, lr: real): real
  {
    if x.Some? then x.value else lr
  }

  /** The blocks `freeze_net_layers` is applied to. */
  function Frozen(freezeBaseNet: bool, freezeNet: bool): set<Block>
  {
    if freezeBaseNet then {BaseNet}
    else if freezeNet then {BaseNet, SourceLayerAddOns, Extras}
    else {}
  }

  /**
   * The parameters handed to SGD, by the freeze flags; `--freeze-base-net` is checked
   * first. `--freeze-net` leaves a plain chain, there are three groups only without
   * freezing, and the heads always train at SGD's default rate.
   */
  function SelectParams(freezeBaseNet: bool, freezeNet: bool, baseNetLr: real, extraLayersLr: real): (p: Params)
    ensures p.Chain? <==> !freezeBaseNet && freezeNet
    ensures p.Groups? && |p.groups| == 3 <==> !freezeBaseNet && !freezeNet
    ensures p.Groups? ==>
      |p.groups| >= 2 && p.groups[|p.groups| - 1] == ParamGroup([RegressionHeaders, ClassificationHeaders], None)
    ensures p.Chain? ==> p.blocks == [RegressionHeaders, ClassificationHeaders]
  {
    if freezeBaseNet then
      Groups([ParamGroup([SourceLayerAddOns, Extras], Some(extraLayersLr)),
              ParamGroup([RegressionHeaders, ClassificationHeaders], None)])
    else if freezeNet then
      Chain([RegressionHeaders, ClassificationHeaders])
    else
      Groups([ParamGroup([BaseNet], Some(baseNetLr)),
              ParamGroup([SourceLayerAddOns, Extras], Some(extraLayersLr)),
              ParamGroup([RegressionHeaders, ClassificationHeaders], None)])
  }

  /** The blocks of every group, in order. */
  function Flatten(groups: seq<ParamGroup>): seq<Block>
  {
    if groups == [] then [] else groups[0].blocks + Flatten(groups[1..])
  }

  function ParamBlocks(params: Params): seq<Block>
  {
    match params
    case Groups(groups) => Flatten(groups)
    case Chain(blocks) => blocks
  }

  /**
   * `optimizer.param_groups` as far as learning rates go: every group dict keeps its own
   * `lr` and takes SGD's `lr=args.lr` otherwise; a plain chain becomes one such group.
   */
  function GroupLrs(params: Params, lr: real): (lrs: seq<real>)
    ensures params.Groups? ==> |lrs| == |params.groups|
    ensures params.Chain? ==> lrs == [lr]
  {
    match params
    case Chain(_) => [lr]
    case Groups(groups) => seq(|groups|, k requires 0 <= k < |groups| => OrDefault(groups[k].lr, lr))
  }

  /** The learning rate of the first group holding a block, or `None` when none does. */
  function GroupsLr(groups: seq<ParamGroup>, lr: real, b: Block): Option<real>
  {
    if groups == [] then None
    else if b in groups[0].blocks then Some(OrDefault(groups[0].lr, lr))
    else GroupsLr(groups[1..], lr, b)
  }

  /** The learning rate a block trains at, or `None` when the optimizer does not hold it. */
  function BlockLr(params: Params, lr: real, b: Block): Option<real>
  {
    match params
    case Chain(blocks) => if b in blocks then Some(lr) else None
    case Groups(groups) => GroupsLr(groups, lr, b)
  }

  /**
   * Every block that is not frozen is handed to the optimizer exactly once, and no
   * frozen block is.
   */
  lemma OptimizerHoldsUnfrozenBlocks(freezeBaseNet: bool, freezeNet: bool, baseNetLr: real, extraLayersLr: real)
    ensures var blocks := ParamBlocks(SelectParams(freezeBaseNet, freezeNet, baseNetLr, extraLayersLr));
      && (forall b :: b in blocks <==> b in AllBlocks - Frozen(freezeBaseNet, freezeNet))
      && (forall i, j :: 0 <= i < j < |blocks| ==> blocks[i] != blocks[j])
  {
    var params := SelectParams(freezeBaseNet, freezeNet, baseNetLr, extraLayersLr);
    if params.Groups? {
      var g := params.groups;
      assert Flatten(g[|g| - 1..]) == g[|g| - 1].blocks;
      if |g| == 3 {
        assert Flatten(g) == [BaseNet, SourceLayerAddOns, Extras, RegressionHeaders, ClassificationHeaders];
      } else {
        assert Flatten(g) == [SourceLayerAddOns, Extras, RegressionHeaders, ClassificationHeaders];
      }
    }
  }

  /**
   * The learning rate of every block, once SGD fills in its default: without freezing,
   * the base net trains at `base_net_lr`, falling back to `lr`, the added and extra
   * layers at `extra_layers_lr`, falling back to `lr`, and the heads at `lr`; frozen
   * blocks do not train.
   */
  lemma BlockLearningRates(args: Args)
    ensures var baseLr := OrDefault(args.baseNetLr, args.lr);
      var extraLr := OrDefault(args.extraLayersLr, args.lr);
      var params := SelectParams(args.freezeBaseNet, args.freezeNet, baseLr, extraLr);
      var frozen := Frozen(args.freezeBaseNet, args.freezeNet);
      forall b :: BlockLr(params, args.lr, b) ==
        if b in frozen then None
        else if b == BaseNet then Some(baseLr)
        else if b == SourceLayerAddOns || b == Extras then Some(extraLr)
        else Some(args.lr)
  {
    var baseLr := OrDefault(args.baseNetLr, args.lr);
    var extraLr := OrDefault(args.extraLayersLr, args.lr);
    var heads := ParamGroup([RegressionHeaders, ClassificationHeaders], None);
    var extras := ParamGroup([SourceLayerAddOns, Extras], Some(extraLr));
    var base := ParamGroup([BaseNet], Some(baseLr));
    var lr := args.lr;
    assert [heads][1..] == [];
    assert [extras, heads][1..] == [heads];
    assert [base, extras, heads][1..] == [extras, heads];
    assert forall b :: GroupsLr([heads], lr, b) == if b in heads.blocks then Some(lr) else None;
    assert forall b ::
      GroupsLr([extras, heads], lr, b) == if b in extras.blocks then Some(extraLr) else GroupsLr([heads], lr, b);
    assert forall b ::
      GroupsLr([base, extras, heads], lr, b) == if b in base.blocks then Some(baseLr) else GroupsLr([extras, heads], lr, b);
  }

  /** `get_current_lr`: the learning rate of the first parameter group, `None` without groups. */
  function CurrentLr(groupLrs: seq<real>): (r: Option<real>)
    ensures r.Some? <==> |groupLrs| > 0
    ensures r.Some? ==> r.value == groupLrs[0]
  {
    if |groupLrs| == 0 then None else Some(groupLrs[0])
  }

  /**
   * The learning rate the report records is the base net's, `base_net_lr`, and not
   * `lr`, whenever the base net is not frozen and the run starts afresh.
   */
  lemma ReportedLrIsBaseNetLr(args: Args)
    requires !args.freezeBaseNet && !args.freezeNet
    ensures var baseLr := OrDefault(args.baseNetLr, args.lr);
      var params := SelectParams(false, false, baseLr, OrDefault(args.extraLayersLr, args.lr));
      CurrentLr(GroupLrs(params, args.lr)) == Some(baseLr)
  {
  }

  /**
   * The log line after the optimizer is built reads groups 2, 0 and 1, in that order;
   * `param_groups[2]` raises `IndexError` unless there are three groups.
   */
  function LoggedLrs(groupLrs: seq<real>): (r: Result<(real, real, real), RunError>)
    ensures r.Success? <==> |groupLrs| >= 3
    ensures r.Success? ==> r.value == (groupLrs[2], groupLrs[0], groupLrs[1])
    ensures r.Failure? ==> r.error == ParamGroupIndexError
  {
    if |groupLrs| < 3 then Failure(ParamGroupIndexError)
    else Success((groupLrs[2], groupLrs[0], groupLrs[1]))
  }

  /**
   * Either freeze flag leaves fewer than three groups, so the learning-rate log line
   * fails; without freezing it logs `lr`, the base net's and the extra layers' rates.
   */
  lemma LoggedLrsFailWhenFrozen(args: Args)
    ensures var baseLr := OrDefault(args.baseNetLr, args.lr);
      var extraLr := OrDefault(args.extraLayersLr, args.lr);
      var lrs := GroupLrs(SelectParams(args.freezeBaseNet, args.freezeNet, baseLr, extraLr), args.lr);
      && (LoggedLrs(lrs).Failure? <==> args.freezeBaseNet || args.freezeNet)
      && (LoggedLrs(lrs).Success? ==> LoggedLrs(lrs).value == (args.lr, baseLr, extraLr))
  {
  }

  // -------------------------------------------------------------- initial weights

  /** Python truthiness of an optional path: set and not empty. */
  predicate Truthy(path: Option<string>)
  {
    path.Some? && |path.value| > 0
  }

  /** Where the initial weights come from. */
  datatype Init = ResumeFrom(path: string) | FromBaseNet(path: string) | FromPretrainedSsd(path: string) | NoInit

  /**
   * `if args.resume: … elif args.base_net: … elif args.pretrained_ssd: …`: the initial
   * weights come from the first set source in the order resume, base net, pretrained
   * SSD, and from no other; no source is used only when none is set.
   */
  function InitSource(resume: Option<string>, baseNet: Option<string>, pretrainedSsd: Option<string>): (init: Init)
    ensures init.ResumeFrom? <==> Truthy(resume)
    ensures init.FromBaseNet? <==> !Truthy(resume) && Truthy(baseNet)
    ensures init.FromPretrainedSsd? <==> !Truthy(resume) && !Truthy(baseNet) && Truthy(pretrainedSsd)
    ensures init.NoInit? <==> !Truthy(resume) && !Truthy(baseNet) && !Truthy(pretrainedSsd)
    ensures init.ResumeFrom? ==> Some(init.path) == resume
    ensures init.FromBaseNet? ==> Some(init.path) == baseNet
    ensures init.FromPretrainedSsd? ==> Some(init.path) == pretrainedSsd
  {
    if Truthy(resume) then ResumeFrom(resume.value)
    else if Truthy(baseNet) then FromBaseNet(baseNet.value)
    else if Truthy(pretrainedSsd) then FromPretrainedSsd(pretrainedSsd.value)
    else NoInit
  }

  // ------------------------------------------------------------------ schedulers

  /** The learning-rate scheduler and the arguments it is built with. */
  datatype Scheduler =
    | MultiStep(milestones: seq<int>, gamma: real, lastEpoch: int)
    | Cosine(tMax: real, lastEpoch: int)
    | ReduceOnPlateau(patience: int)

  /**
   * The scheduler chosen by name: multi-step with the parsed milestones and a fixed
   * factor 0.1, cosine annealing with `t_max`, or reduce-on-plateau with `patience`;
   * any other name exits.
   */
  function SelectScheduler(args: Args, lastEpoch: int): (r: Result<Scheduler, RunError>)
    ensures r.Failure? ==> r.error.UnknownScheduler? || r.error.BadMilestones?
    ensures r.Failure? && r.error.UnknownScheduler? <==>
      args.scheduler !in ["multi-step", "cosine", "reduce-on-plateau"]
  {
    if args.scheduler == "multi-step" then
      match ParseMilestones(args.milestones)
      case Failure(e) => Failure(BadMilestones(e))
      case Success(ms) => Success(MultiStep(ms, 0.1, lastEpoch))
    else if args.scheduler == "cosine" then Success(Cosine(args.tMax, lastEpoch))
    else if args.scheduler == "reduce-on-plateau" then Success(ReduceOnPlateau(args.patience))
    else Failure(UnknownScheduler(args.scheduler))
  }

  /**
   * `--gamma` and `--reduction-factor` have no effect on the scheduler, and neither
   * does the resumed epoch on reduce-on-plateau.
   */
  lemma SchedulerIgnoresGammaAndFactor(args: Args, gamma: real, factor: real, lastEpoch: int, otherLastEpoch: int)
    ensures SelectScheduler(args, lastEpoch) ==
      SelectScheduler(args.(gamma := gamma, reductionFactor := factor), lastEpoch)
    ensures args.scheduler == "reduce-on-plateau" ==>
      SelectScheduler(args, lastEpoch) == SelectScheduler(args, otherLastEpoch)
    ensures var r := SelectScheduler(args, lastEpoch);
      r.Success? && r.value.MultiStep? ==> r.value.gamma == 0.1 && Success(r.value.milestones) == ParseMilestones(args.milestones)
  {
  }

  // ---------------------------------------------------------------------- epochs

  /** `range(lo, hi)`. */
  function Range(lo: int, hi: int): (r: seq<int>)
    ensures |r| == if hi > lo then hi - lo else 0
    ensures forall i :: 0 <= i < |r| ==> r[i] == lo + i
  {
    if hi <= lo then [] else seq(hi - lo, i requires 0 <= i < hi - lo => lo + i)
  }

  /**
   * The epoch range: `last_epoch + 1` up to `num_epochs + r_epoch`, both -1 and 0 on a
   * fresh run. A fresh run starts at 0 and spans `num_epochs + 1` epochs; a resumed
   * one starts after the stored epoch and spans `num_epochs`.
   */
  function EpochRange(numEpochs: int, storedEpoch: Option<int>): (range: (int, int))
    ensures range.0 == if storedEpoch.Some? then storedEpoch.value + 1 else 0
    ensures range.1 - range.0 == if storedEpoch.Some? then numEpochs else numEpochs + 1
  {
    var lastEpoch := if storedEpoch.Some? then storedEpoch.value else -1;
    var rEpoch := if storedEpoch.Some? then storedEpoch.value else 0;
    (lastEpoch + 1, numEpochs + rEpoch + 1)
  }

  /**
   * A fresh run executes epochs 0 to `num_epochs` inclusive, one more than asked for;
   * a run resumed at stored epoch r executes r+1 to `num_epochs + r`, exactly
   * `num_epochs` of them.
   */
  lemma EpochsRun(numEpochs: int, r: int)
    ensures var (lo, hi) := EpochRange(numEpochs, None);
      Range(lo, hi) == Range(0, numEpochs + 1) && (numEpochs >= 0 ==> |Range(lo, hi)| == numEpochs + 1)
    ensures var (lo, hi) := EpochRange(numEpochs, Some(r));
      Range(lo, hi) == Range(r + 1, numEpochs + r + 1) && (numEpochs >= 0 ==> |Range(lo, hi)| == numEpochs)
  {
  }

  /** Python's `a % b`, which takes the sign of `b`. */
  function PyMod(a: int, b: int): (m: int)
    requires b != 0
    ensures b > 0 ==> 0 <= m < b
    ensures b < 0 ==> b < m <= 0
    ensures m == a % b || (b < 0 && m == a % b + b)
  {
    var e := a % b;
    if b < 0 && e != 0 then e + b else e
  }

  /** `a % b == 0` in Python exactly when `b` divides `a`. */
  lemma PyModZero(a: int, b: int)
    requires b != 0
    ensures PyMod(a, b) == 0 <==> a % b == 0
  {
    if b < 0 && a % b != 0 {
      assert PyMod(a, b) == a % b + b;
      assert 0 < a % b < -b;
    }
  }

  /**
   * `epoch % every == 0 or epoch == num_epochs - 1`, the test for validating and for
   * saving; `every == 0` raises `ZeroDivisionError`, as the modulo is taken first.
   */
  function Due(epoch: int, every: int, numEpochs: int): (r: Result<bool, RunError>)
    ensures r.Failure? <==> every == 0
    ensures r.Failure? ==> r.error == ZeroDivision
  {
    if every == 0 then Failure(ZeroDivision)
    else Success(PyMod(epoch, every) == 0 || epoch == numEpochs - 1)
  }

  /** An epoch is due exactly when `every` divides it or it is `num_epochs - 1`. */
  lemma DueMeaning(epoch: int, every: int, numEpochs: int)
    requires every != 0
    ensures Due(epoch, every, numEpochs).Success?
    ensures Due(epoch, every, numEpochs).value <==> epoch % every == 0 || epoch == numEpochs - 1
  {
    PyModZero(epoch, every);
  }

  /**
   * The `num_epochs - 1` clause does not reach the last epoch of a fresh run: with
   * the default 30 epochs but validation and checkpoints every 4, epoch 30 runs and
   * is neither validated nor saved. Intervals that divide 30, the default 1 among them,
   * reach it.
   */
  lemma FinalEpochMissed()
    ensures var (lo, hi) := EpochRange(30, None);
      hi - 1 == 30 && Due(30, 4, 30) == Success(false)
    ensures Due(30, DefaultArgs.validationEpochs, 30) == Success(true)
    ensures Due(30, DefaultArgs.checkpointEpochs, 30) == Success(true)
  {
  }

  // ------------------------------------------------------------------- the plan

  /** A checkpoint's optimizer state: the stored epoch and the learning rate of every group. */
  datatype Checkpoint = Checkpoint(trainingEpoch: int, groupLrs: seq<real>)

  /** Everything fixed before the first epoch. */
  datatype Plan = Plan(
    net: NetSpec,
    frozen: set<Block>,
    params: Params,
    init: Init,
    groupLrs: seq<real>,
    scheduler: Scheduler,
    firstEpoch: int,
    endEpoch: int)

  /**
   * The script's decisions in their order: the network, the parameter groups, the
   * initial weights, the optimizer (whose state a resumed run replaces by the
   * checkpoint's), the learning-rate log line, the scheduler and the epoch range.
   * `stored` is the checkpoint `--resume` names.
   *
   * An unknown network exits first; with a known one, either freeze flag stops the
   * script at the learning-rate log line before any scheduler is built, so no run with
   * frozen layers ever trains; a started run has three groups and the scheduler its
   * name asks for.
   */
  function PlanRun(args: Args, stored: Checkpoint): (r: Result<Plan, RunError>)
    ensures args.net !in NetNames ==> r == Failure(UnknownNet(args.net))
    ensures args.net in NetNames && (args.freezeBaseNet || args.freezeNet) ==>
      && r.Failure?
      && r.error in {ParamGroupIndexError, GroupCountMismatch}
      && (!Truthy(args.resume) ==> r.error == ParamGroupIndexError)
    ensures r.Success? ==>
      && !args.freezeBaseNet && !args.freezeNet
      && r.value.frozen == {}
      && |r.value.groupLrs| == 3
      && args.scheduler in ["multi-step", "cosine", "reduce-on-plateau"]
  {
    LoggedLrsFailWhenFrozen(args);
    match SelectNet(args.net, args.mb2WidthMult)
    case Failure(e) => Failure(e)
    case Success(net) =>
      var baseLr := OrDefault(args.baseNetLr, args.lr);
      var extraLr := OrDefault(args.extraLayersLr, args.lr);
      var params := SelectParams(args.freezeBaseNet, args.freezeNet, baseLr, extraLr);
      var init := InitSource(args.resume, args.baseNet, args.pretrainedSsd);
      var built := GroupLrs(params, args.lr);
      if Truthy(args.resume) && |stored.groupLrs| != |built| then Failure(GroupCountMismatch)
      else
        var groupLrs := if Truthy(args.resume) then stored.groupLrs else built;
        var storedEpoch := if Truthy(args.resume) then Some(stored.trainingEpoch) else None;
        var lastEpoch := if Truthy(args.resume) then stored.trainingEpoch else -1;
        match LoggedLrs(groupLrs)
        case Failure(e) => Failure(e)
        case Success(_) =>
          match SelectScheduler(args, lastEpoch)
          case Failure(e) => Failure(e)
          case Success(scheduler) =>
            var (lo, hi) := EpochRange(args.numEpochs, storedEpoch);
            Success(Plan(net, Frozen(args.freezeBaseNet, args.freezeNet), params, init, groupLrs, scheduler, lo, hi))
  }

  /**
   * With the default options: MobileNet-V1 SSD from the pretrained weights, three
   * groups at 0.001, 0.01 and 0.01, cosine annealing over 100 epochs, epochs 0 to 30.
   */
  lemma DefaultPlan(stored: Checkpoint)
    ensures PlanRun(DefaultArgs, stored) == Success(Plan(
      NetSpec(MobileNetV1Ssd, MobileNetV1Config), {},
      SelectParams(false, false, 0.001, 0.01),
      FromPretrainedSsd("models/mobilenet-v1-ssd-mp-0_675.pth"),
      [0.001, 0.01, 0.01], Cosine(100.0, -1), 0, 31))
  {
    var args := DefaultArgs;
    assert SelectNet(args.net, args.mb2WidthMult) == Success(NetSpec(MobileNetV1Ssd, MobileNetV1Config));
    assert InitSource(args.resume, args.baseNet, args.pretrainedSsd) == FromPretrainedSsd("models/mobilenet-v1-ssd-mp-0_675.pth");
    assert GroupLrs(SelectParams(false, false, 0.001, 0.01), 0.01) == [0.001, 0.01, 0.01];
    assert SelectScheduler(args, -1) == Success(Cosine(100.0, -1));
  }
}
