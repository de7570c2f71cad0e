# SSD training bookkeeping on Open Images, in Dafny

This project models two pieces of deterministic bookkeeping around an SSD object
detector. The network, the loss and image decoding are outside the model.

1. **The Open Images dataset object** (`vision/datasets/open_images.py`):
   - Annotation rows (ImageID, ClassName, box) become a class vocabulary. Labels are
     numbered from 1 in order of first appearance.
   - The rows are grouped into one record per image, holding that image's boxes and labels.
   - With `balance_data`, the records are resampled so that every class contributes
     `min_image_num` draws.
   - `__getitem__` chains the two injected transforms.
   - `__repr__` computes per-class label counts once and caches them.
2. **The control rules of the training script** (`train_ssd.py`):
   - learning-rate fallbacks;
   - optimizer parameter groups chosen by the freeze flags;
   - the source of the initial weights;
   - the network and scheduler chosen by name;
   - milestone parsing;
   - the epoch range of a fresh or resumed run;
   - the per-epoch training and validation loss accumulators;
   - the epoch loop's validation, report, checkpoint and scheduler-argument schedule.

Modules, one per file:

| module | file | models |
|---|---|---|
| `Wrappers` | wrappers.dfy | `Option` and `Result` |
| `AnnotationIndex` | annotation_index.dfy | `_read_data` |
| `ClassBalancer` | class_balancer.dfy | `_balance_data` |
| `OpenImages` | open_images.dfy | the dataset class: `__init__`, `__len__`, `__getitem__`, `__repr__`'s cache |
| `Milestones` | milestones.dfy | `[int(v.strip()) for v in s.split(",")]` |
| `TrainConfig` | train_config.dfy | the decisions the script takes before the first epoch |
| `EpochRunner` | epoch_runner.dfy | `train` and `test` |
| `TrainingLoop` | training_loop.dfy | the epoch loop |

What the library calls would decide is passed in as parameters:
- **pandas `groupby` order** is the parameter `groupKeys`. Any duplicate-free list of the
  distinct ImageIDs is accepted; pandas supplies the sorted one.
- **`np.random.choice`** is the parameter `draws`, one list of positions per class.
- **Set-to-list order at line 88** is modelled as ascending. Every order is reachable
  through some `draws`.
- **Image reading** is the function parameter `readImage`.
- **The transforms** are optional function fields.
- **Per-batch losses and group learning rates** come from the `Feeds` parameter.

Errors the source raises are modelled as values:
- `min([])` on an empty vocabulary is `Open`'s `Failure`.
- An index out of range in `__getitem__` is `IndexOutOfRange`.
- `sys.exit(1)` after an unknown network or scheduler name is `UnknownNet` or `UnknownScheduler`.
- `int()` refusing a milestone piece is `BadMilestones`.
- `param_groups[2]` with fewer than three groups is `ParamGroupIndexError`.
- A zero divisor or modulus is `ZeroDivision`. This covers:
  - an empty loader;
  - `debug_steps == 0` with two batches or more;
  - `validation_epochs == 0` or `checkpoint_epochs == 0`;
  - an empty validation loader.
- Saving a checkpoint before `model_path` was ever assigned, a `NameError`, is `UnboundModelPath`.

## Model

| member | source | states |
|---|---|---|
| AnnotationIndex.Unique | vision/datasets/open_images.py:39 | `ClassName.unique()` has no duplicates, holds exactly the classes of the rows, and is no longer than the column |
| AnnotationIndex.Vocabulary | vision/datasets/open_images.py:39 | `class_names` has no duplicates, is no longer than the annotation rows, and names only classes some row carries |
| AnnotationIndex.UniqueFollowsFirstAppearance | vision/datasets/open_images.py:39 | the vocabulary lists classes in order of their first row |
| AnnotationIndex.VocabularyCoversRows | vision/datasets/open_images.py:39 | every row's class is in the vocabulary |
| AnnotationIndex.VocabularyClassesOccur | vision/datasets/open_images.py:39 | every vocabulary class comes from some row |
| AnnotationIndex.ClassDict | vision/datasets/open_images.py:40 | `class_dict` has exactly the vocabulary's names as keys, and `class_dict[class_names[i]] == i + 1` |
| AnnotationIndex.VocabularyOrderAndSize | vision/datasets/open_images.py:39-40 | first-appearance order, and `len(class_dict) == len(class_names)` |
| AnnotationIndex.NoDupCardinality | vision/datasets/open_images.py:39-40 | a duplicate-free list has as many distinct elements as entries |
| AnnotationIndex.FirstIndex | vision/datasets/open_images.py:39 | the position returned holds `x`, and no earlier position does |
| AnnotationIndex.RowsOf | vision/datasets/open_images.py:42 | a group holds only rows of the input with that ImageID |
| AnnotationIndex.Grouped | vision/datasets/open_images.py:41-49 | one record per group key, in key order, carrying that key as its ImageID and one label per box, as many as the rows of that image |
| AnnotationIndex.GroupOrderHasNoDuplicates | vision/datasets/open_images.py:42 | a groupby order lists every ImageID once |
| AnnotationIndex.ReadData | vision/datasets/open_images.py:36-50 | returns the vocabulary, its dict, and one record per ImageID in group order; every record has as many labels as boxes, all in `1..len(class_names)`; the labels over all records number exactly the rows |
| AnnotationIndex.GroupedFacts | vision/datasets/open_images.py:41-49 | one non-empty record per group key; records are well formed and none occurs twice; label total equals row count |
| AnnotationIndex.GroupedIsWellFormed | vision/datasets/open_images.py:43-47 | every record's boxes and labels have equal length, with labels in `1..N` |
| AnnotationIndex.LabelsInRange | vision/datasets/open_images.py:44 | every label looked up in `class_dict` lies in `1..N` |
| AnnotationIndex.DictLabelsEveryRow | vision/datasets/open_images.py:40-44 | the lookup `class_dict[name]` never misses for a row's class |
| AnnotationIndex.GroupedOfSnoc | vision/datasets/open_images.py:42-49 | one more group key appends exactly one record |
| AnnotationIndex.GroupSizesSum | vision/datasets/open_images.py:42-49 | when every ImageID is a key once, the group sizes add up to the row count |
| AnnotationIndex.GroupedLabelCount | vision/datasets/open_images.py:44-49 | the labels over all records number the group sizes added up |
| AnnotationIndex.RowInItsGroup | vision/datasets/open_images.py:42 | every row appears in the group of its ImageID |
| AnnotationIndex.EveryClassHasAnImage | vision/datasets/open_images.py:39-49 | every vocabulary label occurs in some record |
| ClassBalancer.LabelImageIndexes | vision/datasets/open_images.py:80-83 | slot `c` holds exactly the indexes of the records that contain label `c` |
| ClassBalancer.ImagesWithUpToStep | vision/datasets/open_images.py:81-83 | visiting record `i` adds `i` to exactly the sets of its labels |
| ClassBalancer.SeqMin | vision/datasets/open_images.py:85 | `min` returns an element no greater than any other |
| ClassBalancer.MinImageNum | vision/datasets/open_images.py:84-85 | `min_image_num` is between 0 and the number of images |
| ClassBalancer.MinImageNumIsSmallestClass | vision/datasets/open_images.py:84-85 | `min_image_num` is the size of some class's image set among labels `1..N` and no larger than any; it is at least 1 when every class has an image |
| ClassBalancer.Ascending | vision/datasets/open_images.py:88 | the list of a set holds exactly its elements, strictly increasing |
| ClassBalancer.AscendingLength | vision/datasets/open_images.py:88 | that list is as long as the set |
| ClassBalancer.ClassList | vision/datasets/open_images.py:88 | the list for class `k + 1` is as long as its image set |
| ClassBalancer.ClassLists | vision/datasets/open_images.py:87-88 | one list per class, in label order |
| ClassBalancer.PickedBounds | vision/datasets/open_images.py:89-91 | the positions drawn add only list elements, at most one per draw, and the first draw's element always |
| ClassBalancer.SampleImageIndexes | vision/datasets/open_images.py:86-91 | the loop's union equals the union over all classes of the drawn elements |
| ClassBalancer.UnionUpToInRange | vision/datasets/open_images.py:86-91 | every sampled index is a valid record index |
| ClassBalancer.UnionUpToSize | vision/datasets/open_images.py:86-91 | k classes of at most m draws sample at most `k * m` indexes |
| ClassBalancer.UnionUpToContains | vision/datasets/open_images.py:86-91 | the union holds every class's drawn elements |
| ClassBalancer.BalancedRecords | vision/datasets/open_images.py:92 | one record per distinct sampled index, each a record of the original data |
| ClassBalancer.ClassListsIndexed | vision/datasets/open_images.py:88-89 | every draw is a valid position of its class list, whose elements are record indexes |
| ClassBalancer.DrawsFitInRange | vision/datasets/open_images.py:89 | draws of `min_image_num` positions below each set's size are valid positions |
| ClassBalancer.BalanceData | vision/datasets/open_images.py:79-93 | fails exactly when there are no classes (`min` of an empty list); otherwise returns `min_image_num` and the sampled records |
| ClassBalancer.BalancedIsWellFormed | vision/datasets/open_images.py:92 | balanced records stay well formed |
| ClassBalancer.BalancedIsSubset | vision/datasets/open_images.py:86-92 | the balanced data are records of the original, duplicate-free when the original is, no more than the original and no more than `N * min_image_num` |
| ClassBalancer.EveryClassRepresented | vision/datasets/open_images.py:85-91 | with `min_image_num >= 1`, every class keeps an image containing it |
| ClassBalancer.DrawnImageSampled | vision/datasets/open_images.py:89-91 | the first draw of class `c` is a sampled record containing `c` |
| OpenImages.LoadedIsWellFormed | vision/datasets/open_images.py:17-21 | after `__init__`, the vocabulary has no duplicates and `data` is well formed and holds no record twice, balanced or not |
| OpenImages.OpenImagesDataset.constructor | vision/datasets/open_images.py:9-23 | stores the transforms, the data and `min_image_num` (-1 without balancing) and starts with no cached statistics |
| OpenImages.OpenImagesDataset.Open | vision/datasets/open_images.py:9-23 | fails exactly when balancing an empty vocabulary; the dataset keeps the given rows, group order and draws; without balancing, `data` is the grouped list and `min_image_num` is -1; with balancing, `data` is the records those draws sample from the grouped list and `min_image_num` the smallest class's image count |
| OpenImages.OpenImagesDataset.Length | vision/datasets/open_images.py:52-53 | one entry per ImageID without balancing; with balancing, no more than that and no more than `N * min_image_num` |
| OpenImages.ListIndex | vision/datasets/open_images.py:26 | Python indexing: valid exactly for `-len <= i < len`, negative indexes counting from the end |
| OpenImages.OpenImagesDataset.GetItem | vision/datasets/open_images.py:25-34 | `IndexError` exactly outside the list; the stored boxes and labels unchanged without transforms; `transform` first and `target_transform` on its output; either one alone |
| OpenImages.ClassStat | vision/datasets/open_images.py:57-61 | one entry per class name, holding the number of boxes with that class's label |
| OpenImages.CountLabels | vision/datasets/open_images.py:57-61 | the counting loop yields `ClassStat` |
| OpenImages.AddLabels | vision/datasets/open_images.py:59-61 | one record's labels add their occurrences to each class's count |
| OpenImages.OpenImagesDataset.Describe | vision/datasets/open_images.py:55-68 | the cache is computed once and then reused unchanged; the summary reports the image count, `min_image_num` and every class's count in vocabulary order |
| OpenImages.CountsAddUp | vision/datasets/open_images.py:57-61 | the per-class counts add up to the number of labels in `data` |
| OpenImages.LabelsUpToAll | vision/datasets/open_images.py:59-61 | counted over all classes, every in-range label counts once |
| OpenImages.UnbalancedCountsEveryRow | vision/datasets/open_images.py:36-61 | without balancing, the class counts add up to the annotation rows |
| OpenImages.EveryClassHasImages | vision/datasets/open_images.py:39-49 | every vocabulary class labels some grouped image |
| OpenImages.BalancingKeepsEveryClass | vision/datasets/open_images.py:39-91 | from annotations, `min_image_num >= 1` and at most every class's image count, and each class keeps an image after balancing |
| Milestones.Split | train_ssd.py:414 | `str.split(",")` yields at least one piece, and no piece contains the separator |
| Milestones.SplitJoin | train_ssd.py:414 | splitting a join of separator-free pieces gives the pieces back |
| Milestones.JoinSplit | train_ssd.py:414 | joining the pieces of a split gives the string back |
| Milestones.TrimLeft | train_ssd.py:414 | `strip` removes a leading whitespace run and keeps a suffix |
| Milestones.TrimRight | train_ssd.py:414 | `strip` removes a trailing whitespace run and keeps a prefix |
| Milestones.Strip | train_ssd.py:414 | `str.strip()` is no longer than its input, neither starts nor ends with whitespace, and is empty exactly when the input is all whitespace |
| Milestones.ParseIntAccepts | train_ssd.py:414 | `int()` accepts exactly an optional sign followed by digits with single underscores between digits |
| Milestones.ParseIntToString | train_ssd.py:414 | `int(str(n)) == n` for every integer |
| Milestones.ParseInt | train_ssd.py:414 | `int()` refuses the empty string and any whitespace, and a negative result needs a leading `-` |
| Milestones.StripIntToString | train_ssd.py:414 | `str(n)` is unchanged by `strip` |
| Milestones.Collect | train_ssd.py:414 | the list comprehension fails at its first refused piece |
| Milestones.CollectMeaning | train_ssd.py:414 | succeeds exactly when every piece parses, with the values in order; otherwise names the first refused piece |
| Milestones.PieceResults | train_ssd.py:414 | one result per piece |
| Milestones.ParseMilestones | train_ssd.py:414 | one milestone per comma-separated piece, or a `ValueError` naming a piece `int()` refuses |
| Milestones.ParseMilestonesMeaning | train_ssd.py:414 | the milestone list is the stripped pieces' integers in order, or the error names the first piece `int()` refuses |
| Milestones.ParseFormatMilestones | train_ssd.py:414 | parsing a comma-joined list of integers gives the list back |
| Milestones.EmptyMilestonesRefused | train_ssd.py:414 | an empty `--milestones` is refused |
| Milestones.DefaultMilestones | train_ssd.py:414 | the default `"80,100"` parses to `[80, 100]` |
| TrainConfig.SelectNet | train_ssd.py:225-243 | the five accepted names select their architecture; any other name exits |
| TrainConfig.MobileNetsShareConfig | train_ssd.py:228-239 | every MobileNet variant, the second version included, uses the first version's configuration; only the second reads the width multiplier |
| TrainConfig.HelpTextNameRejected | train_ssd.py:42-243 | `mb1-lite-ssd`, offered by the help text, exits |
| TrainConfig.GroupLrs | train_ssd.py:310-363 | SGD gives every group without an `lr` the default `args.lr`; a plain chain becomes one group |
| TrainConfig.SelectParams | train_ssd.py:310-342 | `--freeze-net` leaves a plain chain of the heads; there are three groups exactly when nothing is frozen; the heads are always the last group, at SGD's default rate |
| TrainConfig.OptimizerHoldsUnfrozenBlocks | train_ssd.py:310-342 | the optimizer holds exactly the unfrozen blocks, each once; `--freeze-base-net` is tested before `--freeze-net` |
| TrainConfig.BlockLearningRates | train_ssd.py:307-363 | frozen blocks do not train; the base net trains at `base_net_lr`, the add-ons and extras at `extra_layers_lr` (each falling back to `lr`), the heads at `lr` |
| TrainConfig.CurrentLr | train_ssd.py:119-121 | `get_current_lr` is the first group's rate, `None` without groups |
| TrainConfig.ReportedLrIsBaseNetLr | train_ssd.py:119-121 | without freezing, the learning rate reported is the base net's, not `lr` |
| TrainConfig.LoggedLrs | train_ssd.py:405-409 | the log line succeeds exactly with at least three groups |
| TrainConfig.LoggedLrsFailWhenFrozen | train_ssd.py:310-409 | it raises exactly when a freeze flag is set; otherwise it logs `lr`, the base net's and the extra layers' rates |
| TrainConfig.InitSource | train_ssd.py:346-354 | the weights come from the first set source among resume, base net and pretrained SSD, and no source is used only when none is set |
| TrainConfig.SelectScheduler | train_ssd.py:412-428 | an unknown name exits; otherwise the failure can only be a bad milestone |
| TrainConfig.SchedulerIgnoresGammaAndFactor | train_ssd.py:412-423 | `--gamma` and `--reduction-factor` do not affect the scheduler; multi-step uses 0.1 and the parsed milestones; reduce-on-plateau ignores the resumed epoch |
| TrainConfig.Range | train_ssd.py:433 | `range(lo, hi)` lists `lo + i` for `hi - lo` entries, none when `hi <= lo` |
| TrainConfig.EpochRange | train_ssd.py:303-433 | a fresh run starts at 0 and spans `num_epochs + 1` epochs; a resumed run starts after the stored epoch and spans `num_epochs` |
| TrainConfig.EpochsRun | train_ssd.py:303-433 | a fresh run executes epochs 0 to `num_epochs` (one more than asked); one resumed at r executes `r+1` to `num_epochs + r` |
| TrainConfig.PyMod | train_ssd.py:153 | Python's `%` takes the sign of the divisor |
| TrainConfig.PyModZero | train_ssd.py:153 | `a % b == 0` exactly when `b` divides `a` |
| TrainConfig.Due | train_ssd.py:439-456 | a zero interval raises `ZeroDivisionError` |
| TrainConfig.DueMeaning | train_ssd.py:439-456 | due exactly when the interval divides the epoch or it is `num_epochs - 1` |
| TrainConfig.FinalEpochMissed | train_ssd.py:433-456 | with 30 epochs and validation and checkpoints every 4, the last epoch (30) runs and is neither validated nor saved; under the default intervals of 1 it is both |
| TrainConfig.PlanRun | train_ssd.py:225-428 | an unknown net exits first; with a known net, a freeze flag stops the script before any scheduler; a started run has three groups and a known scheduler |
| TrainConfig.DefaultPlan | train_ssd.py:42-105 | the defaults give MobileNet-V1 SSD from the pretrained weights, rates 0.001/0.01/0.01, cosine annealing over 100, epochs 0 to 30 |
| EpochRunner.SumIsConsistent | train_ssd.py:146-149 | a summed total is the sum of its two terms |
| EpochRunner.SumOfConcat | train_ssd.py:146-156 | summing is additive over consecutive batches |
| EpochRunner.IsLogStep | train_ssd.py:153 | step 0 never logs, as the modulo is not evaluated there; a zero `debug_steps` raises on every later step and nowhere else |
| EpochRunner.WindowStart | train_ssd.py:146-165 | the running window starts at or before the current step |
| EpochRunner.TrainResult | train_ssd.py:123-178 | `train` raises exactly for an empty loader or a zero `debug_steps` with two batches or more |
| EpochRunner.Train | train_ssd.py:123-178 | returns the epoch sums divided by the batch count and writes a debug line for each reset step, averaging its window over `debug_steps` |
| EpochRunner.ResetsMeaning | train_ssd.py:153 | a step resets exactly when it is not step 0 and `debug_steps` divides it |
| EpochRunner.NoResetInsideWindow | train_ssd.py:146-165 | the window start moves only at reset steps |
| EpochRunner.WindowSizes | train_ssd.py:146-165 | with `debug_steps = d > 0`, the first debug line comes at step d and averages the d+1 batches 0..d; every later one averages the last d batches |
| EpochRunner.LogsAtResetSteps | train_ssd.py:153-165 | debug lines come exactly at the reset steps, in step order |
| EpochRunner.LogAverage | train_ssd.py:154-156 | each debug line is its window's sum divided by `debug_steps` |
| EpochRunner.TestResult | train_ssd.py:180-201 | `test` raises exactly for an empty loader |
| EpochRunner.Test | train_ssd.py:180-201 | returns every sum divided by the number of batches |
| EpochRunner.TestOfConstantBatches | train_ssd.py:180-201 | batches of equal losses average to those losses |
| TrainingLoop.LastReported | train_ssd.py:439-454 | finds the latest validated epoch, with no later one validated |
| TrainingLoop.StepEpoch | train_ssd.py:434-461 | one pass appends the record of its epoch and keeps the earlier ones; the unbound `model_path` is hit only before any validation named one |
| TrainingLoop.RunUpTo | train_ssd.py:433-461 | a run that finishes leaves one record per epoch of the range |
| TrainingLoop.RunEpoch | train_ssd.py:434-461 | one pass of the loop body: train, validate and report when due, save when due, step the scheduler |
| TrainingLoop.RunEpochs | train_ssd.py:433-461 | the loop over the epoch range, stopping at the first error |
| TrainingLoop.FailureSticks | train_ssd.py:433 | an error ends the run |
| TrainingLoop.RecordsFollowEpochs | train_ssd.py:433 | one record per epoch of the range, in order |
| TrainingLoop.RunPrefix | train_ssd.py:433 | a finished run passed through every earlier epoch with a prefix of its records |
| TrainingLoop.ModelPathIsLastValidation | train_ssd.py:439-454 | `model_path` is always the path of the latest validation |
| TrainingLoop.StepEpochFits | train_ssd.py:434-461 | the record one pass appends matches its epoch's schedule |
| TrainingLoop.EpochRecordMeaning | train_ssd.py:434-461 | a report row is written exactly on validation epochs and holds the first group's rate; the scheduler receives the validation loss, or 0 otherwise; a checkpoint is saved exactly on checkpoint epochs, under the latest validation's path |
| TrainingLoop.ValidatedStartNeverUnbound | train_ssd.py:439-458 | a run whose first epoch validates never saves before a path exists |
| TrainingLoop.FreshRunNeverUnbound | train_ssd.py:433-458 | a fresh run with a nonzero validation interval never raises `NameError` |
| TrainingLoop.ResumedRunUnbound | train_ssd.py:433-458 | resuming at 5 with validation every 4 and checkpoints every 2 raises `NameError` at epoch 6 |

## Left out

- **`_read_image`**: cv2 decoding and colour conversion. It is the function parameter `readImage`.
- **pandas CSV reading**: the rows are the input sequence.
- **The annotation file path**: the root directory and `dataset_type` only name that file.
- **pandas `groupby` ordering**: taken as the parameter `groupKeys`. Its sortedness is not modelled.
- **`np.random.choice` and set iteration order**: the draws are a parameter, and lists of sets are ascending.
- **The text of `__repr__`**: the summary is returned as a datatype, not as a formatted string.
- **The string form of the checkpoint file name**: the start time, folder, net name and float formatting are reduced to the epoch and validation loss it records.
- **Torch internals**: network construction, `MultiboxLoss`, SGD updates, `backward`, device moves, `DataLoader` and `ConcatDataset`.
- **The schedulers' own learning-rate arithmetic**: the group rates at each epoch come from `Feeds`.
- **Torch's handling of an optimizer state with a different group count**: modelled as `GroupCountMismatch`.
- **Torch's need for a stored `initial_lr` when a scheduler resumes**: not modelled.
- **The dataset-type dispatch, the VOC dataset, label-file writing and the data transforms**: not modelled.
- **argparse, logging, the timer, CUDA detection, `print`, and report and checkpoint file writes**: not modelled. Report rows and checkpoints are returned as values.
- **Floating point**: losses, learning rates and box coordinates (cast to float32 when the rows are read) are exact reals.
- **`int()` on non-ASCII digits**: not modelled. Digits are the ASCII `0`–`9`.
- **The balancing claim "after balancing, no class is in more images than the minimum"**: the code does not keep it. An image drawn for one class may also contain another class, which then appears in more images. The claim is therefore not stated.
- OpenImages.OpenImagesDataset.GetItem: the transforms receive the stored `boxes` and `labels` arrays themselves, not copies. A transform that changes them in place would change the stored records for every later `__getitem__`. The model's transforms are pure functions and `data` is constant, so this aliasing is not captured.
- EpochRunner.WindowSizes: stated for a positive `debug_steps` only. For a negative one the windows are the same as for its absolute value, but that is not proved.
