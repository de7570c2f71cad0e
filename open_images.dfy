/**
 * The Open Images dataset object (`OpenImagesDataset`): it reads and groups the
 * annotations, optionally balances them, serves samples through two injected
 * transforms, and caches per-class label counts for its summary.
 */
module OpenImages {
  import opened Wrappers
  import opened AnnotationIndex
  import opened ClassBalancer

  /** A decoded RGB image; decoding image files is not part of this model. */
  datatype Image = Image(pixels: seq<int>)

  /** What `__getitem__` returns: an image with its boxes and labels. */
  datatype Sample = Sample(image: Image, boxes: seq<Box>, labels: seq<int>)

  /** What the target transform returns: the boxes and labels encoded for the loss. */
  datatype Targets = Targets(boxes: seq<Box>, labels: seq<int>)

  /** `__getitem__` raises `IndexError` for an index outside the list. */
  datatype IndexError = IndexOutOfRange

  /** The summary `__repr__` prints: image count, balancing minimum, label distribution. */
  datatype Summary = Summary(numImages: nat, minImageNum: int, distribution: seq<(string, nat)>)

  /** The number of boxes labelled `c` over all records. */
  function LabelCount(data: seq<ImageRecord>, c: int): nat
  {
    if data == [] then 0 else Occurrences(data[0].labels, c) + LabelCount(data[1..], c)
  }

  /** `class_stat`: for every class name, the number of boxes with its label. */
  function ClassStat(data: seq<ImageRecord>, names: seq<string>): (stat: map<string, nat>)
    requires NoDup(names)
    ensures forall name :: name in stat <==> name in names
    ensures forall k :: 0 <= k < |names| ==> stat[names[k]] == LabelCount(data, k + 1)
  {
    map k | 0 <= k < |names| :: names[k] := LabelCount(data, k + 1)
  }

  /** The label counts of the classes 1..n added up. */
  function CountsUpTo(data: seq<ImageRecord>, n: nat): nat
  {
    if n == 0 then 0 else CountsUpTo(data, n - 1) + LabelCount(data, n)
  }

  /** Python's `s[i]`: a negative index counts from the end. */
  function ListIndex(len: nat, index: int): (r: Option<nat>)
    ensures r.Some? <==> -(len as int) <= index < len
    ensures r.Some? ==> r.value < len && r.value as int == (if index < 0 then index + len else index)
  {
    if 0 <= index < len then Some(index)
    else if -(len as int) <= index < 0 then Some((index + len) as nat)
    else None
  }

  /** What `__init__` leaves in the dataset's fields, for given annotations. */
  ghost predicate Loaded(rows: seq<Row>, groupKeys: seq<string>, draws: seq<seq<int>>,
                         balanceData: bool, data: seq<ImageRecord>, classNames: seq<string>,
                         classDict: map<string, int>, minImageNum: int)
  {
    && IsGroupOrder(rows, groupKeys)
    && classNames == Vocabulary(rows)
    && classDict == ClassDict(classNames)
    && (if balanceData then
          && DrawsFit(Grouped(rows, groupKeys), |classNames|, draws)
          && minImageNum == MinImageNum(Grouped(rows, groupKeys), |classNames|)
          && data == BalancedRecords(Grouped(rows, groupKeys), draws)
        else
          && data == Grouped(rows, groupKeys)
          && minImageNum == -1)
  }

  /** The records of a loaded dataset are well formed over its vocabulary, and none occurs twice. */
  lemma LoadedIsWellFormed(rows: seq<Row>, groupKeys: seq<string>, draws: seq<seq<int>>,
                           balanceData: bool, data: seq<ImageRecord>, classNames: seq<string>,
                           classDict: map<string, int>, minImageNum: int)
    requires Loaded(rows, groupKeys, draws, balanceData, data, classNames, classDict, minImageNum)
    ensures NoDup(classNames) && WellFormed(data, |classNames|)
    ensures NoDup(data)
  {
    GroupedFacts(rows, groupKeys);
    if balanceData {
      BalancedIsSubset(Grouped(rows, groupKeys), |classNames|, draws);
      BalancedIsWellFormed(Grouped(rows, groupKeys), |classNames|, draws);
    }
  }

  class OpenImagesDataset {
    /** The annotation rows, the group order pandas visited, and the balancing draws. */
    ghost const rows: seq<Row>
    ghost const groupKeys: seq<string>
    ghost const draws: seq<seq<int>>

    const transform: Option<(Image, seq<Box>, seq<int>) -> Sample>
    const targetTransform: Option<(seq<Box>, seq<int>) -> Targets>
    const balanceData: bool
    const data: seq<ImageRecord>
    const classNames: seq<string>
    const classDict: map<string, int>
    const minImageNum: int
    var classStat: Option<map<string, nat>>

    /** The fields `__init__` set, as functions of the annotations; `class_stat` is a cache of them. */
    ghost predicate Valid()
      reads this
    {
      && Loaded(rows, groupKeys, draws, balanceData, data, classNames, classDict, minImageNum)
      && (classStat.Some? ==> classStat.value == ClassStat(data, classNames))
    }

    /** Field initialisation of `__init__`, given what `_read_data` and `_balance_data` produced. */
    constructor (rows: seq<Row>, groupKeys: seq<string>, draws: seq<seq<int>>,
                 transform: Option<(Image, seq<Box>, seq<int>) -> Sample>,
                 targetTransform: Option<(seq<Box>, seq<int>) -> Targets>,
                 balanceData: bool, data: seq<ImageRecord>, minImageNum: int)
      requires IsGroupOrder(rows, groupKeys)
      requires balanceData ==> DrawsFit(Grouped(rows, groupKeys), |Vocabulary(rows)|, draws)
      requires balanceData ==> minImageNum == MinImageNum(Grouped(rows, groupKeys), |Vocabulary(rows)|)
      requires balanceData ==> data == BalancedRecords(Grouped(rows, groupKeys), draws)
      requires !balanceData ==> data == Grouped(rows, groupKeys) && minImageNum == -1
      ensures Valid() && classStat.None?
      ensures this.rows == rows && this.groupKeys == groupKeys && this.draws == draws
      ensures this.transform == transform && this.targetTransform == targetTransform
      ensures this.balanceData == balanceData && this.data == data && this.minImageNum == minImageNum
    {
      this.rows, this.groupKeys, this.draws := rows, groupKeys, draws;
      this.transform, this.targetTransform := transform, targetTransform;
      this.balanceData := balanceData;
      this.data := data;
      this.classNames := Vocabulary(rows);
      this.classDict := ClassDict(Vocabulary(rows));
      this.minImageNum := minImageNum;
      this.classStat := None;
    }

    /**
     * `__init__`: read and group the annotations; when balancing is asked for, replace
     * the records by the balanced ones and record `min_image_num`, which is -1 otherwise.
     * Balancing an empty vocabulary raises, as `min` of nothing does.
     */
    static method Open(rows: seq<Row>, groupKeys: seq<string>,
                       transform: Option<(Image, seq<Box>, seq<int>) -> Sample>,
                       targetTransform: Option<(seq<Box>, seq<int>) -> Targets>,
                       balanceData: bool, draws: seq<seq<int>>)
      returns (r: Result<OpenImagesDataset, BalanceError>)
      requires IsGroupOrder(rows, groupKeys)
      requires balanceData && Vocabulary(rows) != [] ==>
        DrawsFit(Grouped(rows, groupKeys), |Vocabulary(rows)|, draws)
      ensures r.Failure? <==> balanceData && Vocabulary(rows) == []
      ensures r.Success? ==> fresh(r.value) && r.value.Valid() && r.value.classStat.None?
      ensures r.Success? ==> r.value.rows == rows && r.value.groupKeys == groupKeys && r.value.draws == draws
      ensures r.Success? ==> r.value.balanceData == balanceData
      ensures r.Success? ==> r.value.transform == transform && r.value.targetTransform == targetTransform
      ensures r.Success? && !balanceData ==> r.value.data == Grouped(rows, groupKeys) && r.value.minImageNum == -1
      ensures r.Success? && balanceData ==>
        && r.value.data == BalancedRecords(Grouped(rows, groupKeys), draws)
        && r.value.minImageNum == MinImageNum(Grouped(rows, groupKeys), |Vocabulary(rows)|)
    {
      var data, classNames, classDict := ReadData(rows, groupKeys);
      var minImageNum := -1;
      if balanceData {
        var balanced := BalanceData(data, |classNames|, draws);
        if balanced.Failure? {
          return Failure(balanced.error);
        }
        data, minImageNum := balanced.value.sample, balanced.value.minImageNum;
      }
      var dataset := new OpenImagesDataset(rows, groupKeys, draws, transform, targetTransform,
                                           balanceData, data, minImageNum);
      r := Success(dataset);
    }

    /**
     * `__len__`: without balancing, one entry per distinct ImageID of the annotations;
     * with balancing, no more entries than that and no more than `N * min_image_num`.
     */
    function Length(): (n: nat)
      reads this
      requires Valid()
      ensures !balanceData ==> n == |groupKeys|
      ensures balanceData ==> n <= |groupKeys| && n <= |classNames| * minImageNum
    {
      GroupedFacts(rows, groupKeys);
      if balanceData then
        BalancedIsSubset(Grouped(rows, groupKeys), |classNames|, draws);
        |data|
      else |data|
    }

    /**
     * `__getitem__`: the record at `index` (negative indexes count from the end), its
     * image read by `readImage`, then `transform`, then `target_transform`, each only
     * when configured.
     */
    function GetItem(index: int, readImage: string -> Image): (r: Result<Sample, IndexError>)
      reads this
      ensures r.Success? <==> -|data| <= index < |data|
      ensures r.Success? && transform.None? && targetTransform.None? ==>
        var record := data[ListIndex(|data|, index).value];
        r.value == Sample(readImage(record.imageId), record.boxes, record.labels)
      ensures r.Success? && transform.Some? && targetTransform.Some? ==>
        var record := data[ListIndex(|data|, index).value];
        var augmented := transform.value(readImage(record.imageId), record.boxes, record.labels);
        var targets := targetTransform.value(augmented.boxes, augmented.labels);
        r.value == Sample(augmented.image, targets.boxes, targets.labels)
      ensures r.Success? && transform.Some? && targetTransform.None? ==>
        var record := data[ListIndex(|data|, index).value];
        r.value == transform.value(readImage(record.imageId), record.boxes, record.labels)
      ensures r.Success? && transform.None? && targetTransform.Some? ==>
        var record := data[ListIndex(|data|, index).value];
        var targets := targetTransform.value(record.boxes, record.labels);
        r.value == Sample(readImage(record.imageId), targets.boxes, targets.labels)
    {
      match ListIndex(|data|, index)
      case None => Failure(IndexOutOfRange)
      case Some(i) =>
        var record := data[i];
        var sample := Sample(readImage(record.imageId), record.boxes, record.labels);
        var augmented := if transform.Some? then transform.value(sample.image, sample.boxes, sample.labels) else sample;
        var encoded := if targetTransform.Some? then
          var targets := targetTransform.value(augmented.boxes, augmented.labels);
          Sample(augmented.image, targets.boxes, targets.labels)
        else augmented;
        Success(encoded)
    }

    /**
     * `__repr__`: compute `class_stat` on first use and keep it, then report the image
     * count, `min_image_num` and the label count of every class in vocabulary order.
     */
    method Describe() returns (summary: Summary)
      requires Valid()
      modifies this`classStat
      ensures Valid()
      ensures classStat == Some(ClassStat(data, classNames))
      ensures old(classStat).Some? ==> classStat == old(classStat)
      ensures summary.numImages == |data| && summary.minImageNum == minImageNum
      ensures |summary.distribution| == |classNames|
      ensures forall k :: 0 <= k < |classNames| ==>
        summary.distribution[k] == (classNames[k], LabelCount(data, k + 1))
    {
      if classStat.None? {
        LoadedIsWellFormed(rows, groupKeys, draws, balanceData, data, classNames, classDict, minImageNum);
        var stat := CountLabels(data, classNames);
        classStat := Some(stat);
      }
      var stat := classStat.value;
      summary := Summary(|data|, minImageNum,
        seq(|classNames|, k requires 0 <= k < |classNames| => (classNames[k], stat[classNames[k]])));
    }

  }

  /** The loop of `__repr__` that fills `class_stat`, one box label at a time. */
  method CountLabels(data: seq<ImageRecord>, names: seq<string>) returns (stat: map<string, nat>)
    requires NoDup(names) && WellFormed(data, |names|)
    ensures stat == ClassStat(data, names)
  {
    stat := map k | 0 <= k < |names| :: names[k] := 0;
    for i := 0 to |data|
      invariant forall name :: name in stat <==> name in names
      invariant forall k :: 0 <= k < |names| ==> stat[names[k]] == LabelCount(data[..i], k + 1)
    {
      stat := AddLabels(stat, names, data[i].labels);
      assert data[..i + 1] == data[..i] + [data[i]];
      forall k | 0 <= k < |names|
        ensures stat[names[k]] == LabelCount(data[..i + 1], k + 1)
      {
        LabelCountOfSnoc(data[..i], data[i], k + 1);
      }
    }
    assert data[..|data|] == data;
    forall name | name in stat
      ensures stat[name] == ClassStat(data, names)[name]
    {
      var k := FirstIndex(names, name);
    }
  }

  /** The inner loop of `CountLabels`: one image's labels added to the counts. */
  method AddLabels(stat0: map<string, nat>, names: seq<string>, labels: seq<int>)
    returns (stat: map<string, nat>)
    requires NoDup(names)
    requires forall name :: name in stat0 <==> name in names
    requires forall j :: 0 <= j < |labels| ==> 1 <= labels[j] <= |names|
    ensures forall name :: name in stat <==> name in names
    ensures forall k :: 0 <= k < |names| ==> stat[names[k]] == stat0[names[k]] + Occurrences(labels, k + 1)
  {
    stat := stat0;
    assert forall c :: Occurrences(labels[..0], c) == 0;
    for j := 0 to |labels|
      invariant forall name :: name in stat <==> name in names
      invariant forall k :: 0 <= k < |names| ==> stat[names[k]] == stat0[names[k]] + Occurrences(labels[..j], k + 1)
    {
      assert labels[..j + 1] == labels[..j] + [labels[j]];
      var name := names[labels[j] - 1];
      stat := stat[name := stat[name] + 1];
      forall k | 0 <= k < |names|
        ensures stat[names[k]] == stat0[names[k]] + Occurrences(labels[..j + 1], k + 1)
      {
        OccurrencesOfSnoc(labels[..j], labels[j], k + 1);
        if k != labels[j] - 1 {
          assert names[k] != name;
        }
      }
    }
    assert labels[..|labels|] == labels;
  }

  lemma {:induction false} OccurrencesOfSnoc<T>(s: seq<T>, x: T, c: T)
    ensures Occurrences(s + [x], c) == Occurrences(s, c) + (if x == c then 1 else 0)
  {
    if s != [] {
      assert (s + [x])[1..] == s[1..] + [x];
      OccurrencesOfSnoc(s[1..], x, c);
    }
  }

  lemma {:induction false} LabelCountOfSnoc(data: seq<ImageRecord>, record: ImageRecord, c: int)
    ensures LabelCount(data + [record], c) == LabelCount(data, c) + Occurrences(record.labels, c)
  {
    if data != [] {
      assert (data + [record])[1..] == data[1..] + [record];
      LabelCountOfSnoc(data[1..], record, c);
    }
  }

  /** The labels in `s` that fall in one of the classes 1..n. */
  function LabelsUpTo(s: seq<int>, n: nat): nat
  {
    if n == 0 then 0 else LabelsUpTo(s, n - 1) + Occurrences(s, n)
  }

  lemma {:induction false} LabelsUpToOfTail(s: seq<int>, n: nat)
    requires s != []
    ensures LabelsUpTo(s, n) == LabelsUpTo(s[1..], n) + (if 1 <= s[0] <= n then 1 else 0)
  {
    if n > 0 {
      LabelsUpToOfTail(s, n - 1);
    }
  }

  /** Counted over all classes, every in-range label is counted once. */
  lemma {:induction false} LabelsUpToAll(s: seq<int>, n: nat)
    requires forall j :: 0 <= j < |s| ==> 1 <= s[j] <= n
    ensures LabelsUpTo(s, n) == |s|
  {
    if s == [] {
      LabelsOfEmpty(n);
    } else {
      LabelsUpToOfTail(s, n);
      LabelsUpToAll(s[1..], n);
    }
  }

  lemma {:induction false} LabelsOfEmpty(n: nat)
    ensures LabelsUpTo([], n) == 0
  {
    if n > 0 {
      LabelsOfEmpty(n - 1);
    }
  }

  lemma {:induction false} CountsOfEmpty(n: nat)
    ensures CountsUpTo([], n) == 0
  {
    if n > 0 {
      CountsOfEmpty(n - 1);
    }
  }

  lemma {:induction false} CountsUpToOfTail(data: seq<ImageRecord>, n: nat)
    requires data != []
    ensures CountsUpTo(data, n) == LabelsUpTo(data[0].labels, n) + CountsUpTo(data[1..], n)
  {
    if n > 0 {
      CountsUpToOfTail(data, n - 1);
    }
  }

  /**
   * The per-class counts of `class_stat` add up to the number of labels: no label is
   * missed and none is counted twice.
   */
  lemma {:induction false} CountsAddUp(data: seq<ImageRecord>, n: nat)
    requires WellFormed(data, n)
    ensures CountsUpTo(data, n) == TotalLabels(data)
  {
    if data == [] {
      CountsOfEmpty(n);
    } else {
      CountsUpToOfTail(data, n);
      LabelsUpToAll(data[0].labels, n);
      assert forall k :: 0 <= k < |data[1..]| ==> data[1..][k] == data[k + 1];
      CountsAddUp(data[1..], n);
    }
  }

  /** Without balancing, the class counts of the summary add up to the annotation rows. */
  lemma UnbalancedCountsEveryRow(rows: seq<Row>, groupKeys: seq<string>)
    requires IsGroupOrder(rows, groupKeys)
    ensures CountsUpTo(Grouped(rows, groupKeys), |Vocabulary(rows)|) == |rows|
  {
    GroupedFacts(rows, groupKeys);
    CountsAddUp(Grouped(rows, groupKeys), |Vocabulary(rows)|);
  }

  /** Every class of the vocabulary labels at least one grouped image. */
  lemma EveryClassHasImages(rows: seq<Row>, groupKeys: seq<string>)
    requires IsGroupOrder(rows, groupKeys)
    ensures forall c :: 1 <= c <= |Vocabulary(rows)| ==> ImagesWith(Grouped(rows, groupKeys), c) != {}
  {
    forall c | 1 <= c <= |Vocabulary(rows)|
      ensures ImagesWith(Grouped(rows, groupKeys), c) != {}
    {
      var k := EveryClassHasAnImage(rows, groupKeys, c);
      assert k in ImagesWith(Grouped(rows, groupKeys), c);
    }
  }

  /**
   * Balancing a dataset read from annotations: every class has at least one image, so
   * `min_image_num` is at least 1, at most the image count of every class, and every
   * class keeps at least one image after balancing.
   */
  lemma BalancingKeepsEveryClass(rows: seq<Row>, groupKeys: seq<string>, draws: seq<seq<int>>, c: int)
    requires IsGroupOrder(rows, groupKeys)
    requires DrawsFit(Grouped(rows, groupKeys), |Vocabulary(rows)|, draws)
    requires 1 <= c <= |Vocabulary(rows)|
    ensures MinImageNum(Grouped(rows, groupKeys), |Vocabulary(rows)|) >= 1
    ensures MinImageNum(Grouped(rows, groupKeys), |Vocabulary(rows)|) <= |ImagesWith(Grouped(rows, groupKeys), c)|
    ensures DrawsInRange(Grouped(rows, groupKeys), draws)
    ensures exists i ::
      0 <= i < |BalancedRecords(Grouped(rows, groupKeys), draws)| &&
      c in BalancedRecords(Grouped(rows, groupKeys), draws)[i].labels
  {
    var data := Grouped(rows, groupKeys);
    var n := |Vocabulary(rows)|;
    EveryClassHasImages(rows, groupKeys);
    MinImageNumIsSmallestClass(data, n);
    EveryClassRepresented(data, n, draws, c);
  }
}
