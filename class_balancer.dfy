/**
 * The class balancer of the Open Images dataset (`OpenImagesDataset._balance_data`):
 * every class draws, with replacement, as many images as the rarest class has, and the
 * balanced dataset is the union of the drawn images.
 */
module ClassBalancer {
  import opened Wrappers
  import opened AnnotationIndex

  /** Indexes below `n` of the records that hold a box of class `c`. */
  function ImagesWithUpTo(data: seq<ImageRecord>, c: int, n: nat): set<nat>
    requires n <= |data|
  {
    set i: nat | i < n && c in data[i].labels
  }

  /** `label_image_indexes[c]`: the indexes of the records that hold a box of class `c`. */
  function ImagesWith(data: seq<ImageRecord>, c: int): set<nat>
  {
    ImagesWithUpTo(data, c, |data|)
  }

  /**
   * `list(s)` for a set of record indexes, taken in ascending order (the iteration
   * order of a Python set is unspecified).
   */
  function Ascending(s: set<nat>, n: nat): (q: seq<nat>)
    ensures forall x :: x in q <==> x in s && x < n
    ensures forall i :: 0 <= i < |q| ==> q[i] < n
    ensures forall i, j :: 0 <= i < j < |q| ==> q[i] < q[j]
    ensures |q| <= n
  {
    if n == 0 then [] else Ascending(s, n - 1) + (if n - 1 in s then [n - 1] else [])
  }

  /** `label_stat`: the number of images per label, slot 0 (background) included. */
  function LabelStat(data: seq<ImageRecord>, numClasses: nat): seq<nat>
  {
    seq(numClasses + 1, c requires 0 <= c <= numClasses => |ImagesWith(data, c)|)
  }

  /** Python's `min` of a non-empty sequence. */
  function SeqMin(s: seq<int>): (m: int)
    requires |s| > 0
    ensures m in s
    ensures forall i :: 0 <= i < |s| ==> m <= s[i]
  {
    if |s| == 1 then s[0]
    else
      var r := SeqMin(s[1..]);
      if s[0] <= r then s[0] else r
  }

  /** `min_image_num`: the smallest number of images of any class 1..N. */
  function MinImageNum(data: seq<ImageRecord>, numClasses: nat): (m: int)
    requires numClasses > 0
    ensures 0 <= m <= |data|
  {
    var stat := LabelStat(data, numClasses)[1..];
    forall k | 0 <= k < |stat| ensures stat[k] <= |data| {
      AscendingLength(ImagesWith(data, k + 1), |data|);
    }
    SeqMin(stat)
  }

  /**
   * The draws of `np.random.choice(len(image_indexes), min_image_num)`, one sequence per
   * class 1..N (class `k + 1` at position `k`): `min_image_num` positions each, each a
   * position in that class's image list.
   */
  predicate DrawsFit(data: seq<ImageRecord>, numClasses: nat, draws: seq<seq<int>>)
  {
    && numClasses > 0
    && |draws| == numClasses
    && forall k :: 0 <= k < numClasses ==>
      && |draws[k]| == MinImageNum(data, numClasses)
      && forall j :: 0 <= j < |draws[k]| ==> 0 <= draws[k][j] < |ImagesWith(data, k + 1)|
  }

  /** Every draw is a position in its class's image list. */
  predicate DrawsInRange(data: seq<ImageRecord>, draws: seq<seq<int>>)
  {
    forall k :: 0 <= k < |draws| ==>
      forall j :: 0 <= j < |draws[k]| ==> 0 <= draws[k][j] < |ImagesWith(data, k + 1)|
  }

  /** The elements of `list` at the drawn positions. */
  function Picked(list: seq<nat>, draws: seq<int>): set<nat>
    requires forall j :: 0 <= j < |draws| ==> 0 <= draws[j] < |list|
  {
    if draws == [] then {}
    else Picked(list, draws[..|draws| - 1]) + {list[draws[|draws| - 1]]}
  }

  /** The image list of class `k + 1` in the order the draws index it. */
  function ClassList(data: seq<ImageRecord>, k: nat): (q: seq<nat>)
    ensures |q| == |ImagesWith(data, k + 1)|
  {
    AscendingLength(ImagesWith(data, k + 1), |data|);
    Ascending(ImagesWith(data, k + 1), |data|)
  }

  /** The image lists of the classes 1..n. */
  function ClassLists(data: seq<ImageRecord>, n: nat): (lists: seq<seq<nat>>)
    ensures |lists| == n
    ensures forall k :: 0 <= k < n ==> lists[k] == ClassList(data, k)
  {
    seq(n, k requires 0 <= k < n => ClassList(data, k))
  }

  /** Every draw is a position in the list of its class. */
  predicate Indexes(lists: seq<seq<nat>>, draws: seq<seq<int>>)
  {
    && |lists| == |draws|
    && forall k :: 0 <= k < |draws| ==>
      forall j :: 0 <= j < |draws[k]| ==> 0 <= draws[k][j] < |lists[k]|
  }

  /** `sample_image_indexes` after the first `k` classes. */
  function UnionUpTo(lists: seq<seq<nat>>, draws: seq<seq<int>>, k: nat): set<nat>
    requires Indexes(lists, draws) && k <= |draws|
  {
    if k == 0 then {}
    else UnionUpTo(lists, draws, k - 1) + Picked(lists[k - 1], draws[k - 1])
  }

  /** The indexes of the balanced records. */
  function SampledIndexes(data: seq<ImageRecord>, draws: seq<seq<int>>): set<nat>
    requires DrawsInRange(data, draws)
  {
    ClassListsIndexed(data, draws);
    UnionUpTo(ClassLists(data, |draws|), draws, |draws|)
  }

  /** `sample_data`: the records at the sampled indexes, in ascending index order. */
  function BalancedRecords(data: seq<ImageRecord>, draws: seq<seq<int>>): (sample: seq<ImageRecord>)
    requires DrawsInRange(data, draws)
    ensures |sample| == |SampledIndexes(data, draws)|
    ensures forall i :: 0 <= i < |sample| ==> sample[i] in data
  {
    ClassListsIndexed(data, draws);
    UnionUpToInRange(ClassLists(data, |draws|), draws, |draws|, |data|);
    AscendingLength(SampledIndexes(data, draws), |data|);
    var order := Ascending(SampledIndexes(data, draws), |data|);
    seq(|order|, i requires 0 <= i < |order| => data[order[i]])
  }

  /** What `_balance_data` computes: `min_image_num` and the balanced records. */
  datatype Balanced = Balanced(minImageNum: int, sample: seq<ImageRecord>)

  /** `min(label_stat[1:])` raises `ValueError` when there are no classes. */
  datatype BalanceError = EmptyMinimum

  /**
   * `_balance_data`: the image sets of every label, their smallest size over the classes
   * 1..N, and the union of every class's drawn images.
   */
  method BalanceData(data: seq<ImageRecord>, numClasses: nat, draws: seq<seq<int>>)
    returns (r: Result<Balanced, BalanceError>)
    requires WellFormed(data, numClasses)
    requires numClasses > 0 ==> DrawsFit(data, numClasses, draws)
    ensures r.Failure? <==> numClasses == 0
    ensures r.Success? ==> DrawsInRange(data, draws)
    ensures r.Success? ==> r.value == Balanced(MinImageNum(data, numClasses), BalancedRecords(data, draws))
  {
    var sets := LabelImageIndexes(data, numClasses);
    var stat := seq(numClasses + 1, c requires 0 <= c <= numClasses => |sets[c]|);
    if numClasses == 0 {
      return Failure(EmptyMinimum);
    }
    assert stat == LabelStat(data, numClasses);
    var minImageNum := SeqMin(stat[1..]);
    var sample := SampleImageIndexes(data, sets, draws);
    var order := Ascending(sample, |data|);
    r := Success(Balanced(minImageNum, seq(|order|, i requires 0 <= i < |order| => data[order[i]])));
  }

  /** `label_image_indexes`: for every label 0..N, the indexes of the records that hold it. */
  method LabelImageIndexes(data: seq<ImageRecord>, numClasses: nat) returns (sets: seq<set<nat>>)
    requires WellFormed(data, numClasses)
    ensures |sets| == numClasses + 1
    ensures forall c :: 0 <= c <= numClasses ==> sets[c] == ImagesWith(data, c)
  {
    sets := seq(numClasses + 1, _ => {});
    for i := 0 to |data|
      invariant |sets| == numClasses + 1
      invariant forall c :: 0 <= c <= numClasses ==> sets[c] == ImagesWithUpTo(data, c, i)
    {
      var labels := data[i].labels;
      for j := 0 to |labels|
        invariant |sets| == numClasses + 1
        invariant forall c :: 0 <= c <= numClasses ==>
          sets[c] == ImagesWithUpTo(data, c, i) + (if c in labels[..j] then {i} else {})
      {
        assert labels[..j + 1] == labels[..j] + [labels[j]];
        sets := sets[labels[j] := sets[labels[j]] + {i}];
      }
      assert labels[..|labels|] == labels;
      ImagesWithUpToStep(data, i);
    }
  }

  /** `sample_image_indexes`: the union over the classes 1..N of the images each one draws. */
  method SampleImageIndexes(data: seq<ImageRecord>, sets: seq<set<nat>>, draws: seq<seq<int>>)
    returns (sample: set<nat>)
    requires |sets| == |draws| + 1
    requires forall c :: 1 <= c < |sets| ==> sets[c] == ImagesWith(data, c)
    requires DrawsInRange(data, draws)
    ensures sample == SampledIndexes(data, draws)
  {
    ghost var lists := ClassLists(data, |draws|);
    ClassListsIndexed(data, draws);
    sample := {};
    for k := 0 to |draws|
      invariant sample == UnionUpTo(lists, draws, k)
    {
      var imageIndexes := Ascending(sets[k + 1], |data|);
      assert imageIndexes == lists[k];
      sample := sample + Picked(imageIndexes, draws[k]);
    }
  }

  lemma ImagesWithUpToStep(data: seq<ImageRecord>, i: nat)
    requires i < |data|
    ensures forall c ::
      ImagesWithUpTo(data, c, i + 1) == ImagesWithUpTo(data, c, i) + (if c in data[i].labels then {i} else {})
  {
  }

  lemma AscendingLength(s: set<nat>, n: nat)
    requires forall x :: x in s ==> x < n
    ensures |Ascending(s, n)| == |s|
  {
    var q := Ascending(s, n);
    assert NoDup(q) by {
      forall i, j | 0 <= i < j < |q| ensures q[i] != q[j] { }
    }
    NoDupCardinality(q);
    var elements := set x | x in q;
    assert elements <= s;
    assert s <= elements by {
      forall x | x in s ensures x in elements {
        assert x in q;
      }
    }
    assert elements == s;
  }

  /**
   * `min_image_num` is the size of the smallest image set over the classes 1..N (slot 0,
   * the background, takes no part), and it is positive when every class has an image.
   */
  lemma MinImageNumIsSmallestClass(data: seq<ImageRecord>, numClasses: nat)
    requires numClasses > 0
    ensures forall c :: 1 <= c <= numClasses ==> MinImageNum(data, numClasses) <= |ImagesWith(data, c)|
    ensures exists c :: 1 <= c <= numClasses && MinImageNum(data, numClasses) == |ImagesWith(data, c)|
    ensures (forall c :: 1 <= c <= numClasses ==> ImagesWith(data, c) != {}) ==> MinImageNum(data, numClasses) >= 1
  {
    var stat := LabelStat(data, numClasses)[1..];
    forall c | 1 <= c <= numClasses ensures MinImageNum(data, numClasses) <= |ImagesWith(data, c)| {
      assert stat[c - 1] == |ImagesWith(data, c)|;
    }
    var k :| 0 <= k < |stat| && stat[k] == MinImageNum(data, numClasses);
    assert stat[k] == |ImagesWith(data, k + 1)|;
  }

  lemma {:induction false} PickedBounds(list: seq<nat>, draws: seq<int>)
    requires forall j :: 0 <= j < |draws| ==> 0 <= draws[j] < |list|
    ensures forall x :: x in Picked(list, draws) ==> x in list
    ensures |Picked(list, draws)| <= |draws|
    ensures |draws| > 0 ==> list[draws[0]] in Picked(list, draws)
  {
    if draws != [] {
      var prefix := draws[..|draws| - 1];
      PickedBounds(list, prefix);
      if |prefix| > 0 {
        assert prefix[0] == draws[0];
      }
    }
  }

  /** The class lists hold record indexes, and the draws index them. */
  lemma ClassListsIndexed(data: seq<ImageRecord>, draws: seq<seq<int>>)
    requires DrawsInRange(data, draws)
    ensures Indexes(ClassLists(data, |draws|), draws)
    ensures forall k, i :: 0 <= k < |draws| && 0 <= i < |ClassLists(data, |draws|)[k]| ==>
      ClassLists(data, |draws|)[k][i] < |data|
  {
  }

  /** The union only holds elements of the lists, here all below `n`. */
  lemma {:induction false} UnionUpToInRange(lists: seq<seq<nat>>, draws: seq<seq<int>>, k: nat, n: nat)
    requires Indexes(lists, draws) && k <= |draws|
    requires forall t, i :: 0 <= t < |lists| && 0 <= i < |lists[t]| ==> lists[t][i] < n
    ensures forall x :: x in UnionUpTo(lists, draws, k) ==> x < n
  {
    if k > 0 {
      UnionUpToInRange(lists, draws, k - 1, n);
      var list := lists[k - 1];
      var picked := Picked(list, draws[k - 1]);
      PickedBounds(list, draws[k - 1]);
      forall x | x in picked
        ensures x < n
      {
        var i :| 0 <= i < |list| && list[i] == x;
      }
    }
  }

  /** After `k` classes of at most `m` draws each, the union holds at most `k * m` indexes. */
  lemma {:induction false} UnionUpToSize(lists: seq<seq<nat>>, draws: seq<seq<int>>, k: nat, m: nat)
    requires Indexes(lists, draws) && k <= |draws|
    requires forall t :: 0 <= t < |draws| ==> |draws[t]| <= m
    ensures |UnionUpTo(lists, draws, k)| <= k * m
  {
    if k > 0 {
      UnionUpToSize(lists, draws, k - 1, m);
      var previous := UnionUpTo(lists, draws, k - 1);
      var picked := Picked(lists[k - 1], draws[k - 1]);
      PickedBounds(lists[k - 1], draws[k - 1]);
      UnionSize(previous, picked);
      MultiplyStep(k, m);
    }
  }

  /** What class `c` picks stays in the union of any later prefix of classes. */
  lemma {:induction false} UnionUpToContains(lists: seq<seq<nat>>, draws: seq<seq<int>>, c: nat, k: nat)
    requires Indexes(lists, draws)
    requires 1 <= c <= k <= |draws|
    ensures Picked(lists[c - 1], draws[c - 1]) <= UnionUpTo(lists, draws, k)
  {
    if c < k {
      UnionUpToContains(lists, draws, c, k - 1);
    }
  }

  lemma DrawsFitInRange(data: seq<ImageRecord>, numClasses: nat, draws: seq<seq<int>>)
    requires DrawsFit(data, numClasses, draws)
    ensures DrawsInRange(data, draws)
  {
  }

  lemma UnionSize<T>(a: set<T>, b: set<T>)
    ensures |a + b| <= |a| + |b|
  {
    assert |a + b| + |a * b| == |a| + |b|;
  }

  lemma MultiplyStep(k: nat, m: nat)
    requires k > 0
    ensures (k - 1) * m + m == k * m
  {
  }

  /** Balancing keeps records whole, so well-formed records stay well formed. */
  lemma BalancedIsWellFormed(data: seq<ImageRecord>, numClasses: nat, draws: seq<seq<int>>)
    requires DrawsInRange(data, draws) && WellFormed(data, numClasses)
    ensures WellFormed(BalancedRecords(data, draws), numClasses)
  {
    var balanced := BalancedRecords(data, draws);
    var order := Ascending(SampledIndexes(data, draws), |data|);
    forall i | 0 <= i < |balanced|
      ensures balanced[i] == data[order[i]]
    {
    }
  }

  /**
   * The balanced data is a selection of the original records in their original order:
   * no longer than the original, at most `N * min_image_num` long, and free of
   * duplicates when the original is.
   */
  lemma BalancedIsSubset(data: seq<ImageRecord>, numClasses: nat, draws: seq<seq<int>>)
    requires DrawsFit(data, numClasses, draws)
    ensures DrawsInRange(data, draws)
    ensures |BalancedRecords(data, draws)| <= |data|
    ensures |BalancedRecords(data, draws)| <= numClasses * MinImageNum(data, numClasses)
    ensures forall i :: 0 <= i < |BalancedRecords(data, draws)| ==> BalancedRecords(data, draws)[i] in data
    ensures NoDup(data) ==> NoDup(BalancedRecords(data, draws))
  {
    DrawsFitInRange(data, numClasses, draws);
    ClassListsIndexed(data, draws);
    var lists := ClassLists(data, |draws|);
    UnionUpToSize(lists, draws, numClasses, MinImageNum(data, numClasses));
    UnionUpToInRange(lists, draws, numClasses, |data|);
    var sample := SampledIndexes(data, draws);
    var order := Ascending(sample, |data|);
    AscendingLength(sample, |data|);
    var balanced := BalancedRecords(data, draws);
    if NoDup(data) {
      forall i, j | 0 <= i < j < |balanced| ensures balanced[i] != balanced[j] {
        assert order[i] < order[j];
      }
    }
  }

  /** With at least one draw per class, every class 1..N labels some balanced record. */
  lemma EveryClassRepresented(data: seq<ImageRecord>, numClasses: nat, draws: seq<seq<int>>, c: int)
    requires DrawsFit(data, numClasses, draws)
    requires MinImageNum(data, numClasses) >= 1
    requires 1 <= c <= numClasses
    ensures DrawsInRange(data, draws)
    ensures exists i :: 0 <= i < |BalancedRecords(data, draws)| && c in BalancedRecords(data, draws)[i].labels
  {
    var x := DrawnImageSampled(data, numClasses, draws, c);
    var sample := SampledIndexes(data, draws);
    var order := Ascending(sample, |data|);
    var i :| 0 <= i < |order| && order[i] == x;
    assert BalancedRecords(data, draws)[i] == data[x];
  }

  /** The first image class `c` draws is a record with label `c`, and it is in the sample. */
  lemma DrawnImageSampled(data: seq<ImageRecord>, numClasses: nat, draws: seq<seq<int>>, c: int) returns (x: nat)
    requires DrawsFit(data, numClasses, draws)
    requires MinImageNum(data, numClasses) >= 1
    requires 1 <= c <= numClasses
    ensures DrawsInRange(data, draws)
    ensures x < |data| && c in data[x].labels && x in SampledIndexes(data, draws)
  {
    DrawsFitInRange(data, numClasses, draws);
    ClassListsIndexed(data, draws);
    var lists := ClassLists(data, |draws|);
    var list := lists[c - 1];
    var choice := draws[c - 1];
    PickedBounds(list, choice);
    x := list[choice[0]];
    assert x in ImagesWith(data, c);
    UnionUpToContains(lists, draws, c, |draws|);
  }
}
