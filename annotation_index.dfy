/**
 * The annotation index of the Open Images dataset (`OpenImagesDataset._read_data`):
 * the annotation rows become a class vocabulary, numbered from 1 in order of first
 * appearance, and one record per image holding that image's boxes and labels.
 */
module AnnotationIndex {

  /** A bounding box `[XMin, YMin, XMax, YMax]` as read from the annotation file. */
  datatype Box = Box(xMin: real, yMin: real, xMax: real, yMax: real)

  /** One annotation row: one box of one class in one image. */
  datatype Row = Row(imageId: string, className: string, box: Box)

  /** One dataset entry: every box of one image, with its label, in row order. */
  datatype ImageRecord = ImageRecord(imageId: string, boxes: seq<Box>, labels: seq<int>)

  predicate NoDup<T(==)>(s: seq<T>)
  {
    forall i, j :: 0 <= i < j < |s| ==> s[i] != s[j]
  }

  /** The `ClassName` column. */
  function ClassColumn(rows: seq<Row>): seq<string>
  {
    seq(|rows|, i requires 0 <= i < |rows| => rows[i].className)
  }

  /** Position of the first occurrence of `x` in `s`. */
  function FirstIndex<T(==)>(s: seq<T>, x: T): (k: nat)
    requires x in s
    ensures k < |s| && s[k] == x && x !in s[..k]
    ensures forall t :: 0 <= t < k ==> s[t] != x
  {
    if s[0] == x then 0
    else
      var k := 1 + FirstIndex(s[1..], x);
      assert s[..k] == [s[0]] + s[1..][..k - 1];
      k
  }

  /** `Series.unique()`: the distinct values of `s`, each once, in order of first appearance. */
  function Unique(s: seq<string>): (u: seq<string>)
    ensures NoDup(u)
    ensures forall x :: x in u <==> x in s
    ensures |u| <= |s|
  {
    if s == [] then []
    else
      var p, x := s[..|s| - 1], s[|s| - 1];
      assert s == p + [x];
      var u0 := Unique(p);
      if x in u0 then u0 else u0 + [x]
  }

  /** The class vocabulary `class_names` of an annotation file. */
  function Vocabulary(rows: seq<Row>): (names: seq<string>)
    ensures NoDup(names) && |names| <= |rows|
    ensures forall x :: x in names ==> exists i :: 0 <= i < |rows| && rows[i].className == x
  {
    var column := ClassColumn(rows);
    assert forall i :: 0 <= i < |rows| ==> column[i] == rows[i].className;
    Unique(column)
  }

  /** `class_dict`: class name to label, labels numbered from 1 (0 is the background). */
  function ClassDict(names: seq<string>): (d: map<string, int>)
    requires NoDup(names)
    ensures forall name :: name in d <==> name in names
    ensures forall i :: 0 <= i < |names| ==> d[names[i]] == i + 1
  {
    map i | 0 <= i < |names| :: names[i] := i + 1
  }

  lemma FirstIndexIsUnique<T>(s: seq<T>, x: T, k: nat)
    requires k < |s| && s[k] == x && x !in s[..k]
    ensures FirstIndex(s, x) == k
  {
    assert forall t :: 0 <= t < k ==> s[..k][t] == s[t];
  }

  lemma FirstIndexOfExtension<T>(p: seq<T>, x: T, y: T)
    requires y in p
    ensures FirstIndex(p + [x], y) == FirstIndex(p, y)
  {
    var k := FirstIndex(p, y);
    assert (p + [x])[..k] == p[..k];
    FirstIndexIsUnique(p + [x], y, k);
  }

  /** The vocabulary lists the classes in the order in which they first appear in the rows. */
  lemma {:induction false} UniqueFollowsFirstAppearance(s: seq<string>, i: nat, j: nat)
    requires i < j < |Unique(s)|
    ensures FirstIndex(s, Unique(s)[i]) < FirstIndex(s, Unique(s)[j])
  {
    var p, x := s[..|s| - 1], s[|s| - 1];
    assert s == p + [x];
    var u0 := Unique(p);
    var u := Unique(s);
    if j < |u0| {
      assert u[i] == u0[i] && u[j] == u0[j];
      UniqueFollowsFirstAppearance(p, i, j);
      FirstIndexOfExtension(p, x, u[i]);
      FirstIndexOfExtension(p, x, u[j]);
    } else {
      assert x !in u0 && u == u0 + [x] && u[j] == x && u[i] == u0[i];
      assert s[..|p|] == p;
      FirstIndexIsUnique(s, x, |p|);
      FirstIndexOfExtension(p, x, u[i]);
    }
  }

  /** A duplicate-free sequence has as many distinct elements as it has elements. */
  lemma {:induction false} NoDupCardinality<T>(s: seq<T>)
    requires NoDup(s)
    ensures |set x | x in s| == |s|
  {
    if s != [] {
      var r := s[1..];
      assert NoDup(r);
      NoDupCardinality(r);
      assert (set x | x in s) == {s[0]} + (set x | x in r);
      assert s[0] !in (set x | x in r);
    }
  }

  /** Every row's class is in the vocabulary. */
  lemma VocabularyCoversRows(rows: seq<Row>)
    ensures forall i :: 0 <= i < |rows| ==> rows[i].className in Vocabulary(rows)
  {
    forall i | 0 <= i < |rows| ensures rows[i].className in Vocabulary(rows) {
      assert ClassColumn(rows)[i] == rows[i].className;
    }
  }

  /** Every row's class has a label in `dict`. */
  predicate Labelled(rows: seq<Row>, dict: map<string, int>)
  {
    forall i :: 0 <= i < |rows| ==> rows[i].className in dict
  }

  /** Every vocabulary class is the class of some row. */
  lemma VocabularyClassesOccur(rows: seq<Row>, name: string)
    requires name in Vocabulary(rows)
    ensures exists i :: 0 <= i < |rows| && rows[i].className == name
  {
    var i := FirstIndex(ClassColumn(rows), name);
    assert rows[i].className == name;
  }

  /**
   * The vocabulary is in order of first appearance, and `class_dict` has one entry
   * per vocabulary class.
   */
  lemma VocabularyOrderAndSize(rows: seq<Row>)
    ensures forall i, j :: 0 <= i < j < |Vocabulary(rows)| ==>
      FirstIndex(ClassColumn(rows), Vocabulary(rows)[i]) < FirstIndex(ClassColumn(rows), Vocabulary(rows)[j])
    ensures |ClassDict(Vocabulary(rows))| == |Vocabulary(rows)|
  {
    var names := Vocabulary(rows);
    forall i, j | 0 <= i < j < |names|
      ensures FirstIndex(ClassColumn(rows), names[i]) < FirstIndex(ClassColumn(rows), names[j])
    {
      UniqueFollowsFirstAppearance(ClassColumn(rows), i, j);
    }
    NoDupCardinality(names);
    assert ClassDict(names).Keys == set x | x in names;
  }

  /** The rows of image `id`, in file order: one `groupby("ImageID")` group. */
  function RowsOf(rows: seq<Row>, id: string): (g: seq<Row>)
    ensures |g| <= |rows|
    ensures forall r :: r in g ==> r in rows && r.imageId == id
  {
    if rows == [] then []
    else (if rows[0].imageId == id then [rows[0]] else []) + RowsOf(rows[1..], id)
  }

  /** The record of image `id`: its boxes in row order and the label of each box. */
  function RecordFor(rows: seq<Row>, dict: map<string, int>, id: string): (record: ImageRecord)
    requires Labelled(rows, dict)
    ensures record.imageId == id
    ensures |record.boxes| == |record.labels| == |RowsOf(rows, id)|
  {
    var g := RowsOf(rows, id);
    ImageRecord(id,
      seq(|g|, i requires 0 <= i < |g| => g[i].box),
      seq(|g|, i requires 0 <= i < |g| => dict[g[i].className]))
  }

  /**
   * The order in which `groupby("ImageID")` visits the groups: every distinct ImageID
   * of the rows exactly once, each with a non-empty group (pandas visits them sorted).
   */
  predicate IsGroupOrder(rows: seq<Row>, keys: seq<string>)
  {
    && (forall i :: 0 <= i < |rows| ==> Occurrences(keys, rows[i].imageId) == 1)
    && (forall k :: 0 <= k < |keys| ==> |RowsOf(rows, keys[k])| > 0)
  }

  /** A group order lists no ImageID twice. */
  lemma GroupOrderHasNoDuplicates(rows: seq<Row>, keys: seq<string>)
    requires IsGroupOrder(rows, keys)
    ensures NoDup(keys)
  {
    forall k1, k2 | 0 <= k1 < k2 < |keys| ensures keys[k1] != keys[k2] {
      var g := RowsOf(rows, keys[k1]);
      assert g[0] in rows;
      var i :| 0 <= i < |rows| && rows[i] == g[0];
      if keys[k1] == keys[k2] {
        OccursTwice(keys, k1, k2);
        assert false;
      }
    }
  }

  lemma {:induction false} OccursTwice<T>(s: seq<T>, i: nat, j: nat)
    requires i < j < |s| && s[i] == s[j]
    ensures Occurrences(s, s[i]) >= 2
  {
    if i > 0 {
      OccursTwice(s[1..], i - 1, j - 1);
    } else {
      OccursAt(s[1..], j - 1);
    }
  }

  lemma {:induction false} OccursAt<T>(s: seq<T>, j: nat)
    requires j < |s|
    ensures Occurrences(s, s[j]) >= 1
  {
    if j > 0 {
      OccursAt(s[1..], j - 1);
    }
  }

  /** The grouped records of the annotation rows, one per ImageID in group order. */
  function Grouped(rows: seq<Row>, keys: seq<string>): (data: seq<ImageRecord>)
    ensures |data| == |keys|
    ensures forall k :: 0 <= k < |keys| ==>
      data[k].imageId == keys[k] && |data[k].boxes| == |data[k].labels| == |RowsOf(rows, keys[k])|
  {
    DictLabelsEveryRow(rows);
    var dict := ClassDict(Vocabulary(rows));
    seq(|keys|, k requires 0 <= k < |keys| => RecordFor(rows, dict, keys[k]))
  }

  /** Every record has as many labels as boxes, and every label is a class of 1..numClasses. */
  predicate WellFormed(data: seq<ImageRecord>, numClasses: nat)
  {
    forall k :: 0 <= k < |data| ==>
      && |data[k].boxes| == |data[k].labels|
      && forall j :: 0 <= j < |data[k].labels| ==> 1 <= data[k].labels[j] <= numClasses
  }

  /** The number of labels over all records. */
  function TotalLabels(data: seq<ImageRecord>): nat
  {
    if data == [] then 0 else |data[0].labels| + TotalLabels(data[1..])
  }

  /**
   * `_read_data`: the vocabulary, `class_dict`, and one record per group appended in
   * group order. Records are well formed and never empty, and the labels over all
   * records number exactly the annotation rows.
   */
  method ReadData(rows: seq<Row>, groupKeys: seq<string>)
    returns (data: seq<ImageRecord>, classNames: seq<string>, classDict: map<string, int>)
    requires IsGroupOrder(rows, groupKeys)
    ensures classNames == Vocabulary(rows) && classDict == ClassDict(classNames)
    ensures data == Grouped(rows, groupKeys)
    ensures |data| == |groupKeys|
    ensures forall k :: 0 <= k < |data| ==> data[k].imageId == groupKeys[k] && |data[k].boxes| > 0
    ensures WellFormed(data, |classNames|)
    ensures TotalLabels(data) == |rows|
  {
    classNames := Vocabulary(rows);
    classDict := ClassDict(classNames);
    DictLabelsEveryRow(rows);
    data := [];
    for k := 0 to |groupKeys|
      invariant data == Grouped(rows, groupKeys[..k])
    {
      GroupedOfSnoc(rows, groupKeys[..k + 1]);
      assert groupKeys[..k + 1][..k] == groupKeys[..k];
      data := data + [RecordFor(rows, classDict, groupKeys[k])];
    }
    assert groupKeys[..|groupKeys|] == groupKeys;
    GroupedFacts(rows, groupKeys);
  }

  lemma GroupedOfSnoc(rows: seq<Row>, keys: seq<string>)
    requires keys != []
    ensures Labelled(rows, ClassDict(Vocabulary(rows)))
    ensures |Grouped(rows, keys)| == |keys|
    ensures Grouped(rows, keys) == Grouped(rows, keys[..|keys| - 1]) + [Grouped(rows, keys)[|keys| - 1]]
    ensures Grouped(rows, keys)[|keys| - 1] == RecordFor(rows, ClassDict(Vocabulary(rows)), keys[|keys| - 1])
  {
    var n := |keys| - 1;
    var whole := Grouped(rows, keys);
    GroupedAt(rows, keys, n);
    GroupedPrefix(rows, keys, n);
    assert whole == whole[..n] + [whole[n]];
  }

  /** The records of a prefix of the keys are the prefix of the records. */
  lemma GroupedPrefix(rows: seq<Row>, keys: seq<string>, n: nat)
    requires n <= |keys|
    ensures |Grouped(rows, keys)| == |keys|
    ensures Grouped(rows, keys[..n]) == Grouped(rows, keys)[..n]
  {
    var whole := Grouped(rows, keys);
    var front := Grouped(rows, keys[..n]);
    forall k | 0 <= k < n
      ensures front[k] == whole[k]
    {
      GroupedAt(rows, keys, k);
      GroupedAt(rows, keys[..n], k);
    }
  }

  /** The record at position `k` is that of the `k`-th group key. */
  lemma GroupedAt(rows: seq<Row>, keys: seq<string>, k: nat)
    requires k < |keys|
    ensures Labelled(rows, ClassDict(Vocabulary(rows)))
    ensures |Grouped(rows, keys)| == |keys|
    ensures Grouped(rows, keys)[k] == RecordFor(rows, ClassDict(Vocabulary(rows)), keys[k])
  {
    DictLabelsEveryRow(rows);
  }

  /**
   * The grouped records: one per ImageID in group order, none empty, all well formed,
   * no record twice, and their labels number exactly the annotation rows.
   */
  lemma GroupedFacts(rows: seq<Row>, keys: seq<string>)
    requires IsGroupOrder(rows, keys)
    ensures |Grouped(rows, keys)| == |keys|
    ensures forall k :: 0 <= k < |keys| ==> Grouped(rows, keys)[k].imageId == keys[k] && |Grouped(rows, keys)[k].boxes| > 0
    ensures WellFormed(Grouped(rows, keys), |Vocabulary(rows)|)
    ensures TotalLabels(Grouped(rows, keys)) == |rows|
    ensures NoDup(Grouped(rows, keys))
  {
    GroupOrderHasNoDuplicates(rows, keys);
    GroupedIsWellFormed(rows, keys);
    DictLabelsEveryRow(rows);
    GroupedLabelCount(rows, ClassDict(Vocabulary(rows)), keys, Grouped(rows, keys));
    GroupSizesSum(rows, keys);
  }

  /** Every grouped record is well formed, and no group is empty. */
  lemma GroupedIsWellFormed(rows: seq<Row>, keys: seq<string>)
    requires IsGroupOrder(rows, keys)
    ensures WellFormed(Grouped(rows, keys), |Vocabulary(rows)|)
    ensures forall k :: 0 <= k < |keys| ==> |Grouped(rows, keys)[k].boxes| > 0
  {
    var names := Vocabulary(rows);
    var data := Grouped(rows, keys);
    forall k | 0 <= k < |data|
      ensures |data[k].boxes| == |data[k].labels|
      ensures forall j :: 0 <= j < |data[k].labels| ==> 1 <= data[k].labels[j] <= |names|
      ensures |data[k].boxes| > 0
    {
      DictLabelsEveryRow(rows);
      LabelsInRange(rows, keys[k]);
    }
  }

  /** `class_dict` has a label for every row. */
  lemma DictLabelsEveryRow(rows: seq<Row>)
    ensures Labelled(rows, ClassDict(Vocabulary(rows)))
  {
    VocabularyCoversRows(rows);
  }

  lemma LabelsInRange(rows: seq<Row>, id: string)
    requires Labelled(rows, ClassDict(Vocabulary(rows)))
    ensures forall j :: 0 <= j < |RecordFor(rows, ClassDict(Vocabulary(rows)), id).labels| ==>
      1 <= RecordFor(rows, ClassDict(Vocabulary(rows)), id).labels[j] <= |Vocabulary(rows)|
  {
    var names := Vocabulary(rows);
    var dict := ClassDict(names);
    var g := RowsOf(rows, id);
    forall j | 0 <= j < |g| ensures 1 <= dict[g[j].className] <= |names| {
      var c := FirstIndex(names, g[j].className);
      assert dict[names[c]] == c + 1;
    }
  }

  /** The sum, over `keys`, of the sizes of their groups. */
  function GroupSizes(rows: seq<Row>, keys: seq<string>): nat
  {
    if keys == [] then 0 else |RowsOf(rows, keys[0])| + GroupSizes(rows, keys[1..])
  }

  /** The number of occurrences of `x` in `s`. */
  function Occurrences<T(==)>(s: seq<T>, x: T): nat
  {
    if s == [] then 0 else (if s[0] == x then 1 else 0) + Occurrences(s[1..], x)
  }

  lemma {:induction false} GroupSizesOfCons(rows: seq<Row>, keys: seq<string>)
    requires rows != []
    ensures GroupSizes(rows, keys) == GroupSizes(rows[1..], keys) + Occurrences(keys, rows[0].imageId)
  {
    if keys != [] {
      GroupSizesOfCons(rows, keys[1..]);
    }
  }

  /** When the keys list every ImageID once, the group sizes add up to the number of rows. */
  lemma {:induction false} GroupSizesSum(rows: seq<Row>, keys: seq<string>)
    requires forall i :: 0 <= i < |rows| ==> Occurrences(keys, rows[i].imageId) == 1
    ensures GroupSizes(rows, keys) == |rows|
  {
    if rows != [] {
      GroupSizesOfCons(rows, keys);
      assert forall i :: 0 <= i < |rows| - 1 ==> rows[1..][i] == rows[i + 1];
      GroupSizesSum(rows[1..], keys);
    } else {
      GroupSizesOfEmpty(keys);
    }
  }

  lemma {:induction false} GroupSizesOfEmpty(keys: seq<string>)
    ensures GroupSizes([], keys) == 0
  {
    if keys != [] {
      GroupSizesOfEmpty(keys[1..]);
    }
  }

  lemma {:induction false} GroupedLabelCount(rows: seq<Row>, dict: map<string, int>, keys: seq<string>, data: seq<ImageRecord>)
    requires Labelled(rows, dict)
    requires |data| == |keys| && forall k :: 0 <= k < |keys| ==> data[k] == RecordFor(rows, dict, keys[k])
    ensures TotalLabels(data) == GroupSizes(rows, keys)
  {
    if keys != [] {
      GroupedLabelCount(rows, dict, keys[1..], data[1..]);
    }
  }

  lemma {:induction false} OccursIn<T>(s: seq<T>, x: T) returns (k: nat)
    requires Occurrences(s, x) > 0
    ensures k < |s| && s[k] == x
  {
    if s[0] == x {
      k := 0;
    } else {
      var k' := OccursIn(s[1..], x);
      k := k' + 1;
    }
  }

  lemma {:induction false} RowInItsGroup(rows: seq<Row>, i: nat) returns (j: nat)
    requires i < |rows|
    ensures j < |RowsOf(rows, rows[i].imageId)| && RowsOf(rows, rows[i].imageId)[j] == rows[i]
  {
    if i == 0 {
      j := 0;
    } else {
      var id := rows[i].imageId;
      assert rows[1..][i - 1] == rows[i];
      var j' := RowInItsGroup(rows[1..], i - 1);
      var head := if rows[0].imageId == id then [rows[0]] else [];
      var tail := RowsOf(rows[1..], id);
      assert RowsOf(rows, id) == head + tail;
      j := |head| + j';
      assert (head + tail)[j] == tail[j'];
    }
  }

  /** Every vocabulary class labels at least one box of at least one grouped record. */
  lemma EveryClassHasAnImage(rows: seq<Row>, keys: seq<string>, c: int) returns (k: nat)
    requires IsGroupOrder(rows, keys)
    requires 1 <= c <= |Vocabulary(rows)|
    ensures k < |keys| && c in Grouped(rows, keys)[k].labels
  {
    var names := Vocabulary(rows);
    VocabularyClassesOccur(rows, names[c - 1]);
    var i :| 0 <= i < |rows| && rows[i].className == names[c - 1];
    k := OccursIn(keys, rows[i].imageId);
    var j := RowInItsGroup(rows, i);
    DictLabelsEveryRow(rows);
    var record := Grouped(rows, keys)[k];
    assert record == RecordFor(rows, ClassDict(names), keys[k]);
    assert record.labels[j] == ClassDict(names)[names[c - 1]] == c;
  }
}
