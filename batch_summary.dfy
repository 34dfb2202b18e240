/** The end-of-batch statistics (components/BatchSummary.tsx): counts over the batch and
    its grade map, the accuracy, the cards to review and what the summary offers next. */
module BatchSummary {
  import opened Seqs
  import opened Types

  const ListedGaps: nat := 3

  predicate IsDifficult(g: Grade) { g == Again || g == Hard }

  /** `grades[c.id]` is Again or Hard (a missing entry is neither). */
  predicate GradedDifficult(c: Flashcard, grades: map<string, Grade>)
  {
    c.id in grades && IsDifficult(grades[c.id])
  }

  function HardKeys(grades: map<string, Grade>): set<string>
  {
    set k | k in grades && IsDifficult(grades[k])
  }

  function EasyKeys(grades: map<string, Grade>): set<string>
  {
    set k | k in grades && !IsDifficult(grades[k])
  }

  /** `Object.values(grades).filter(Again or Hard).length`: one value per key. */
  function HardCount(grades: map<string, Grade>): nat { |HardKeys(grades)| }

  /** `Object.values(grades).filter(Good or Easy).length`. */
  function EasyCount(grades: map<string, Grade>): nat { |EasyKeys(grades)| }

  /** Every entry of the grade map is counted exactly once. */
  lemma CountsPartition(grades: map<string, Grade>)
    ensures HardCount(grades) + EasyCount(grades) == |grades|
  {
    assert HardKeys(grades) + EasyKeys(grades) == grades.Keys;
    assert HardKeys(grades) * EasyKeys(grades) == {};
  }

  /** `Math.round((easyCount / total) * 100)`, rounding halves up; an empty batch gives
      `NaN` in the source, modelled as `None`. */
  function Accuracy(easyCount: nat, total: nat): (r: Option<int>)
    ensures r.None? <==> total == 0
    ensures r.Some? ==> 2 * total * r.value <= 200 * easyCount + total < 2 * total * r.value + 2 * total
  {
    if total == 0 then None else Some((200 * easyCount + total) / (2 * total))
  }

  lemma MulMonotone(t: int, a: int, b: int)
    requires t > 0 && a <= b
    ensures t * a <= t * b
  {
  }

  /** When every graded id belongs to the batch, accuracy is a percentage. */
  lemma AccuracyInRange(batch: seq<Flashcard>, grades: map<string, Grade>)
    requires |batch| > 0 && grades.Keys <= IdSet(batch)
    ensures var a := Accuracy(EasyCount(grades), |batch|);
      a.Some? && 0 <= a.value <= 100
  {
    var t := |batch|;
    var e := EasyCount(grades);
    var v := Accuracy(e, t).value;
    CountsPartition(grades);
    IdSetSize(batch);
    assert |grades.Keys| <= |IdSet(batch)| by {
      SubsetCardinality(grades.Keys, IdSet(batch));
    }
    assert e <= t;
    if v > 100 {
      MulMonotone(2 * t, 101, v);
    }
    if v < 0 {
      MulMonotone(2 * t, v, -1);
    }
  }

  lemma SubsetCardinality<K>(a: set<K>, b: set<K>)
    requires a <= b
    ensures |a| <= |b|
  {
    assert b == a + (b - a);
  }

  /** `batch.filter(c => grades[c.id] is Again or Hard)`. */
  function DifficultCards(batch: seq<Flashcard>, grades: map<string, Grade>): (r: seq<Flashcard>)
    ensures |r| <= |batch|
    ensures forall i :: 0 <= i < |r| ==> r[i] in batch && GradedDifficult(r[i], grades)
    ensures forall i :: 0 <= i < |batch| && GradedDifficult(batch[i], grades) ==> batch[i] in r
  {
    Filter(batch, (c: Flashcard) => GradedDifficult(c, grades))
  }

  /** Over a batch of distinct cards, the difficult cards are as many as the
      Again/Hard-graded ids that belong to the batch. */
  lemma {:induction false} DifficultCount(batch: seq<Flashcard>, grades: map<string, Grade>)
    requires DistinctIds(batch)
    ensures |DifficultCards(batch, grades)| == |HardKeys(grades) * IdSet(batch)|
  {
    var h := HardKeys(grades);
    if batch == [] {
      assert h * IdSet(batch) == {};
    } else {
      var c, t := batch[0], batch[1..];
      IdSetCons(batch);
      DifficultCount(t, grades);
      assert DifficultCards(batch, grades) ==
        (if GradedDifficult(c, grades) then [c] else []) + DifficultCards(t, grades);
      assert c.id in h <==> GradedDifficult(c, grades);
      IntersectCons(h, c.id, IdSet(t));
    }
  }

  lemma IntersectCons<K>(h: set<K>, k: K, rest: set<K>)
    requires k !in rest
    ensures |h * ({k} + rest)| == (if k in h then 1 else 0) + |h * rest|
  {
    var here := h * {k};
    assert h * ({k} + rest) == here + h * rest;
    assert here !! h * rest;
    if k in h { assert here == {k}; } else { assert here == {}; }
  }

  /** When the graded ids belong to a batch of distinct cards, the "To Review" figure
      (the number of difficult cards) equals the Again/Hard count. */
  lemma ToReviewIsHardCount(batch: seq<Flashcard>, grades: map<string, Grade>)
    requires DistinctIds(batch) && grades.Keys <= IdSet(batch)
    ensures |DifficultCards(batch, grades)| == HardCount(grades)
  {
    DifficultCount(batch, grades);
    assert HardKeys(grades) * IdSet(batch) == HardKeys(grades);
  }

  /** What the summary screen shows. */
  datatype SummaryView = SummaryView(
    total: nat,
    hardCount: nat,
    easyCount: nat,
    accuracy: Option<int>,
    toReview: nat,
    showGaps: bool,
    listed: seq<Flashcard>,
    moreCount: Option<nat>,
    offerNextBatch: bool)

  /** The statistics and guards of the summary for `batch`, `grades` and `hasMoreCards`. */
  function Summarize(batch: seq<Flashcard>, grades: map<string, Grade>, hasMoreCards: bool): (v: SummaryView)
    ensures v.total == |batch| && v.hardCount == HardCount(grades) && v.easyCount == EasyCount(grades)
    ensures v.accuracy == Accuracy(EasyCount(grades), |batch|)
    ensures v.toReview == |DifficultCards(batch, grades)|
    ensures v.showGaps <==> v.toReview > 0
    // at most three difficult cards are listed, the first ones in batch order
    ensures |v.listed| <= ListedGaps && v.listed <= DifficultCards(batch, grades)
    ensures |v.listed| == v.toReview || |v.listed| == ListedGaps
    // "+N more" appears exactly when more than three are difficult, with N the rest
    ensures v.moreCount.Some? <==> v.toReview > ListedGaps
    ensures v.moreCount.Some? ==> |v.listed| + v.moreCount.value == v.toReview
    ensures v.offerNextBatch == hasMoreCards
  {
    var d := DifficultCards(batch, grades);
    var shown := d[..Min(ListedGaps, |d|)];
    SummaryView(
      |batch|, HardCount(grades), EasyCount(grades), Accuracy(EasyCount(grades), |batch|),
      |d|, |d| > 0, shown,
      if |d| > ListedGaps then Some(|d| - ListedGaps) else None,
      hasMoreCards)
  }
}
