/** The study session (components/StudySession.tsx): a working copy of the deck, the
    batch being studied and the handlers that grade, flip, retry and move to the next
    batch. The two callbacks the session calls (`onSessionComplete`, `onExit`) are
    recorded, in order, in the ghost log `events`. */
module StudySession {
  import opened Seqs
  import opened Types
  import Srs
  import BatchSummary

  const BatchSize: nat := 10

  /** `sourceDeck.slice(0, BATCH_SIZE)`: the first cards of `src`, at most a batch of them. */
  function TakeBatch(src: seq<Flashcard>): (r: seq<Flashcard>)
    ensures |r| == Min(BatchSize, |src|) && r <= src
    ensures IdSet(r) <= IdSet(src)
  {
    var r := src[..Min(BatchSize, |src|)];
    assert forall i :: 0 <= i < |r| ==> r[i] == src[i];
    r
  }

  /** `workingDeck.map(c => c.id === updated.id ? updated : c)`. */
  function ReplaceCard(deck: seq<Flashcard>, updated: Flashcard): (r: seq<Flashcard>)
    ensures |r| == |deck| && Ids(r) == Ids(deck)
    ensures forall i :: 0 <= i < |deck| ==> r[i] == if deck[i].id == updated.id then updated else deck[i]
  {
    var r := ReplaceByKey(deck, CardId, updated);
    assert forall i :: 0 <= i < |deck| ==> Ids(r)[i] == Ids(deck)[i];
    r
  }

  /** Grading the same card twice leaves only the second result in the deck: a
      retried batch overwrites its first pass rather than compounding it, because both
      passes schedule from the batch's copy `card`. */
  lemma RegradeOverwrites(deck: seq<Flashcard>, card: Flashcard, first: Grade, t1: int, second: Grade, t2: int)
    ensures
      var once := ReplaceCard(deck, Srs.CalculateNextReview(card, first, t1));
      ReplaceCard(once, Srs.CalculateNextReview(card, second, t2)) ==
      ReplaceCard(deck, Srs.CalculateNextReview(card, second, t2))
  {
    ReplaceByKeyOverwrites(deck, CardId, Srs.CalculateNextReview(card, first, t1), Srs.CalculateNextReview(card, second, t2));
  }

  function NotIn(batch: seq<Flashcard>): Flashcard -> bool
  {
    (c: Flashcard) => c.id !in IdSet(batch)
  }

  /** `workingDeck.filter(c => !currentBatchIds.has(c.id))`: the deck minus the cards
      that share an id with the batch, in deck order. */
  function Remaining(deck: seq<Flashcard>, batch: seq<Flashcard>): (r: seq<Flashcard>)
    ensures |r| <= |deck|
    ensures forall i :: 0 <= i < |r| ==> r[i] in deck && r[i].id !in IdSet(batch)
    ensures forall i :: 0 <= i < |deck| && deck[i].id !in IdSet(batch) ==> deck[i] in r
    ensures IdSet(r) <= IdSet(deck) - IdSet(batch)
  {
    var r := Filter(deck, NotIn(batch));
    assert forall i :: 0 <= i < |r| ==> r[i] in deck && NotIn(batch)(r[i]);
    forall k | k in IdSet(r) ensures k in IdSet(deck) - IdSet(batch) {
      var i :| 0 <= i < |r| && r[i].id == k;
      var j :| 0 <= j < |deck| && deck[j] == r[i];
    }
    r
  }

  /** A deck of distinct cards larger than the batch always has cards left over, so
      "has more cards" stays true for every deck of more than ten cards. */
  lemma LargeDeckHasMore(deck: seq<Flashcard>, batch: seq<Flashcard>)
    requires DistinctIds(deck) && |deck| > |batch|
    ensures |Remaining(deck, batch)| > 0
  {
    var a, b := IdSet(deck), IdSet(batch);
    IdSetSize(deck);
    IdSetSize(batch);
    assert a <= (a - b) + b;
    BatchSummary.SubsetCardinality(a, (a - b) + b);
    assert |a - b| > 0;
    var k :| k in a - b;
    var i :| 0 <= i < |deck| && deck[i].id == k;
    assert deck[i] in Remaining(deck, batch);
  }

  /** Over distinct cards, a card outside a slice has an id the slice lacks. */
  lemma OutsideSlice(deck: seq<Flashcard>, i: nat, j: nat, x: nat)
    requires DistinctIds(deck) && i <= j <= |deck| && x < |deck| && !(i <= x < j)
    ensures NotIn(deck[i..j])(deck[x])
  {
    var mid := deck[i..j];
    forall y | 0 <= y < |mid| ensures mid[y].id != deck[x].id {
      assert mid[y] == deck[i + y];
    }
    IdSetMembers(mid, deck[x].id);
  }

  /** Over distinct cards, removing a slice by id leaves exactly what surrounds it. */
  lemma RemainingOfSlice(deck: seq<Flashcard>, i: nat, j: nat)
    requires DistinctIds(deck) && i <= j <= |deck|
    ensures Remaining(deck, deck[i..j]) == deck[..i] + deck[j..]
  {
    var p := NotIn(deck[i..j]);
    var front, mid, back := deck[..i], deck[i..j], deck[j..];
    assert deck == front + mid + back;
    forall x | 0 <= x < |front| ensures p(front[x]) {
      OutsideSlice(deck, i, j, x);
    }
    forall x | 0 <= x < |back| ensures p(back[x]) {
      OutsideSlice(deck, i, j, j + x);
    }
    forall x | 0 <= x < |mid| ensures !p(mid[x]) {
      IdSetMembers(mid, mid[x].id);
    }
    FilterDropsMiddle(front, mid, back, p);
  }

  /** With 25 distinct cards the batches are cards 0-9, then 10-19, then 0-9 again and
      10-19 once more: only the batch just finished is excluded, so the batches
      alternate, cards 20-24 are never reached by "Start Next Batch" and more cards
      always remain. */
  lemma BatchesCycle(deck: seq<Flashcard>)
    requires |deck| == 25 && DistinctIds(deck)
    ensures TakeBatch(deck) == deck[..10]
    ensures Remaining(deck, deck[..10]) == deck[10..]
    ensures TakeBatch(deck[10..]) == deck[10..20]
    ensures Remaining(deck, deck[10..20]) == deck[..10] + deck[20..]
    ensures TakeBatch(deck[..10] + deck[20..]) == deck[..10]
    ensures TakeBatch(Remaining(deck, TakeBatch(deck[..10] + deck[20..]))) == deck[10..20]
    ensures |Remaining(deck, deck[..10])| > 0 && |Remaining(deck, deck[10..20])| > 0
  {
    RemainingOfSlice(deck, 0, 10);
    assert deck[0..10] == deck[..10];
    assert deck[..0] + deck[10..] == deck[10..];
    RemainingOfSlice(deck, 10, 20);
    assert deck[10..][..10] == deck[10..20];
    assert (deck[..10] + deck[20..])[..10] == deck[..10];
  }

  /** The callbacks the session calls on its host. */
  datatype Event = SessionComplete(cards: seq<Flashcard>) | Exit

  /** Which screen the session renders. */
  datatype Screen = LoadingScreen | CardScreen | SummaryScreen

  class Session {
    /** The full working copy of the deck, updated as cards are graded. */
    var workingDeck: seq<Flashcard>
    /** The cards of the current batch, as they were when the batch started. */
    var batchQueue: seq<Flashcard>
    var currentIndex: nat
    var isFlipped: bool
    var showSummary: bool
    var sessionGrades: map<string, Grade>
    /** The host callbacks called so far, oldest first. */
    ghost var events: seq<Event>
    /** The ids of the deck the session was started with. */
    ghost const deckIds: seq<string>

    ghost predicate Valid()
      reads this
    {
      && Ids(workingDeck) == deckIds
      && IdSet(batchQueue) <= IdSet(workingDeck)
      && |batchQueue| <= BatchSize
      && (batchQueue == [] ==> currentIndex == 0 && !showSummary)
      && (batchQueue != [] ==> currentIndex < |batchQueue|)
      && (showSummary ==> currentIndex == |batchQueue| - 1)
      && sessionGrades.Keys <= IdSet(batchQueue)
    }

    /** The component's mount: the working copy is the deck and the first batch starts. */
    constructor (deck: seq<Flashcard>)
      ensures Valid() && deckIds == Ids(deck)
      ensures workingDeck == deck && batchQueue == TakeBatch(deck)
      ensures currentIndex == 0 && !isFlipped && !showSummary && sessionGrades == map[]
      ensures events == []
    {
      workingDeck := deck;
      batchQueue := [];
      currentIndex := 0;
      isFlipped := false;
      showSummary := false;
      sessionGrades := map[];
      events := [];
      deckIds := Ids(deck);
      new;
      StartNewBatch(deck);
    }

    function CurrentScreen(): (p: Screen)
      reads this
      ensures p == LoadingScreen <==> batchQueue == [] && !showSummary
      ensures p == SummaryScreen <==> showSummary
    {
      if showSummary then SummaryScreen else if batchQueue == [] then LoadingScreen else CardScreen
    }

    /** `batchQueue[currentIndex]`, absent past the end. */
    function CurrentCard(): (c: Option<Flashcard>)
      reads this
      ensures c.Some? <==> currentIndex < |batchQueue|
      ensures c.Some? ==> c.value == batchQueue[currentIndex] && c.value in batchQueue
    {
      if currentIndex < |batchQueue| then Some(batchQueue[currentIndex]) else None
    }

    /** `remainingCards.length > 0` as computed for the summary. */
    function HasMoreCards(): (more: bool)
      reads this
      ensures more <==> exists i :: 0 <= i < |workingDeck| && workingDeck[i].id !in IdSet(batchQueue)
    {
      var r := Remaining(workingDeck, batchQueue);
      assert r != [] ==> r[0] in workingDeck;
      |r| > 0
    }

    /** The summary screen's figures, computed from the batch, the session's grades and
        whether cards remain; in any valid state the accuracy shown on the summary is a
        percentage. */
    function Summary(): (v: BatchSummary.SummaryView)
      reads this
      ensures v == BatchSummary.Summarize(batchQueue, sessionGrades, HasMoreCards())
      ensures v.offerNextBatch == HasMoreCards() && v.total == |batchQueue|
      ensures Valid() && showSummary ==> v.accuracy.Some? && 0 <= v.accuracy.value <= 100
    {
      if showSummary && sessionGrades.Keys <= IdSet(batchQueue) && batchQueue != [] then
        BatchSummary.AccuracyInRange(batchQueue, sessionGrades);
        BatchSummary.Summarize(batchQueue, sessionGrades, HasMoreCards())
      else
        BatchSummary.Summarize(batchQueue, sessionGrades, HasMoreCards())
    }

    /** `startNewBatch(src)`. */
    method StartNewBatch(src: seq<Flashcard>)
      requires Valid() && IdSet(src) <= IdSet(workingDeck)
      modifies this
      ensures Valid()
      ensures batchQueue == TakeBatch(src)
      ensures currentIndex == 0 && !isFlipped && !showSummary && sessionGrades == map[]
      ensures workingDeck == old(workingDeck) && events == old(events)
    {
      batchQueue := TakeBatch(src);
      currentIndex := 0;
      isFlipped := false;
      showSummary := false;
      sessionGrades := map[];
    }

    /** `handleFlip`. */
    method HandleFlip()
      requires Valid()
      modifies this`isFlipped
      ensures Valid() && isFlipped == !old(isFlipped)
    {
      isFlipped := !isFlipped;
    }

    /** `handleRate(grade)` with the clock read as `now`. With no card at the index
        nothing changes. Otherwise the batch's copy of the card is scheduled, its grade
        recorded and every card of the working deck with its id replaced; then either
        the next card is shown, or, at the last card, the host is sent the whole
        updated deck and the summary is shown. */
    method HandleRate(grade: Grade, now: int)
      requires Valid()
      modifies this
      ensures Valid() && batchQueue == old(batchQueue)
      ensures old(currentIndex) >= |old(batchQueue)| ==>
        && workingDeck == old(workingDeck) && currentIndex == old(currentIndex)
        && isFlipped == old(isFlipped) && showSummary == old(showSummary)
        && sessionGrades == old(sessionGrades) && events == old(events)
      ensures old(currentIndex) < |old(batchQueue)| ==>
        var card := old(batchQueue)[old(currentIndex)];
        && workingDeck == ReplaceCard(old(workingDeck), Srs.CalculateNextReview(card, grade, now))
        && sessionGrades == old(sessionGrades)[card.id := grade]
      ensures old(currentIndex) + 1 < |old(batchQueue)| ==>
        && currentIndex == old(currentIndex) + 1 && !isFlipped
        && showSummary == old(showSummary) && events == old(events)
      ensures old(currentIndex) + 1 == |old(batchQueue)| ==>
        && currentIndex == old(currentIndex) && isFlipped == old(isFlipped)
        && showSummary && events == old(events) + [SessionComplete(workingDeck)]
    {
      if currentIndex >= |batchQueue| {
        return;
      }
      var card := batchQueue[currentIndex];
      var updated := Srs.CalculateNextReview(card, grade, now);
      sessionGrades := sessionGrades[card.id := grade];
      var updatedFullDeck := ReplaceCard(workingDeck, updated);
      SameIdsSameIdSet(updatedFullDeck, workingDeck);
      workingDeck := updatedFullDeck;
      if currentIndex < |batchQueue| - 1 {
        isFlipped := false;
        currentIndex := currentIndex + 1;
      } else {
        events := events + [SessionComplete(updatedFullDeck)];
        showSummary := true;
      }
    }

    /** `handleNextBatch`: the next batch is taken from the working deck minus the batch
        just finished; when nothing remains the host is told to exit instead. */
    method HandleNextBatch()
      requires Valid()
      modifies this
      ensures Valid() && workingDeck == old(workingDeck)
      ensures old(HasMoreCards()) ==>
        && batchQueue == TakeBatch(Remaining(old(workingDeck), old(batchQueue)))
        && currentIndex == 0 && !isFlipped && !showSummary && sessionGrades == map[]
        && events == old(events)
      ensures !old(HasMoreCards()) ==>
        && batchQueue == old(batchQueue) && currentIndex == old(currentIndex)
        && isFlipped == old(isFlipped) && showSummary == old(showSummary)
        && sessionGrades == old(sessionGrades) && events == old(events) + [Exit]
    {
      var remaining := Remaining(workingDeck, batchQueue);
      if |remaining| == 0 {
        events := events + [Exit];
        return;
      }
      StartNewBatch(remaining);
    }

    /** `handleRetryBatch`: the same batch again from its first card; no card changes. */
    method HandleRetryBatch()
      requires Valid()
      modifies this`currentIndex, this`isFlipped, this`showSummary, this`sessionGrades
      ensures Valid()
      ensures currentIndex == 0 && !isFlipped && !showSummary && sessionGrades == map[]
    {
      currentIndex := 0;
      isFlipped := false;
      showSummary := false;
      sessionGrades := map[];
    }
  }
}
