/** The spaced-repetition scheduler (services/srsService.ts): a card and a grade give the
    card's next interval, ease, box, due date and history. The wall-clock reading is the
    parameter `now` (milliseconds). */
module Srs {
  import opened Seqs
  import opened Types

  const MinuteMs: int := 60 * 1000
  const DayMs: int := 24 * 60 * 60 * 1000

  /** Ease factors in hundredths. */
  const InitialEase: int := 250
  const MinEase: int := 130

  /** The locals `newInterval`, `newEaseFactor`, `newBox` of one `switch` branch. */
  datatype Step = Step(interval: int, easeFactor: int, box: int)

  function GradeStep(card: Flashcard, grade: Grade): Step
  {
    var isNew := card.interval == 0;
    match grade
    case Again => Step(0, Max(MinEase, card.easeFactor - 20), 0)
    case Hard => Step(if isNew then 1 else Max(1, card.interval * 12 / 10), Max(MinEase, card.easeFactor - 15), card.box)
    case Good => Step(if isNew then 1 else Max(1, card.interval * 25 / 10), card.easeFactor, card.box + 1)
    case Easy => Step(if isNew then 3 else Max(1, card.interval * 4), card.easeFactor + 15, card.box + 1)
  }

  function DueDate(interval: int, now: int): int
  {
    if interval == 0 then now + MinuteMs else now + interval * DayMs
  }

  /** `calculateNextReview(card, grade)` with `Date.now()` read as `now`. Intervals
      scaled by 1.2 and 2.5 are the largest whole number of days not above the exact
      product, and never below one day. */
  function CalculateNextReview(card: Flashcard, grade: Grade, now: int): (r: Flashcard)
    // identity and content pass through; the grade is appended to the history
    ensures r.id == card.id && r.front == card.front && r.back == card.back
    ensures r.history == card.history + [grade]
    // Again: reset, due one minute from now
    ensures grade == Again ==> r.interval == 0 && r.box == 0
    ensures grade == Again ==> r.easeFactor == Max(MinEase, card.easeFactor - 20)
    // Hard: one day for a new card, else floor(1.2 * interval) but at least one day
    ensures grade == Hard && card.interval == 0 ==> r.interval == 1
    ensures grade == Hard && card.interval != 0 ==>
      r.interval >= 1 && 12 * card.interval < 10 * r.interval + 10 &&
      (r.interval > 1 ==> 10 * r.interval <= 12 * card.interval)
    ensures grade == Hard ==> r.box == card.box && r.easeFactor == Max(MinEase, card.easeFactor - 15)
    // Good: one day for a new card, else floor(2.5 * interval) but at least one day
    ensures grade == Good && card.interval == 0 ==> r.interval == 1
    ensures grade == Good && card.interval != 0 ==>
      r.interval >= 1 && 25 * card.interval < 10 * r.interval + 10 &&
      (r.interval > 1 ==> 10 * r.interval <= 25 * card.interval)
    ensures grade == Good ==> r.box == card.box + 1 && r.easeFactor == card.easeFactor
    // Easy: three days for a new card, else four times the interval but at least one day
    ensures grade == Easy ==> r.interval == (if card.interval == 0 then 3 else Max(1, 4 * card.interval))
    ensures grade == Easy ==> r.box == card.box + 1 && r.easeFactor == card.easeFactor + 15
    // every grade but Again schedules at least a day ahead
    ensures grade != Again ==> r.interval >= 1
    ensures r.nextReviewDate == (if r.interval == 0 then now + MinuteMs else now + r.interval * DayMs)
  {
    var step := GradeStep(card, grade);
    card.(interval := step.interval,
          easeFactor := step.easeFactor,
          nextReviewDate := DueDate(step.interval, now),
          box := step.box,
          history := card.history + [grade])
  }

  /** `createInitialFlashcard(id, front, back)` with `Date.now()` read as `now`. */
  function CreateInitialFlashcard(id: string, front: string, back: string, now: int): (r: Flashcard)
    ensures r.id == id && r.front == front && r.back == back
    ensures IsUnscheduled(r, now)
  {
    Flashcard(id, front, back, 0, now, 0, InitialEase, [])
  }

  /** A card in the "new" scheduling state, due at `now`. */
  predicate IsUnscheduled(c: Flashcard, now: int)
  {
    c.box == 0 && c.interval == 0 && c.easeFactor == InitialEase && c.history == [] && c.nextReviewDate == now
  }

  /** The ease floor holds after one grading of a card that meets it. */
  lemma EaseFloorKept(card: Flashcard, grade: Grade, now: int)
    requires card.easeFactor >= MinEase
    ensures CalculateNextReview(card, grade, now).easeFactor >= MinEase
  {
  }

  /** A positive interval never shrinks unless the grade is Again. */
  lemma IntervalGrowsUnlessAgain(card: Flashcard, grade: Grade, now: int)
    requires card.interval > 0 && grade != Again
    ensures CalculateNextReview(card, grade, now).interval >= card.interval
  {
  }

  /** One grading event: the grade and the time it was given. */
  datatype Review = Review(grade: Grade, at: int)

  function Grades(reviews: seq<Review>): (gs: seq<Grade>)
    ensures |gs| == |reviews|
    ensures forall i :: 0 <= i < |reviews| ==> gs[i] == reviews[i].grade
  {
    if reviews == [] then [] else [reviews[0].grade] + Grades(reviews[1..])
  }

  /** The card after grading it once per review, in order. */
  function ReviewAll(card: Flashcard, reviews: seq<Review>): Flashcard
    decreases |reviews|
  {
    if reviews == [] then card
    else ReviewAll(CalculateNextReview(card, reviews[0].grade, reviews[0].at), reviews[1..])
  }

  /** Over any sequence of gradings the ease never falls below its floor, the interval
      stays non-negative, identity and content stay fixed and the history records every
      grade in order. */
  lemma {:induction false} ReviewAllInvariants(card: Flashcard, reviews: seq<Review>)
    requires card.easeFactor >= MinEase && card.interval >= 0
    ensures var r := ReviewAll(card, reviews);
      r.easeFactor >= MinEase && r.interval >= 0 &&
      r.id == card.id && r.front == card.front && r.back == card.back &&
      r.history == card.history + Grades(reviews)
    decreases |reviews|
  {
    if reviews != [] {
      var next := CalculateNextReview(card, reviews[0].grade, reviews[0].at);
      ReviewAllInvariants(next, reviews[1..]);
      assert Grades(reviews) == [reviews[0].grade] + Grades(reviews[1..]);
      assert card.history + Grades(reviews) == next.history + Grades(reviews[1..]);
    }
  }

  /** A card graded Easy from interval 10 and ease 2.5 moves to 40 days and ease 2.65. */
  lemma EasyFromTenDays(card: Flashcard, now: int)
    requires card.interval == 10 && card.easeFactor == 250
    ensures var r := CalculateNextReview(card, Easy, now);
      r.interval == 40 && r.easeFactor == 265 && r.box == card.box + 1 && r.nextReviewDate == now + 40 * DayMs
  {
  }

  /** Again from interval 5 and ease 1.35 resets the interval and clamps the ease at 1.3. */
  lemma AgainClampsEase(card: Flashcard, now: int)
    requires card.interval == 5 && card.easeFactor == 135
    ensures var r := CalculateNextReview(card, Again, now);
      r.interval == 0 && r.easeFactor == MinEase && r.box == 0 && r.nextReviewDate == now + MinuteMs
  {
  }

  /** A new card's first grading: Again re-queues in a minute, Hard and Good give one day,
      Easy three; history holds just that grade. */
  lemma FirstReview(id: string, front: string, back: string, created: int, grade: Grade, now: int)
    ensures var r := CalculateNextReview(CreateInitialFlashcard(id, front, back, created), grade, now);
      r.history == [grade] &&
      r.interval == (match grade case Again => 0 case Hard => 1 case Good => 1 case Easy => 3) &&
      r.box == (if grade == Again || grade == Hard then 0 else 1)
  {
  }
}
