/** The app's domain records (types.ts): cards, decks and the four recall grades. */
module Types {

  datatype Grade = Again | Hard | Good | Easy

  /** A reviewable card. `easeFactor` is held in hundredths (2.5 is 250);
      `nextReviewDate` is a millisecond timestamp; `interval` is in days. */
  datatype Flashcard = Flashcard(
    id: string,
    front: string,
    back: string,
    box: int,
    nextReviewDate: int,
    interval: int,
    easeFactor: int,
    history: seq<Grade>)

  datatype Deck = Deck(id: string, name: string, cards: seq<Flashcard>, createdAt: int)

  function CardId(c: Flashcard): string { c.id }

  function DeckId(d: Deck): string { d.id }

  /** The ids of `s`, position by position. */
  function Ids(s: seq<Flashcard>): (r: seq<string>)
    ensures |r| == |s|
    ensures forall i :: 0 <= i < |s| ==> r[i] == s[i].id
  {
    if s == [] then [] else [s[0].id] + Ids(s[1..])
  }

  /** The set of ids occurring in `s`. */
  function IdSet(s: seq<Flashcard>): set<string>
  {
    set i | 0 <= i < |s| :: s[i].id
  }

  /** No two positions of `s` hold cards with the same id. */
  predicate DistinctIds(s: seq<Flashcard>)
  {
    forall i, j :: 0 <= i < j < |s| ==> s[i].id != s[j].id
  }

  lemma IdSetMembers(s: seq<Flashcard>, k: string)
    ensures k in IdSet(s) <==> exists i :: 0 <= i < |s| && s[i].id == k
  {
  }

  /** Sequences with the same ids have the same id set. */
  lemma SameIdsSameIdSet(a: seq<Flashcard>, b: seq<Flashcard>)
    requires Ids(a) == Ids(b)
    ensures IdSet(a) == IdSet(b)
  {
    forall k | k in IdSet(a) ensures k in IdSet(b) {
      var i :| 0 <= i < |a| && a[i].id == k;
      assert Ids(a)[i] == Ids(b)[i];
    }
    forall k | k in IdSet(b) ensures k in IdSet(a) {
      var i :| 0 <= i < |b| && b[i].id == k;
      assert Ids(a)[i] == Ids(b)[i];
    }
  }

  /** The id set and distinctness of a non-empty sequence, split at its head. */
  lemma IdSetCons(s: seq<Flashcard>)
    requires s != []
    ensures IdSet(s) == {s[0].id} + IdSet(s[1..])
    ensures DistinctIds(s) ==> DistinctIds(s[1..]) && s[0].id !in IdSet(s[1..])
  {
    var t := s[1..];
    forall k | k in IdSet(s) ensures k in {s[0].id} + IdSet(t) {
      var i :| 0 <= i < |s| && s[i].id == k;
      if i > 0 { assert t[i - 1].id == k; }
    }
    forall k | k in IdSet(t) ensures k in IdSet(s) {
      var i :| 0 <= i < |t| && t[i].id == k;
      assert s[i + 1].id == k;
    }
    if DistinctIds(s) {
      forall i, j | 0 <= i < j < |t| ensures t[i].id != t[j].id {
        assert s[i + 1] == t[i] && s[j + 1] == t[j];
      }
      forall i | 0 <= i < |t| ensures t[i].id != s[0].id {
        assert s[i + 1] == t[i];
      }
      IdSetMembers(t, s[0].id);
    }
  }

  /** The id set of a non-empty sequence, split at its last card. */
  lemma IdSetSnoc(s: seq<Flashcard>)
    requires s != []
    ensures IdSet(s) == IdSet(s[..|s| - 1]) + {s[|s| - 1].id}
  {
    var init := s[..|s| - 1];
    forall k | k in IdSet(s) ensures k in IdSet(init) + {s[|s| - 1].id} {
      var i :| 0 <= i < |s| && s[i].id == k;
      if i < |init| { assert init[i] == s[i]; }
    }
    forall k | k in IdSet(init) ensures k in IdSet(s) {
      var i :| 0 <= i < |init| && init[i].id == k;
      assert s[i] == init[i];
    }
  }

  /** There are at most as many ids as cards, and exactly as many when they are distinct. */
  lemma {:induction false} IdSetSize(s: seq<Flashcard>)
    ensures |IdSet(s)| <= |s|
    ensures DistinctIds(s) ==> |IdSet(s)| == |s|
  {
    if s != [] {
      IdSetCons(s);
      IdSetSize(s[1..]);
    }
  }
}
