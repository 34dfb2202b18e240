/** The application root (App.tsx): the library of decks, the active deck and the view,
    the startup choice between the stored library and a legacy single deck, and the
    handlers that add, merge, delete and select decks. The two storage slots are held as
    their parsed contents; `saveLibrary` writes the library slot. */
module App {
  import opened Seqs
  import opened Types
  import Srs
  import StudySession

  datatype View = UploadView | LibraryView | StudyView

  /** Position `i` of `updates` holds the last card with its id. */
  predicate IsLastWithId(updates: seq<Flashcard>, i: int)
  {
    0 <= i < |updates| && forall j :: i < j < |updates| ==> updates[j].id != updates[i].id
  }

  /** A last occurrence before the final position is also last in the prefix without it. */
  lemma LastInPrefix(updates: seq<Flashcard>)
    requires updates != []
    ensures forall i :: IsLastWithId(updates, i) && i < |updates| - 1 ==>
      IsLastWithId(updates[..|updates| - 1], i) && updates[i].id != updates[|updates| - 1].id
  {
  }

  /** `new Map(updatedCards.map(c => [c.id, c]))`: each id maps to the last card that
      carries it. */
  function UpdatedMap(updates: seq<Flashcard>): (m: map<string, Flashcard>)
    ensures m.Keys == IdSet(updates)
    ensures forall k :: k in m ==> m[k].id == k
    ensures forall i :: IsLastWithId(updates, i) ==> m[updates[i].id] == updates[i]
    decreases |updates|
  {
    if updates == [] then map[]
    else
      var init, last := updates[..|updates| - 1], updates[|updates| - 1];
      var m := UpdatedMap(init);
      IdSetSnoc(updates);
      LastInPrefix(updates);
      m[last.id := last]
  }

  /** The merge in `handleSessionComplete`: every card of the active deck is replaced by
      the last updated card with its id, if there is one, and kept otherwise. */
  function MergeCards(cards: seq<Flashcard>, updates: seq<Flashcard>): (r: seq<Flashcard>)
    ensures |r| == |cards| && Ids(r) == Ids(cards)
    ensures forall i :: 0 <= i < |cards| && cards[i].id !in IdSet(updates) ==> r[i] == cards[i]
    ensures forall i, j :: 0 <= i < |cards| && IsLastWithId(updates, j) && updates[j].id == cards[i].id ==> r[i] == updates[j]
  {
    var m := UpdatedMap(updates);
    var r := seq(|cards|, i requires 0 <= i < |cards| => if cards[i].id in m then m[cards[i].id] else cards[i]);
    assert forall i :: 0 <= i < |cards| ==> Ids(r)[i] == Ids(cards)[i];
    r
  }

  /** Sending back a working copy with the deck's own ids, all distinct, makes the
      merged deck exactly that copy: nothing is lost or duplicated on the way back. */
  lemma MergeOfSameIds(cards: seq<Flashcard>, working: seq<Flashcard>)
    requires Ids(working) == Ids(cards) && DistinctIds(working)
    ensures MergeCards(cards, working) == working
  {
    var r := MergeCards(cards, working);
    forall i | 0 <= i < |cards| ensures r[i] == working[i] {
      assert Ids(working)[i] == Ids(cards)[i];
      assert IsLastWithId(working, i);
    }
  }

  /** The study session started on the active deck's cards (distinct ids) reports a
      working copy that the merge takes over unchanged, in any state of the session. */
  lemma MergeOfSession(cards: seq<Flashcard>, session: StudySession.Session)
    requires DistinctIds(cards) && session.Valid() && session.deckIds == Ids(cards)
    ensures MergeCards(cards, session.workingDeck) == session.workingDeck
  {
    var w := session.workingDeck;
    assert DistinctIds(w) by {
      forall i, j | 0 <= i < j < |w| ensures w[i].id != w[j].id {
        assert Ids(w)[i] == Ids(cards)[i] && Ids(w)[j] == Ids(cards)[j];
      }
    }
    MergeOfSameIds(cards, w);
  }

  /** `library.map(d => d.id === updated.id ? updated : d)`. */
  function ReplaceDeck(library: seq<Deck>, updated: Deck): (r: seq<Deck>)
    ensures |r| == |library|
    ensures forall i :: 0 <= i < |library| ==> r[i] == if library[i].id == updated.id then updated else library[i]
  {
    ReplaceByKey(library, DeckId, updated)
  }

  function OtherThan(id: string): Deck -> bool
  {
    (d: Deck) => d.id != id
  }

  /** `library.filter(d => d.id !== id)`. */
  function DeleteDeck(library: seq<Deck>, id: string): (r: seq<Deck>)
    ensures |r| <= |library|
    ensures forall i :: 0 <= i < |r| ==> r[i] in library && r[i].id != id
    ensures forall i :: 0 <= i < |library| && library[i].id != id ==> library[i] in r
  {
    Filter(library, OtherThan(id))
  }

  /** Deletion keeps the surviving decks in their order. */
  lemma DeleteKeepsOrder(a: seq<Deck>, b: seq<Deck>, id: string)
    ensures DeleteDeck(a + b, id) == DeleteDeck(a, id) + DeleteDeck(b, id)
  {
    FilterAppend(a, b, OtherThan(id));
  }

  /** Deleting an id no deck has leaves the library as it was. */
  lemma DeleteAbsent(library: seq<Deck>, id: string)
    requires forall i :: 0 <= i < |library| ==> library[i].id != id
    ensures DeleteDeck(library, id) == library
  {
    FilterAll(library, OtherThan(id));
  }

  /** `[newDeck, ...library]`. */
  function AddDeck(library: seq<Deck>, newDeck: Deck): (r: seq<Deck>)
    ensures |r| == |library| + 1 && r[0] == newDeck && r[1..] == library
  {
    [newDeck] + library
  }

  /** What the generator returns: a deck of cards in the "new" scheduling state. The
      ids come from the generator; `now` is its clock reading. */
  function GeneratedDeck(id: string, name: string, contents: seq<(string, string, string)>, now: int): (d: Deck)
    ensures d.id == id && d.createdAt == now && |d.cards| == |contents|
    ensures forall i :: 0 <= i < |contents| ==>
      var (cardId, front, back) := contents[i];
      d.cards[i].id == cardId && d.cards[i].front == front && d.cards[i].back == back &&
      Srs.IsUnscheduled(d.cards[i], now)
  {
    Deck(id, name,
      seq(|contents|, i requires 0 <= i < |contents| =>
        Srs.CreateInitialFlashcard(contents[i].0, contents[i].1, contents[i].2, now)),
      now)
  }

  /** The outcome of the mount effect: the library, the view and what it saves. */
  datatype Startup = Startup(library: seq<Deck>, view: View, save: Option<seq<Deck>>)

  /** The load decision on mount. `stored` is the parsed library slot (absent when it is
      missing, fails to parse or is not an array); `legacy` the parsed legacy slot when it
      holds a record with cards. */
  function LoadLibrary(stored: Option<seq<Deck>>, legacy: Option<Deck>): (s: Startup)
    ensures stored.Some? && stored.value != [] ==> s == Startup(stored.value, LibraryView, None)
    ensures (stored.None? || stored.value == []) && legacy.Some? ==>
      s == Startup([legacy.value], LibraryView, Some([legacy.value]))
    ensures (stored.None? || stored.value == []) && legacy.None? ==> s == Startup([], UploadView, None)
    ensures s.save.Some? ==> s.save.value == s.library
    ensures s.view == LibraryView <==> s.library != []
  {
    if stored.Some? && |stored.value| > 0 then Startup(stored.value, LibraryView, None)
    else if legacy.Some? then Startup([legacy.value], LibraryView, Some([legacy.value]))
    else Startup([], UploadView, None)
  }

  /** Migration happens once: loading again after the startup save (the legacy slot
      left in place) gives the same library and view and saves nothing. */
  lemma ReloadIsStable(stored: Option<seq<Deck>>, legacy: Option<Deck>)
    ensures
      var s := LoadLibrary(stored, legacy);
      var again := LoadLibrary(if s.save.Some? then s.save else stored, legacy);
      again.library == s.library && again.view == s.view && again.save.None?
  {
  }

  class AppState {
    var library: seq<Deck>
    var activeDeck: Option<Deck>
    var view: View
    /** The parsed contents of the library storage slot. */
    var storedLibrary: Option<seq<Deck>>
    /** The parsed contents of the legacy slot; the app never writes it. */
    const storedLegacy: Option<Deck>

    /** A non-empty library is always the one in storage, and the study view always has
        a deck to study. */
    ghost predicate Valid()
      reads this
    {
      && (library != [] ==> storedLibrary == Some(library))
      && (view == StudyView ==> activeDeck.Some?)
    }

    /** The initial state plus the mount effect. */
    constructor (stored: Option<seq<Deck>>, legacy: Option<Deck>)
      ensures Valid() && activeDeck == None && storedLegacy == legacy
      ensures library == LoadLibrary(stored, legacy).library && view == LoadLibrary(stored, legacy).view
      ensures storedLibrary == if LoadLibrary(stored, legacy).save.Some? then LoadLibrary(stored, legacy).save else stored
    {
      var s := LoadLibrary(stored, legacy);
      library := s.library;
      activeDeck := None;
      view := s.view;
      storedLegacy := legacy;
      storedLibrary := if s.save.Some? then s.save else stored;
    }

    /** `handleGenerate` once the generator has answered: `None` when it failed (an
        alert; nothing changes), else the new deck heads the library, is saved and is
        studied at once. */
    method Generate(generated: Option<Deck>)
      requires Valid()
      modifies this
      ensures Valid()
      ensures generated.None? ==>
        library == old(library) && activeDeck == old(activeDeck) && view == old(view) && storedLibrary == old(storedLibrary)
      ensures generated.Some? ==>
        library == AddDeck(old(library), generated.value) && storedLibrary == Some(library) &&
        activeDeck == generated && view == StudyView
    {
      if generated.None? {
        return;
      }
      library := AddDeck(library, generated.value);
      storedLibrary := Some(library);
      activeDeck := generated;
      view := StudyView;
    }

    /** `handleSessionComplete(updatedCards)`: without an active deck nothing changes;
        otherwise the updates are merged into the active deck, which replaces the deck
        with its id in the library, and the library is saved. */
    method SessionComplete(updatedCards: seq<Flashcard>)
      requires Valid()
      modifies this
      ensures Valid() && view == old(view)
      ensures old(activeDeck).None? ==>
        library == old(library) && activeDeck == old(activeDeck) && storedLibrary == old(storedLibrary)
      ensures old(activeDeck).Some? ==>
        var updated := old(activeDeck).value.(cards := MergeCards(old(activeDeck).value.cards, updatedCards));
        activeDeck == Some(updated) && library == ReplaceDeck(old(library), updated) &&
        storedLibrary == Some(library)
    {
      if activeDeck.None? {
        return;
      }
      var active := activeDeck.value;
      var updatedDeck := active.(cards := MergeCards(active.cards, updatedCards));
      activeDeck := Some(updatedDeck);
      library := ReplaceDeck(library, updatedDeck);
      storedLibrary := Some(library);
    }

    /** `handleDeleteDeck(id)`, the confirmation already given. */
    method DeleteDeckById(id: string)
      requires Valid()
      modifies this`library, this`storedLibrary
      ensures Valid()
      ensures library == DeleteDeck(old(library), id) && storedLibrary == Some(library)
    {
      library := DeleteDeck(library, id);
      storedLibrary := Some(library);
    }

    /** `handleSelectDeck(deck)`. */
    method SelectDeck(deck: Deck)
      requires Valid()
      modifies this`activeDeck, this`view
      ensures Valid() && activeDeck == Some(deck) && view == StudyView
    {
      activeDeck := Some(deck);
      view := StudyView;
    }

    /** `handleExitStudy`: back to the library with no active deck; nothing is saved. */
    method ExitStudy()
      requires Valid()
      modifies this`activeDeck, this`view
      ensures Valid() && activeDeck == None && view == LibraryView
    {
      view := LibraryView;
      activeDeck := None;
    }
  }
}
