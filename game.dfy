/** The MemoryGame object of script.js: its state, the click state
    machine, the timer tick, and saving and loading a game. The browser
    is replaced by parameters: `draws` are the values Math.random returns,
    `now` is Date.now(), and a stored game is passed to LoadGame as an
    Option. The deferred callbacks are explicit methods: Tick for the
    100 ms interval body and ResolveMismatch for the 1 s timeout body. */
module Game {
  import opened Wrappers
  import opened Deck
  import opened Board
  import opened Clock

  /** The eight image paths the game is played with. */
  const CardImages: seq<string> := [
    "assets/css.png", "assets/git.png", "assets/html.png", "assets/js.png",
    "assets/node.png", "assets/php.png", "assets/react.png", "assets/vue.png"
  ]

  lemma CardImagesOk()
    ensures ImagesOk(CardImages) && |CardImages| == 8
  {
    assert forall i :: 0 <= i < 8 ==> CardImages[i][7] == "cghjnprv"[i];
  }

  /** The object saveGame writes to storage and loadGame reads back. */
  datatype Snapshot = Snapshot(
    cards: seq<Card>,
    flippedCards: seq<int>,
    matchedPairs: seq<Pair>,
    moves: nat,
    gameStarted: bool,
    gameWon: bool,
    elapsedTime: int,
    startTime: Option<int>)

  /** A snapshot of a game played with `images` that obeys the board rules. */
  ghost predicate ConsistentSnapshot(images: seq<string>, snap: Snapshot)
  {
    Consistent(images, snap.cards, snap.flippedCards, snap.matchedPairs, snap.gameWon)
  }

  class MemoryGame {
    const cardImages: seq<string>
    var cards: seq<Card>
    /** Slots face up and not yet resolved, in the order they were clicked. */
    var flippedCards: seq<int>
    var matchedPairs: seq<Pair>
    var moves: nat
    var gameStarted: bool
    var gameWon: bool
    var startTime: Option<int>
    var elapsedTime: int
    /** `timerInterval !== null`: the 100 ms tick is registered. */
    var timerRunning: bool
    /** Deferred mismatch clears that checkMatch scheduled and that have
        not run yet. */
    var pendingClears: nat

    /** The object invariant: the board rules, the timer runs whenever the
        clock should advance and never while the game is not started, and a
        pending mismatch always has a clear scheduled to turn it back. */
    ghost predicate Valid()
      reads this
    {
      && Consistent(cardImages, cards, flippedCards, matchedPairs, gameWon)
      && (timerRunning ==> gameStarted)
      && (gameStarted && !gameWon ==> timerRunning)
      && (|flippedCards| == 2 ==> pendingClears > 0)
    }

    /** The guard of handleCardClick: the click turns a card over only if
        fewer than two are face up and the slot is neither face up nor in a
        matched pair. */
    predicate CanFlip(cardIndex: int)
      reads this
    {
      !(|flippedCards| >= 2 || cardIndex in flippedCards || IsMatched(matchedPairs, cardIndex))
    }

    /** `new MemoryGame()`: the eight images, then initializeGame. */
    constructor (draws: seq<real>)
      requires AllDraws(draws) && |draws| == DrawCount(2 * |CardImages|)
      ensures Valid()
      ensures cardImages == CardImages && |cards| == 16
      ensures cards == Shuffled(FreshDeck(CardImages), Picks(draws, 2 * |CardImages|))
      ensures flippedCards == [] && matchedPairs == [] && moves == 0
      ensures !gameStarted && !gameWon && startTime == None && elapsedTime == 0
      ensures !timerRunning && pendingClears == 0
    {
      cardImages := CardImages;
      pendingClears := 0;
      new;
      CardImagesOk();
      InitializeGame(draws);
    }

    /** initializeGame: a freshly shuffled deck and every counter, flag and
        clock back to its start value. Clears already scheduled are not
        cancelled. */
    method InitializeGame(draws: seq<real>)
      requires ImagesOk(cardImages)
      requires AllDraws(draws) && |draws| == DrawCount(2 * |cardImages|)
      modifies this
      ensures Valid()
      ensures cards == Shuffled(FreshDeck(cardImages), Picks(draws, 2 * |cardImages|))
      ensures flippedCards == [] && matchedPairs == [] && moves == 0
      ensures !gameStarted && !gameWon && startTime == None && elapsedTime == 0
      ensures !timerRunning && pendingClears == old(pendingClears)
    {
      var deck := CreateCards(cardImages, draws);
      NewBoard(cardImages, deck);
      cards := deck;
      flippedCards := [];
      matchedPairs := [];
      moves := 0;
      gameStarted := false;
      gameWon := false;
      startTime := None;
      elapsedTime := 0;
      timerRunning := false;
    }

    /** startGame: the game is running from `now` and the tick is registered. */
    method StartGame(now: int)
      requires Valid() && !gameStarted
      modifies this
      ensures Valid()
      ensures gameStarted && startTime == Some(now) && timerRunning
      ensures cards == old(cards) && flippedCards == old(flippedCards) && matchedPairs == old(matchedPairs)
      ensures moves == old(moves) && gameWon == old(gameWon) && elapsedTime == old(elapsedTime)
      ensures pendingClears == old(pendingClears)
    {
      gameStarted := true;
      startTime := Some(now);
      timerRunning := true;
    }

    /** endGame: the game is won, no longer started, and the tick removed. */
    method EndGame()
      modifies this
      ensures gameWon && !gameStarted && !timerRunning
      ensures cards == old(cards) && flippedCards == old(flippedCards) && matchedPairs == old(matchedPairs)
      ensures moves == old(moves) && startTime == old(startTime) && elapsedTime == old(elapsedTime)
      ensures pendingClears == old(pendingClears)
    {
      gameWon := true;
      gameStarted := false;
      timerRunning := false;
    }

    /** handleCardClick. The first click of a game starts it, whether or
        not the card can be turned. A card is turned only when CanFlip
        allows it; turning the second card of a turn counts one move and
        resolves the pair. */
    method HandleCardClick(cardIndex: int, now: int)
      requires Valid() && 0 <= cardIndex < |cards|
      modifies this
      ensures Valid()
      ensures cards == old(cards) && elapsedTime == old(elapsedTime)
      ensures old(gameStarted) ==> startTime == old(startTime)
      ensures !old(gameStarted) ==> startTime == Some(now)
      ensures gameStarted <==> !(gameWon && !old(gameWon))
      ensures !old(gameStarted) && gameStarted ==> timerRunning
      ensures old(gameStarted) && gameStarted ==> timerRunning == old(timerRunning)
      // a rejected click changes nothing else
      ensures !old(CanFlip(cardIndex)) ==>
        && flippedCards == old(flippedCards) && matchedPairs == old(matchedPairs)
        && moves == old(moves) && gameWon == old(gameWon) && pendingClears == old(pendingClears)
      // after a win every click is rejected
      ensures old(gameWon) ==> !old(CanFlip(cardIndex))
      // the first card of a turn
      ensures old(CanFlip(cardIndex)) && |old(flippedCards)| == 0 ==>
        && flippedCards == [cardIndex] && matchedPairs == old(matchedPairs)
        && moves == old(moves) && gameWon == old(gameWon) && pendingClears == old(pendingClears)
      // the second card of a turn: one move, then a match or a pending mismatch
      ensures old(CanFlip(cardIndex)) && |old(flippedCards)| == 1 ==>
        var first := old(flippedCards)[0];
        && moves == old(moves) + 1
        && (cards[first].image == cards[cardIndex].image ==>
              && matchedPairs == old(matchedPairs) + [Pair(first, cardIndex)]
              && flippedCards == [] && pendingClears == old(pendingClears)
              && gameWon == (|matchedPairs| == |cardImages|))
        && (cards[first].image != cards[cardIndex].image ==>
              && matchedPairs == old(matchedPairs) && gameWon == old(gameWon)
              && flippedCards == [first, cardIndex] && pendingClears == old(pendingClears) + 1)
    {
      if gameWon {
        AllSlotsMatched(cardImages, cards, matchedPairs);
      }
      if !gameStarted {
        StartGame(now);
      }
      if !CanFlip(cardIndex) {
        return;
      }
      flippedCards := flippedCards + [cardIndex];
      if |flippedCards| == 2 {
        moves := moves + 1;
        CheckMatch();
      }
    }

    /** The state checkMatch is called in: a second card has just been
        turned, so two unmatched slots are face up. */
    ghost predicate AwaitingCheck()
      reads this
    {
      && DeckOk(cardImages, cards)
      && PairsOk(cards, matchedPairs)
      && SelectionOk(cards, matchedPairs, flippedCards)
      && |flippedCards| == 2
      && (gameWon <==> |matchedPairs| == |cardImages|)
      && (timerRunning ==> gameStarted)
      && (gameStarted && !gameWon ==> timerRunning)
    }

    /** checkMatch: two face-up cards with the same image become a matched
        pair, and the game ends when every image is matched; otherwise
        both stay face up and a clear is scheduled. */
    method CheckMatch()
      requires AwaitingCheck()
      modifies this
      ensures Valid()
      ensures cards == old(cards) && moves == old(moves)
      ensures startTime == old(startTime) && elapsedTime == old(elapsedTime)
      ensures var first, second := old(flippedCards)[0], old(flippedCards)[1];
        if cards[first].image == cards[second].image then
          && matchedPairs == old(matchedPairs) + [Pair(first, second)]
          && flippedCards == [] && pendingClears == old(pendingClears)
          && !old(gameWon)
          && gameWon == (|matchedPairs| == |cardImages|)
          && (gameWon ==> !gameStarted && !timerRunning)
          && (!gameWon ==> gameStarted == old(gameStarted) && timerRunning == old(timerRunning))
        else
          && matchedPairs == old(matchedPairs) && flippedCards == old(flippedCards)
          && pendingClears == old(pendingClears) + 1
          && gameWon == old(gameWon) && gameStarted == old(gameStarted) && timerRunning == old(timerRunning)
    {
      var firstIndex, secondIndex := flippedCards[0], flippedCards[1];
      if cards[firstIndex].image == cards[secondIndex].image {
        AddPair(cardImages, cards, matchedPairs, Pair(firstIndex, secondIndex));
        matchedPairs := matchedPairs + [Pair(firstIndex, secondIndex)];
        flippedCards := [];
        if |matchedPairs| == |cardImages| {
          EndGame();
        }
      } else {
        pendingClears := pendingClears + 1;
      }
    }

    /** The body of the 1 s timeout checkMatch schedules on a mismatch:
        both cards go face down. It runs whatever happened meanwhile. */
    method ResolveMismatch()
      requires pendingClears > 0
      modifies this
      ensures old(Valid()) ==> Valid()
      ensures flippedCards == [] && pendingClears == old(pendingClears) - 1
      ensures cards == old(cards) && matchedPairs == old(matchedPairs) && moves == old(moves)
      ensures gameStarted == old(gameStarted) && gameWon == old(gameWon)
      ensures startTime == old(startTime) && elapsedTime == old(elapsedTime)
      ensures timerRunning == old(timerRunning)
    {
      flippedCards := [];
      pendingClears := pendingClears - 1;
    }

    /** The body of the 100 ms interval: the elapsed time follows the clock
        only while the game is started and not won, so it is frozen once
        the game is won. */
    method Tick(now: int)
      modifies this
      ensures gameStarted && !gameWon ==> elapsedTime == ElapsedAt(startTime, now)
      ensures !(gameStarted && !gameWon) ==> elapsedTime == old(elapsedTime)
      ensures old(Valid()) ==> Valid()
      ensures cards == old(cards) && flippedCards == old(flippedCards) && matchedPairs == old(matchedPairs)
      ensures moves == old(moves) && gameStarted == old(gameStarted) && gameWon == old(gameWon)
      ensures startTime == old(startTime) && timerRunning == old(timerRunning)
      ensures pendingClears == old(pendingClears)
    {
      if gameStarted && !gameWon {
        elapsedTime := ElapsedAt(startTime, now);
      }
    }

    /** The snapshot saveGame stores at time `now`: the game's fields as
        they are, with the start time moved so that resuming the clock
        from it continues the elapsed time. */
    function SaveGame(now: int): (snap: Snapshot)
      reads this
      ensures snap.cards == cards && snap.flippedCards == flippedCards && snap.matchedPairs == matchedPairs
      ensures snap.moves == moves && snap.gameStarted == gameStarted && snap.gameWon == gameWon
      ensures snap.elapsedTime == elapsedTime
      ensures Truthy(startTime) ==> forall later :: ElapsedAt(snap.startTime, later) == elapsedTime + (later - now)
      ensures !Truthy(startTime) ==> snap.startTime == None
      ensures Valid() ==> ConsistentSnapshot(cardImages, snap)
    {
      Snapshot(cards, flippedCards, matchedPairs, moves, gameStarted, gameWon, elapsedTime,
               SavedStartTime(startTime, elapsedTime, now))
    }

    /** loadGame as the source has it: nothing happens when no game is
        stored; otherwise the timer is removed, every field is copied from
        the snapshot unchecked, and the timer restarts when the restored
        game is started and not won. A restored pending mismatch gets no
        clear scheduled. */
    method LoadGameAsWritten(stored: Option<Snapshot>)
      modifies this
      ensures stored.None? ==> unchanged(this)
      ensures stored.Some? ==>
        var snap := stored.value;
        && cards == snap.cards && flippedCards == snap.flippedCards && matchedPairs == snap.matchedPairs
        && moves == snap.moves && gameStarted == snap.gameStarted && gameWon == snap.gameWon
        && elapsedTime == snap.elapsedTime && startTime == snap.startTime
        && timerRunning == (snap.gameStarted && !snap.gameWon)
        && pendingClears == old(pendingClears)
        && (Valid() <==> ConsistentSnapshot(cardImages, snap) && (|snap.flippedCards| == 2 ==> pendingClears > 0))
    {
      if stored.None? {
        return;
      }
      var gameState := stored.value;
      timerRunning := false;
      cards := gameState.cards;
      flippedCards := gameState.flippedCards;
      matchedPairs := gameState.matchedPairs;
      moves := gameState.moves;
      gameStarted := gameState.gameStarted;
      gameWon := gameState.gameWon;
      elapsedTime := gameState.elapsedTime;
      startTime := gameState.startTime;
      if gameStarted && !gameWon {
        timerRunning := true;
      }
    }

    /** loadGame with the restored pending mismatch given its clear, as
        checkMatch would have scheduled it, unless a clear is already
        scheduled on this page (that one turns the restored cards back).
        Loading a consistent snapshot gives a valid game. */
    method LoadGame(stored: Option<Snapshot>)
      modifies this
      ensures stored.None? ==> unchanged(this)
      ensures stored.Some? ==>
        var snap := stored.value;
        && cards == snap.cards && flippedCards == snap.flippedCards && matchedPairs == snap.matchedPairs
        && moves == snap.moves && gameStarted == snap.gameStarted && gameWon == snap.gameWon
        && elapsedTime == snap.elapsedTime && startTime == snap.startTime
        && timerRunning == (snap.gameStarted && !snap.gameWon)
        && pendingClears == (if |snap.flippedCards| == 2 && old(pendingClears) == 0 then 1 else old(pendingClears))
        && (Valid() <==> ConsistentSnapshot(cardImages, snap))
    {
      LoadGameAsWritten(stored);
      if stored.Some? && |flippedCards| == 2 && pendingClears == 0 {
        pendingClears := 1;
      }
    }

    /** saveGame followed by loadGame as written on the same page gives
        back the same game: deck, face-up slots, pairs, moves, flags and
        elapsed time; the timer runs if the game is started and not won,
        the resumed clock continues from the saved elapsed time, and the
        clears already scheduled are the ones still pending. */
    method SaveThenLoad(now: int)
      requires Valid()
      modifies this
      ensures Valid()
      ensures cards == old(cards) && flippedCards == old(flippedCards) && matchedPairs == old(matchedPairs)
      ensures moves == old(moves) && gameStarted == old(gameStarted) && gameWon == old(gameWon)
      ensures elapsedTime == old(elapsedTime)
      ensures timerRunning == (gameStarted && !gameWon)
      ensures Truthy(old(startTime)) ==> forall later :: ElapsedAt(startTime, later) == elapsedTime + (later - now)
      ensures pendingClears == old(pendingClears)
    {
      var snap := SaveGame(now);
      LoadGameAsWritten(Some(snap));
    }
  }

  /** A game saved while two mismatched cards are face up and loaded into
      a freshly opened page (no clear scheduled) by loadGame as written:
      both cards stay face up for good and every click is rejected. */
  method ReloadDuringMismatch(saved: Snapshot, draws: seq<real>) returns (g: MemoryGame)
    requires ConsistentSnapshot(CardImages, saved) && |saved.flippedCards| == 2
    requires AllDraws(draws) && |draws| == DrawCount(2 * |CardImages|)
    ensures g.flippedCards == saved.flippedCards && g.pendingClears == 0
    ensures forall i :: !g.CanFlip(i)
    ensures !g.Valid()
  {
    g := new MemoryGame(draws);
    g.LoadGameAsWritten(Some(saved));
  }

  /** The same reload with LoadGame: the restored mismatch has its clear
      scheduled, and once it has run the game accepts clicks again. */
  method ReloadDuringMismatchRepaired(saved: Snapshot, draws: seq<real>) returns (g: MemoryGame)
    requires ConsistentSnapshot(CardImages, saved) && |saved.flippedCards| == 2
    requires AllDraws(draws) && |draws| == DrawCount(2 * |CardImages|)
    ensures g.Valid() && g.flippedCards == []
    ensures g.cards == saved.cards && g.matchedPairs == saved.matchedPairs && g.moves == saved.moves
    ensures forall i :: 0 <= i < |g.cards| && !IsMatched(g.matchedPairs, i) ==> g.CanFlip(i)
  {
    g := new MemoryGame(draws);
    g.LoadGame(Some(saved));
    g.ResolveMismatch();
  }
}
