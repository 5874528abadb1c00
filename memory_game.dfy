/** Model of the `MemoryGame` class (script.js:26-193): the deck, the list of
    found cards, the pending first card, the click lock and what each card
    element shows, driven by clicks and by the two `setTimeout` callbacks, which
    here are scheduled fields that the environment fires. */
module Game {
  import opened Shuffle
  import opened Cards

  datatype Option<T> = None | Some(value: T)

  /** What a card element's `src` shows: the back image `doscarte.png`, or a face. */
  datatype CardImage = Back | Face(src: string)

  /** Number of card elements on the page: one per card of the deck. */
  const CardCount: nat := 2 * NumberOfFaces

  /** The two `alert` messages. */
  const WellPlayed: string := "Bien joué !"
  const GameOver: string := "BRAVO ! PARTIE TERMINEE !"

  class MemoryGame {
    /** The shuffled deck; card `i` has face `cardImageSources[i]`. */
    var cardImageSources: seq<string>
    /** Indexes of the found cards, in the order they were found. */
    var foundCardIndexes: seq<int>
    /** The card flipped first in the current turn, or null. */
    var firstFlippedCardIndex: Option<int>
    /** Set while a turn is being resolved: clicks are ignored. */
    var disableClickOnCard: bool
    /** The card elements; the elements stay, their images change. */
    const cardElements: array<CardImage>
    /** A pending turn-end callback (script.js:126-129), carrying the second card. */
    var scheduledTurnEnd: Option<int>
    /** A pending win callback (script.js:156-159): alert, then reset. */
    var scheduledWinReset: bool
    /** The messages shown with `alert`, oldest first. */
    var alerts: seq<string>

    /** The page's card elements, before the game is first reset. */
    constructor ()
      ensures fresh(cardElements) && cardElements.Length == CardCount
      ensures forall i :: 0 <= i < cardElements.Length ==> cardElements[i] == Back
      ensures scheduledTurnEnd == None && !scheduledWinReset && alerts == []
    {
      cardElements := new CardImage[CardCount](_ => Back);
      cardImageSources := [];
      foundCardIndexes := [];
      firstFlippedCardIndex := None;
      disableClickOnCard := false;
      scheduledTurnEnd := None;
      scheduledWinReset := false;
      alerts := [];
    }

    /** What holds in every phase: a deck of twelve cards with each face twice,
        a valid found list, and every card showing its back or its own face. */
    ghost predicate Board()
      reads this, cardElements
    {
      cardElements.Length == CardCount &&
      |cardImageSources| == cardElements.Length &&
      EachFaceTwice(cardImageSources) &&
      FoundListValid(cardImageSources, foundCardIndexes) &&
      forall i :: 0 <= i < cardElements.Length ==>
        cardElements[i] == Back || cardElements[i] == Face(cardImageSources[i])
    }

    /** Every card showing a face is the pending card, a found card or `other`. */
    ghost predicate Revealed(other: Option<int>)
      reads this, cardElements
    {
      forall i :: 0 <= i < cardElements.Length && cardElements[i].Face? ==>
        firstFlippedCardIndex == Some(i) || i in foundCardIndexes || other == Some(i)
    }

    /** A turn on `first` and `second` waits to be resolved: input is locked,
        `first` is pending, `second` is another card, not yet found, shown face up. */
    ghost predicate Resolving(first: int, second: int)
      reads this, cardElements
    {
      Board() && disableClickOnCard && !scheduledWinReset &&
      firstFlippedCardIndex == Some(first) &&
      0 <= first < cardElements.Length && 0 <= second < cardElements.Length &&
      first != second && second !in foundCardIndexes &&
      Revealed(Some(second))
    }

    /** The game's invariant, phase by phase: open for clicks, a turn waiting for
        its callback, or won and waiting for the reset. */
    ghost predicate Valid()
      reads this, cardElements
    {
      Board() &&
      (!disableClickOnCard ==>
         scheduledTurnEnd == None && !scheduledWinReset && Revealed(None) &&
         (firstFlippedCardIndex.Some? ==> 0 <= firstFlippedCardIndex.value < cardElements.Length)) &&
      (scheduledTurnEnd.Some? ==>
         firstFlippedCardIndex.Some? &&
         Resolving(firstFlippedCardIndex.value, scheduledTurnEnd.value)) &&
      (scheduledWinReset ==>
         disableClickOnCard && scheduledTurnEnd == None && Revealed(None) &&
         forall i :: 0 <= i < cardElements.Length ==> i in foundCardIndexes) &&
      (disableClickOnCard ==> scheduledTurnEnd.Some? || scheduledWinReset)
    }

    /** `resetGame` (script.js:36-49): a fresh shuffled deck, every card face
        down, nothing found, nothing pending, clicks allowed. The random indexes
        of the shuffle are `draws`. It is called at start-up and from the win
        callback, when no callback is pending. */
    method ResetGame(draws: seq<nat>)
      requires cardElements.Length == CardCount
      requires ValidDraws(draws, CardCount)
      requires scheduledTurnEnd == None && !scheduledWinReset
      modifies this, cardElements
      ensures Valid()
      ensures cardImageSources == Shuffled(CardImageSources(), draws, "")
      ensures multiset(cardImageSources) == multiset(CardImageSources())
      ensures forall i :: 0 <= i < cardElements.Length ==> cardElements[i] == Back
      ensures foundCardIndexes == [] && firstFlippedCardIndex == None && !disableClickOnCard
      ensures scheduledTurnEnd == None && !scheduledWinReset && alerts == old(alerts)
    {
      var sources := GetCardImageSources();
      // A deck never empty: the value read past its end is never used.
      cardImageSources := ShuffleArray(sources, draws, "");
      ResetAllCardsImageSource();
      foundCardIndexes := [];
      firstFlippedCardIndex := None;
      disableClickOnCard := false;
      CardImageSourcesPaired();
      PermutationKeepsPairs(cardImageSources, sources);
    }

    /** `_getCardImageSources` (script.js:56-63): `carte1.png` to `carte6.png`,
        then the same six again, so each face occurs exactly twice. */
    method GetCardImageSources() returns (result: seq<string>)
      ensures |result| == 2 * NumberOfFaces
      ensures forall k :: 0 <= k < |result| ==> result[k] == CardImageSource(k % NumberOfFaces + 1)
      ensures EachFaceTwice(result)
      ensures result == CardImageSources()
    {
      result := [];
      for i := 1 to NumberOfFaces + 1
        invariant |result| == i - 1
        invariant forall k :: 0 <= k < i - 1 ==> result[k] == CardImageSource(k + 1)
      {
        result := result + [CardImageSource(i)];
      }
      assert result == Faces();
      result := result + result;
      CardImageSourcesPaired();
    }

    /** `_resetAllCardsImageSource` (script.js:69-73): every card face down. */
    method ResetAllCardsImageSource()
      modifies cardElements
      ensures forall i :: 0 <= i < cardElements.Length ==> cardElements[i] == Back
    {
      for i := 0 to cardElements.Length
        invariant forall k :: 0 <= k < i ==> cardElements[k] == Back
      {
        ResetCardElement(i);
      }
    }

    /** `_resetCardElement` (script.js:80-83): card `cardIndex` face down, the others as they were. */
    method ResetCardElement(cardIndex: int)
      requires 0 <= cardIndex < cardElements.Length
      modifies cardElements
      ensures cardElements[..] == old(cardElements[..])[cardIndex := Back]
    {
      cardElements[cardIndex] := Back;
    }

    /** `_isCardFlipped` (script.js:179-191): the pending card or a found card.
        In a valid game a card that is neither, and is not the second card of a
        turn being resolved, shows its back. */
    function IsCardFlipped(cardIndex: int): (flipped: bool)
      reads this, cardElements
      ensures (Valid() && 0 <= cardIndex < cardElements.Length && !flipped &&
               scheduledTurnEnd != Some(cardIndex)) ==> cardElements[cardIndex] == Back
    {
      firstFlippedCardIndex == Some(cardIndex) || cardIndex in foundCardIndexes
    }

    /** `_cardClickedEvent` (script.js:105-131), for a click on card `cardIndex`. */
    method CardClickedEvent(cardIndex: int)
      requires Valid()
      requires 0 <= cardIndex < cardElements.Length
      modifies this, cardElements
      ensures Valid()
      ensures cardImageSources == old(cardImageSources) && foundCardIndexes == old(foundCardIndexes)
      ensures alerts == old(alerts) && scheduledWinReset == old(scheduledWinReset)
      // Input locked, or the pending card or a found card clicked as second card: nothing happens.
      ensures old(disableClickOnCard) ||
              (old(firstFlippedCardIndex).Some? && old(IsCardFlipped(cardIndex))) ==>
                unchanged(this) && unchanged(cardElements)
      // First card of a turn, found or not: shown, pending, input still open.
      ensures !old(disableClickOnCard) && old(firstFlippedCardIndex) == None ==>
                cardElements[..] == old(cardElements[..])[cardIndex := Face(cardImageSources[cardIndex])] &&
                firstFlippedCardIndex == Some(cardIndex) && !disableClickOnCard &&
                scheduledTurnEnd == None
      // Second card, neither pending nor found: shown, input locked, one turn end scheduled.
      ensures !old(disableClickOnCard) && old(firstFlippedCardIndex).Some? &&
              !old(IsCardFlipped(cardIndex)) ==>
                cardElements[..] == old(cardElements[..])[cardIndex := Face(cardImageSources[cardIndex])] &&
                firstFlippedCardIndex == old(firstFlippedCardIndex) && disableClickOnCard &&
                scheduledTurnEnd == Some(cardIndex)
    {
      if disableClickOnCard {
        return;
      }
      if firstFlippedCardIndex == None {
        cardElements[cardIndex] := Face(cardImageSources[cardIndex]);
        firstFlippedCardIndex := Some(cardIndex);
      }
      // Compared with -1, the pending index is never equal: the test always passes.
      if firstFlippedCardIndex != Some(-1) && !IsCardFlipped(cardIndex) {
        disableClickOnCard := true;
        cardElements[cardIndex] := Face(cardImageSources[cardIndex]);
        scheduledTurnEnd := Some(cardIndex);
      }
    }

    /** The turn-end callback (script.js:126-129) fires: `_turnEnded` on the
        pending card, read when it fires, and the second card it carries. */
    method TurnEndTimeout()
      requires Valid() && scheduledTurnEnd.Some?
      modifies this, cardElements
      ensures Valid() && scheduledTurnEnd == None
      ensures cardImageSources == old(cardImageSources)
      // A match: both cards pushed, the display unchanged.
      ensures var first, second := old(firstFlippedCardIndex.value), old(scheduledTurnEnd.value);
              cardImageSources[first] == cardImageSources[second] ==>
                foundCardIndexes == old(foundCardIndexes) + [first, second] &&
                first !in old(foundCardIndexes) &&
                cardElements[..] == old(cardElements[..])
      // Every card found: input stays locked, the pending card stays, the win callback is scheduled.
      ensures var first, second := old(firstFlippedCardIndex.value), old(scheduledTurnEnd.value);
              cardImageSources[first] == cardImageSources[second] &&
              |foundCardIndexes| == |cardImageSources| ==>
                disableClickOnCard && firstFlippedCardIndex == old(firstFlippedCardIndex) &&
                scheduledWinReset && alerts == old(alerts)
      // A pair found, others remain: one alert, the turn is over, input open.
      ensures var first, second := old(firstFlippedCardIndex.value), old(scheduledTurnEnd.value);
              cardImageSources[first] == cardImageSources[second] &&
              |foundCardIndexes| != |cardImageSources| ==>
                alerts == old(alerts) + [WellPlayed] && firstFlippedCardIndex == None &&
                !disableClickOnCard && !scheduledWinReset
      // No match: both cards face down, nothing else shown changes, the turn is over, input open.
      ensures var first, second := old(firstFlippedCardIndex.value), old(scheduledTurnEnd.value);
              cardImageSources[first] != cardImageSources[second] ==>
                cardElements[..] == old(cardElements[..])[first := Back][second := Back] &&
                foundCardIndexes == old(foundCardIndexes) && alerts == old(alerts) &&
                firstFlippedCardIndex == None && !disableClickOnCard && !scheduledWinReset
      // The win test passes exactly when every card has been found.
      ensures scheduledWinReset <==> forall i :: 0 <= i < |cardImageSources| ==> i in foundCardIndexes
    {
      var secondFlippedCardIndex := scheduledTurnEnd.value;
      scheduledTurnEnd := None;
      TurnEnded(firstFlippedCardIndex.value, secondFlippedCardIndex);
    }

    /** `_turnEnded` (script.js:142-171): a match is recorded as found, with a
        win scheduled once every card is found and a "well played" alert
        otherwise; a mismatch turns both cards face down again. */
    method TurnEnded(firstCardIndex: int, secondCardIndex: int)
      requires Resolving(firstCardIndex, secondCardIndex) && scheduledTurnEnd == None
      modifies this, cardElements
      ensures Valid() && scheduledTurnEnd == None
      ensures cardImageSources == old(cardImageSources)
      ensures old(cardImageSources[firstCardIndex] == cardImageSources[secondCardIndex]) ==>
                foundCardIndexes == old(foundCardIndexes) + [firstCardIndex, secondCardIndex] &&
                firstCardIndex !in old(foundCardIndexes) &&
                cardElements[..] == old(cardElements[..])
      // Every card found: input stays locked, the pending card stays, the win callback is scheduled.
      ensures old(cardImageSources[firstCardIndex] == cardImageSources[secondCardIndex]) &&
              |foundCardIndexes| == |cardImageSources| ==>
                disableClickOnCard && firstFlippedCardIndex == old(firstFlippedCardIndex) &&
                scheduledWinReset && alerts == old(alerts)
      // A pair found, others remain: one alert, the turn is over, input open.
      ensures old(cardImageSources[firstCardIndex] == cardImageSources[secondCardIndex]) &&
              |foundCardIndexes| != |cardImageSources| ==>
                alerts == old(alerts) + [WellPlayed] && firstFlippedCardIndex == None &&
                !disableClickOnCard && !scheduledWinReset
      // No match: both cards face down, nothing else shown changes, the turn is over, input open.
      ensures old(cardImageSources[firstCardIndex] != cardImageSources[secondCardIndex]) ==>
                cardElements[..] == old(cardElements[..])[firstCardIndex := Back][secondCardIndex := Back] &&
                foundCardIndexes == old(foundCardIndexes) && alerts == old(alerts) &&
                firstFlippedCardIndex == None && !disableClickOnCard && !scheduledWinReset
      // The win test passes exactly when every card has been found.
      ensures scheduledWinReset <==> forall i :: 0 <= i < |cardImageSources| ==> i in foundCardIndexes
    {
      var firstCardImageSource := cardImageSources[firstCardIndex];
      var secondCardImageSource := cardImageSources[secondCardIndex];
      if firstCardImageSource == secondCardImageSource {
        MatchExtendsFound(cardImageSources, foundCardIndexes, firstCardIndex, secondCardIndex);
        foundCardIndexes := foundCardIndexes + [firstCardIndex];
        foundCardIndexes := foundCardIndexes + [secondCardIndex];
        assert foundCardIndexes == old(foundCardIndexes) + [firstCardIndex, secondCardIndex];
        var numberOfCards := |cardImageSources|;
        var numberOfCardFinded := |foundCardIndexes|;
        AllFoundIffFull(foundCardIndexes, numberOfCards);
        if numberOfCardFinded == numberOfCards {
          scheduledWinReset := true;
        } else {
          alerts := alerts + [WellPlayed];
          firstFlippedCardIndex := None;
          disableClickOnCard := false;
        }
      } else {
        ResetCardElement(firstCardIndex);
        ResetCardElement(secondCardIndex);
        firstFlippedCardIndex := None;
        disableClickOnCard := false;
      }
    }

    /** The win callback (script.js:156-159) fires: the "game over" alert, then
        `resetGame` with the shuffle's random indexes `draws`. */
    method WinResetTimeout(draws: seq<nat>)
      requires Valid() && scheduledWinReset
      requires ValidDraws(draws, CardCount)
      modifies this, cardElements
      ensures Valid()
      ensures alerts == old(alerts) + [GameOver]
      ensures cardImageSources == Shuffled(CardImageSources(), draws, "")
      ensures multiset(cardImageSources) == multiset(CardImageSources())
      ensures forall i :: 0 <= i < cardElements.Length ==> cardElements[i] == Back
      ensures foundCardIndexes == [] && firstFlippedCardIndex == None && !disableClickOnCard
      ensures scheduledTurnEnd == None && !scheduledWinReset
    {
      scheduledWinReset := false;
      alerts := alerts + [GameOver];
      ResetGame(draws);
    }
  }
}
