// The app's own state around the deck: the chosen ids and cards, the running point
// total, the score, and the two verdict flags of the check and submit buttons.
// The validator is outside the model: a call is a returned word, its answer an
// event method carrying a boolean.
module App {
  import opened Collections
  import opened PointCard
  import opened CardLookup
  import opened Minting
  import opened FisherYates
  import opened CardDeck
  import opened Selection

  class Game {
    const deck: Deck
    var usedCardIds: seq<int>
    var usedCards: seq<Card>
    var pointTotal: int
    var score: int
    /** The check button's verdict; `None` is `undefined`. */
    var shouldAcceptWord: Option<bool>
    /** The submit button's verdict; `None` is `undefined`. */
    var willAcceptWord: Option<bool>

    constructor (deck: Deck)
      ensures this.deck == deck
      ensures usedCardIds == [] && usedCards == [] && pointTotal == 0 && score == 0
      ensures shouldAcceptWord == None && willAcceptWord == None
    {
      this.deck := deck;
      usedCardIds, usedCards := [], [];
      pointTotal, score := 0, 0;
      shouldAcceptWord, willAcceptWord := None, None;
    }

    /** The chosen cards are exactly the cards the chosen ids name, in order. */
    ghost predicate SelectionMatches()
      reads this, deck
    {
      usedCards == FoundCards(deck.allCards, usedCardIds)
    }

    method AddToScore(newScore: int)
      modifies this`score
      ensures score == old(score) + newScore
    {
      var prevScore := score;
      score := newScore + prevScore;
    }

    /** Records the id, and the card when the table has one, and clears the check verdict. */
    method ChooseCard(cardId: int)
      modifies this`usedCards, this`usedCardIds, this`shouldAcceptWord
      ensures usedCardIds == old(usedCardIds) + [cardId]
      ensures usedCards == old(usedCards) + OptionToSeq(Lookup(deck.allCards, cardId))
      ensures shouldAcceptWord == None
      ensures old(SelectionMatches()) ==> SelectionMatches()
    {
      var card := Lookup(deck.allCards, cardId);
      if card.Some? {
        usedCards := usedCards + [card.value];
      }
      ghost var before := usedCardIds;
      usedCardIds := usedCardIds + [cardId];
      shouldAcceptWord := None;
      FoundCardsAppend(deck.allCards, before, [cardId]);
      assert [cardId][1..] == [];
    }

    /** Drops every occurrence of the id, and every card carrying it, and clears the check verdict. */
    method UnChooseCard(id: int)
      modifies this`usedCards, this`usedCardIds, this`shouldAcceptWord
      ensures usedCards == Without(old(usedCards), CardId, id)
      ensures usedCardIds == Without(old(usedCardIds), Ident, id)
      ensures id !in usedCardIds
      ensures shouldAcceptWord == None
      ensures old(SelectionMatches()) ==> SelectionMatches()
    {
      FoundCardsWithout(deck.allCards, usedCardIds, id);
      var filteredCards := Without(usedCards, CardId, id);
      usedCards := filteredCards;
      var filteredIds := Without(usedCardIds, Ident, id);
      usedCardIds := filteredIds;
      shouldAcceptWord := None;
    }

    /** A click on a tile: un-choose it when its id is chosen, choose it otherwise. */
    method ClickCard(id: int)
      modifies this`usedCards, this`usedCardIds, this`shouldAcceptWord
      ensures id in old(usedCardIds) ==> usedCardIds == Without(old(usedCardIds), Ident, id)
      ensures id !in old(usedCardIds) ==> usedCardIds == old(usedCardIds) + [id]
      ensures id in old(usedCardIds) ==> usedCards == Without(old(usedCards), CardId, id)
      ensures id !in old(usedCardIds) ==>
        usedCards == old(usedCards) + OptionToSeq(Lookup(deck.allCards, id))
      ensures id in old(usedCardIds) <==> id !in usedCardIds
      ensures shouldAcceptWord == None
      ensures NoDuplicates(old(usedCardIds)) ==> NoDuplicates(usedCardIds)
      ensures old(SelectionMatches()) ==> SelectionMatches()
    {
      if id in usedCardIds {
        if NoDuplicates(usedCardIds) {
          WithoutKeepsNoDuplicates(usedCardIds, Ident, id);
        }
        UnChooseCard(id);
      } else {
        ChooseCard(id);
      }
    }

    method ResetChecks()
      modifies this`shouldAcceptWord, this`willAcceptWord
      ensures shouldAcceptWord == None && willAcceptWord == None
    {
      shouldAcceptWord := None;
      willAcceptWord := None;
    }

    /** Empties the selection and clears both verdicts; score and point total stay. */
    method Reset()
      modifies this`usedCards, this`usedCardIds, this`shouldAcceptWord, this`willAcceptWord
      ensures usedCards == [] && usedCardIds == []
      ensures shouldAcceptWord == None && willAcceptWord == None
      ensures SelectionMatches()
    {
      usedCards := [];
      usedCardIds := [];
      ResetChecks();
    }

    /** Pushes the letter of every chosen id that names a card, then joins and lower-cases. */
    method GetWordFromCards() returns (word: string)
      ensures word == WordOf(deck.allCards, usedCardIds)
    {
      var letters: seq<string> := [];
      var k := 0;
      while k < |usedCardIds|
        invariant 0 <= k <= |usedCardIds|
        invariant letters == LettersOf(FoundCards(deck.allCards, usedCardIds[..k]))
      {
        var id := usedCardIds[k];
        var card := Lookup(deck.allCards, id);
        if card.Some? {
          letters := letters + [card.value.letter];
        }
        LettersOfStep(deck.allCards, usedCardIds, k);
        k := k + 1;
      }
      assert usedCardIds[..k] == usedCardIds;
      word := Lower(Join(letters));
    }

    /** The point-total effect: with a non-empty selection whose sum is non-zero, the
        total becomes that sum; otherwise it keeps its old value. */
    method RefreshPointTotal()
      modifies this`pointTotal
      ensures |usedCardIds| > 0 && PointSum(deck.allCards, usedCardIds) != 0 ==>
        pointTotal == TotalValue(FoundCards(deck.allCards, usedCardIds))
      ensures |usedCardIds| == 0 || PointSum(deck.allCards, usedCardIds) == 0 ==>
        pointTotal == old(pointTotal)
    {
      if |usedCardIds| <= 0 {
        return;
      }
      var cards := LookupMulti(deck.allCards, usedCardIds);
      var points := SumValues(cards);
      if points != 0 {
        pointTotal := points;
        PointSumIsFoundTotal(deck.allCards, usedCardIds);
      }
    }

    /** The check button: with a verdict on display it only clears both verdicts;
        otherwise it asks the validator about the current word. */
    method CheckWord() returns (request: Option<string>)
      modifies this`shouldAcceptWord, this`willAcceptWord
      ensures old(shouldAcceptWord).Some? ==>
        request == None && shouldAcceptWord == None && willAcceptWord == None
      ensures old(shouldAcceptWord).None? ==>
        request == Some(WordOf(deck.allCards, usedCardIds)) &&
        shouldAcceptWord == old(shouldAcceptWord) && willAcceptWord == old(willAcceptWord)
    {
      if shouldAcceptWord != None {
        ResetChecks();
        return None;
      }
      var word := GetWordFromCards();
      request := Some(word);
    }

    /** The validator has answered a check. */
    method CheckWordResolved(ans: bool)
      modifies this`shouldAcceptWord
      ensures shouldAcceptWord == Some(ans)
    {
      shouldAcceptWord := Some(ans);
    }

    /** The submit button: with no verdict yet it asks the validator about the current
        word; with a verdict on display it only clears both verdicts. */
    method Submit() returns (request: Option<string>)
      modifies this`shouldAcceptWord, this`willAcceptWord
      ensures old(willAcceptWord).None? ==>
        request == Some(WordOf(deck.allCards, usedCardIds)) &&
        shouldAcceptWord == old(shouldAcceptWord) && willAcceptWord == old(willAcceptWord)
      ensures old(willAcceptWord).Some? ==>
        request == None && shouldAcceptWord == None && willAcceptWord == None
    {
      if willAcceptWord == None {
        var word := GetWordFromCards();
        return Some(word);
      }
      if willAcceptWord != None {
        ResetChecks();
        return None;
      }
    }

    /** The validator has answered a submission: the verdict is shown and the point
        total is added to the score, whatever the verdict. */
    method SubmitResolved(ans: bool)
      modifies this`willAcceptWord, this`score
      ensures willAcceptWord == Some(ans)
      ensures score == old(score) + pointTotal
    {
      willAcceptWord := Some(ans);
      AddToScore(pointTotal);
    }

    /** The submission answer as the game's rules intend it: only an accepted word scores. */
    method SubmitResolvedAsIntended(ans: bool)
      modifies this`willAcceptWord, this`score
      ensures willAcceptWord == Some(ans)
      ensures ans ==> score == old(score) + pointTotal
      ensures !ans ==> score == old(score)
    {
      willAcceptWord := Some(ans);
      if ans {
        AddToScore(pointTotal);
      }
    }

    /** The new-game button: reset the selection, then deal from the current pile. */
    method StartNewGame()
      requires deck.Valid()
      modifies this`usedCards, this`usedCardIds, this`shouldAcceptWord, this`willAcceptWord
      modifies deck`gridCards, deck`handCards, deck`cardDeck
      ensures deck.Valid()
      ensures usedCards == [] && usedCardIds == []
      ensures shouldAcceptWord == None && willAcceptWord == None
      ensures deck.gridCards == Slice(old(deck.cardDeck), 0, 9)
      ensures deck.handCards == Slice(old(deck.cardDeck), 9, 12)
      ensures deck.cardDeck == old(deck.cardDeck)[Min(12, |old(deck.cardDeck)|)..]
      ensures deck.gridCards + deck.handCards + deck.cardDeck == old(deck.cardDeck)
      ensures deck.allCards == old(deck.allCards)
    {
      Reset();
      deck.MakeNewDeck();
      deck.Deal();
    }
  }

  /** The one-tile table: a single "A" worth 5, minted with id 101. */
  lemma OneTileMint()
    ensures Minted([Entry("A", 5, 1)], FirstId) == [Card(FirstId, "A", 5)]
    ensures Shuffled([Card(FirstId, "A", 5)], [0]) == [Card(FirstId, "A", 5)]
  {
    var dist := [Entry("A", 5, 1)];
    assert dist[..0] == [];
    assert Run(dist[0], FirstId, 1) == [Card(FirstId, "A", 5)];
    assert Swap([Card(FirstId, "A", 5)], 0, 0) == [Card(FirstId, "A", 5)];
  }

  /** Choosing that tile spells "a" and is worth 5. */
  lemma OneTileSelection()
    ensures FoundCards([Card(FirstId, "A", 5)], [FirstId]) == [Card(FirstId, "A", 5)]
    ensures WordOf([Card(FirstId, "A", 5)], [FirstId]) == "a"
    ensures PointSum([Card(FirstId, "A", 5)], [FirstId]) == 5
  {
    var tile := Card(FirstId, "A", 5);
    assert [FirstId][1..] == [];
    assert LookupMulti([tile], [FirstId]) == [Some(tile)];
    assert [Some(tile)][1..] == [];
    assert SumValues([Some(tile)]) == ValueOrZero(Some(tile)) + SumValues([]);
    assert LettersOf([tile]) == ["A"];
    assert Join(["A"]) == "A" + Join([]);
    assert Lower("A") == "a";
  }

  /** A fresh deck whose table is the one tile. */
  method OneTileDeck() returns (deck: Deck)
    ensures fresh(deck)
    ensures deck.allCards == [Card(FirstId, "A", 5)]
  {
    OneTileMint();
    deck := new Deck();
    deck.MintAndShuffle([Entry("A", 5, 1)], [0]);
  }

  /** A fresh one-tile game with that tile chosen and the point total refreshed. */
  method OneTileGame() returns (game: Game)
    ensures fresh(game) && fresh(game.deck)
    ensures game.deck.allCards == [Card(FirstId, "A", 5)]
    ensures game.usedCardIds == [FirstId]
    ensures game.pointTotal == 5 && game.score == 0 && game.willAcceptWord == None
  {
    var tile := Card(FirstId, "A", 5);
    OneTileSelection();
    var deck := OneTileDeck();
    game := new Game(deck);
    game.ClickCard(FirstId);
    assert game.usedCardIds == [FirstId];
    assert TotalValue([tile]) == 5 by {
      assert [tile][1..] == [];
    }
    game.RefreshPointTotal();
  }

  /** A one-tile game: choose the tile worth 5, submit "a", and the validator rejects
      it. The score still rises by 5. */
  method RejectedWordStillScores() returns (request: Option<string>, score: int)
    ensures request == Some("a")
    ensures score == 5
  {
    var game := OneTileGame();
    OneTileSelection();
    request := game.Submit();
    game.SubmitResolved(false);
    score := game.score;
  }

  /** The same game under the intended rule: the rejected word leaves the score at 0. */
  method RejectedWordAsIntended() returns (request: Option<string>, score: int)
    ensures request == Some("a")
    ensures score == 0
  {
    var game := OneTileGame();
    OneTileSelection();
    request := game.Submit();
    game.SubmitResolvedAsIntended(false);
    score := game.score;
  }
}
