// The deck hook: the table of every minted tile, the draw pile, the nine-tile grid
// and the three-tile hand, with the operations that move tiles between them.
module CardDeck {
  import opened Collections
  import opened PointCard
  import opened CardLookup
  import opened Minting
  import opened FisherYates

  /** Exchanging two slots keeps ids distinct. */
  lemma SwapKeepsDistinctIds(s: seq<Card>, i: nat, j: nat)
    requires i < |s| && j < |s| && DistinctIds(s)
    ensures DistinctIds(Swap(s, i, j))
  {
    var t := Swap(s, i, j);
    forall p, q | 0 <= p < |t| && 0 <= q < |t| && p != q
      ensures t[p].id != t[q].id
    {
      var p' := if p == i then j else if p == j then i else p;
      var q' := if q == i then j else if q == j then i else q;
      assert t[p] == s[p'] && t[q] == s[q'];
    }
  }

  /** Rounds of the shuffle over a table with distinct ids keep them distinct and
      leave every lookup by id as it was. */
  lemma {:induction false} RoundsKeepLookup(s: seq<Card>, picks: seq<int>, m: nat, id: int)
    requires m <= |picks| <= |s| && ValidPicks(picks) && DistinctIds(s)
    ensures DistinctIds(Rounds(s, picks, m))
    ensures Lookup(Rounds(s, picks, m), id) == Lookup(s, id)
    decreases m
  {
    if m > 0 {
      var s' := Swap(s, m - 1, picks[|picks| - m]);
      assert Rounds(s, picks, m) == Rounds(s', picks, m - 1);
      SwapPermutes(s, m - 1, picks[|picks| - m]);
      SwapKeepsDistinctIds(s, m - 1, picks[|picks| - m]);
      RoundsKeepLookup(s', picks, m - 1, id);
      LookupIgnoresOrder(s, s', id);
    }
  }

  /** Shuffling a table whose ids are distinct keeps them distinct and leaves every
      lookup by id as it was. */
  lemma ShuffleKeepsLookup(s: seq<Card>, picks: seq<int>, id: int)
    requires |picks| <= |s| && ValidPicks(picks) && DistinctIds(s)
    ensures DistinctIds(Shuffled(s, picks))
    ensures Lookup(Shuffled(s, picks), id) == Lookup(s, id)
  {
    RoundsKeepLookup(s, picks, |picks|, id);
  }

  /** The shuffled population has distinct ids, the same tiles as the minted one
      and the same answer to every lookup. */
  lemma ShuffledMintIsValid(dist: seq<Entry>, picks: seq<int>)
    requires |picks| == TotalTiles(dist) && ValidPicks(picks)
    ensures DistinctIds(Shuffled(Minted(dist, FirstId), picks))
    ensures multiset(Shuffled(Minted(dist, FirstId), picks)) == multiset(Minted(dist, FirstId))
    ensures forall id :: Lookup(Shuffled(Minted(dist, FirstId), picks), id) == Lookup(Minted(dist, FirstId), id)
  {
    var cards := Minted(dist, FirstId);
    MintedIdsIncreasing(dist, FirstId);
    ShuffledPermutes(cards, picks);
    forall id ensures Lookup(Shuffled(cards, picks), id) == Lookup(cards, id) {
      ShuffleKeepsLookup(cards, picks, id);
    }
    ShuffleKeepsLookup(cards, picks, FirstId);
  }

  /** What `drawNumber(n)` hands back from `deck`: the front cards, then `undefined`. */
  function Drawn(deck: seq<Card>, n: nat): (r: seq<Option<Card>>)
    ensures |r| == n
  {
    seq(n, k requires 0 <= k < n => if k < |deck| then Some(deck[k]) else None)
  }

  /** One more draw appends the next card of the pile, or `undefined` past its end. */
  lemma DrawnStep(deck: seq<Card>, n: nat)
    ensures Drawn(deck, n + 1) == Drawn(deck, n) + [if n < |deck| then Some(deck[n]) else None]
  {
    var l, r := Drawn(deck, n + 1), Drawn(deck, n) + [if n < |deck| then Some(deck[n]) else None];
    forall k | 0 <= k < n + 1 ensures l[k] == r[k] {
    }
  }

  /** The cards a draw hands out, followed by the pile that remains, are the old pile. */
  lemma {:induction false} DrawnThenRest(deck: seq<Card>, n: nat)
    ensures Somes(Drawn(deck, n)) + deck[Min(n, |deck|)..] == deck
  {
    if n > 0 {
      var before := Drawn(deck, n - 1);
      var next: Option<Card> := if n - 1 < |deck| then Some(deck[n - 1]) else None;
      DrawnThenRest(deck, n - 1);
      DrawnStep(deck, n - 1);
      SomesAppend(before, [next]);
      assert [next][1..] == [];
      assert Somes(Drawn(deck, n)) == Somes(before) + OptionToSeq(next);
      if n <= |deck| {
        assert deck[n - 1..] == [deck[n - 1]] + deck[n..];
      } else {
        assert Min(n, |deck|) == Min(n - 1, |deck|);
      }
    }
  }

  /** Every card of a pile drawn from a table with distinct ids is found by its id. */
  lemma PileCardsFindable(all: seq<Card>, pile: seq<Card>)
    requires DistinctIds(all) && multiset(pile) <= multiset(all)
    ensures forall c :: c in pile ==> Lookup(all, c.id) == Some(c)
  {
    forall c | c in pile
      ensures Lookup(all, c.id) == Some(c)
    {
      assert c in multiset(pile);
      LookupDistinct(all, c);
    }
  }

  class Deck {
    var allCards: seq<Card>
    var cardDeck: seq<Card>
    var gridCards: seq<Card>
    var handCards: seq<Card>

    /** Ids in the lookup table are unique and every card of the draw pile is in it. */
    ghost predicate Valid()
      reads this
    {
      DistinctIds(allCards) && multiset(cardDeck) <= multiset(allCards)
    }

    constructor ()
      ensures Valid()
      ensures allCards == [] && cardDeck == [] && gridCards == [] && handCards == []
    {
      allCards, cardDeck, gridCards, handCards := [], [], [], [];
    }

    /** The minting effect: when the draw pile is empty, mint the population,
        shuffle it in place and make that one array both the lookup table and the
        draw pile; otherwise do nothing. */
    method MintAndShuffle(dist: seq<Entry>, picks: seq<int>)
      requires Valid()
      requires cardDeck == [] ==> |picks| == TotalTiles(dist) && ValidPicks(picks)
      modifies this
      ensures Valid()
      ensures old(cardDeck) != [] ==> unchanged(this)
      ensures old(cardDeck) == [] ==>
        allCards == cardDeck == Shuffled(Minted(dist, FirstId), picks) &&
        gridCards == old(gridCards) && handCards == old(handCards)
      ensures old(cardDeck) == [] ==>
        multiset(cardDeck) == multiset(Minted(dist, FirstId)) &&
        forall id :: Lookup(allCards, id) == Lookup(Minted(dist, FirstId), id)
    {
      if |cardDeck| != 0 {
        return;
      }
      var cards := Mint(dist);
      var arr := new Card[|cards|](k requires 0 <= k < |cards| => cards[k]);
      assert arr[..] == cards;
      var shuffled := Shuffle(arr, picks);
      allCards := shuffled[..];
      cardDeck := shuffled[..];
      ShuffledMintIsValid(dist, picks);
    }

    /** `makeNewDeck` does nothing. */
    method MakeNewDeck()
      ensures unchanged(this)
    {
    }

    /** Deals the front nine cards to the grid and the next three to the hand,
        taking fewer when the pile is short. */
    method Deal()
      requires Valid()
      modifies this`gridCards, this`handCards, this`cardDeck
      ensures Valid()
      ensures gridCards == Slice(old(cardDeck), 0, 9)
      ensures handCards == Slice(old(cardDeck), 9, 12)
      ensures cardDeck == old(cardDeck)[Min(12, |old(cardDeck)|)..]
      ensures gridCards + handCards + cardDeck == old(cardDeck)
      ensures |gridCards| == Min(9, |old(cardDeck)|)
      ensures |handCards| == Min(3, Max(0, |old(cardDeck)| - 9))
      ensures forall c :: c in gridCards + handCards ==> Lookup(allCards, c.id) == Some(c)
    {
      ghost var d := cardDeck;
      PileCardsFindable(allCards, d);
      gridCards := Slice(cardDeck, 0, 9);
      handCards := Slice(cardDeck, 9, 12);
      cardDeck := cardDeck[Min(12, |cardDeck|)..];
      assert gridCards + handCards + cardDeck == d;
      assert multiset(d) == multiset(gridCards + handCards) + multiset(cardDeck);
    }

    /** Takes the front card of the pile, or `undefined` when the pile is empty. */
    method DrawOne() returns (card: Option<Card>)
      requires Valid()
      modifies this`cardDeck
      ensures Valid()
      ensures old(cardDeck) == [] ==> card == None && cardDeck == []
      ensures old(cardDeck) != [] ==> card == Some(old(cardDeck)[0]) && cardDeck == old(cardDeck)[1..]
      ensures card.Some? ==> Lookup(allCards, card.value.id) == card
    {
      if |cardDeck| == 0 {
        return None;
      }
      PileCardsFindable(allCards, cardDeck);
      var cards := cardDeck;
      card := Some(cards[0]);
      cardDeck := cards[1..];
      assert cards == [cards[0]] + cardDeck;
    }

    /** Draws one card at a time until `num` results are collected; once the pile
        is empty every further result is `undefined`. */
    method DrawNumber(num: int) returns (cards: seq<Option<Card>>)
      requires Valid()
      modifies this`cardDeck
      ensures Valid()
      ensures |cards| == Max(num, 0)
      ensures cards == Drawn(old(cardDeck), |cards|)
      ensures cardDeck == old(cardDeck)[Min(|cards|, |old(cardDeck)|)..]
      ensures forall k :: 0 <= k < |cards| && cards[k].Some? ==> Lookup(allCards, cards[k].value.id) == cards[k]
    {
      ghost var pile := cardDeck;
      cards := [];
      while |cards| < num
        invariant Valid()
        invariant forall k :: 0 <= k < |cards| && cards[k].Some? ==> Lookup(allCards, cards[k].value.id) == cards[k]
        invariant |cards| <= Max(num, 0)
        invariant cards == Drawn(pile, |cards|)
        invariant cardDeck == pile[Min(|cards|, |pile|)..]
        decreases num - |cards|
      {
        ghost var n := |cards|;
        var card := DrawOne();
        assert card == (if n < |pile| then Some(pile[n]) else None);
        assert cardDeck == pile[Min(n + 1, |pile|)..];
        DrawnStep(pile, n);
        cards := cards + [card];
      }
    }

    /** Drops every card carrying `card`'s id from the grid and from the hand. */
    method RemoveCard(card: Card)
      modifies this`gridCards, this`handCards
      ensures gridCards == Without(old(gridCards), CardId, card.id)
      ensures handCards == Without(old(handCards), CardId, card.id)
    {
      gridCards := Without(gridCards, CardId, card.id);
      handCards := Without(handCards, CardId, card.id);
    }
  }
}
