// Looking tiles up by id in the table of every minted tile.
module CardLookup {
  import opened Collections
  import opened PointCard

  /** No two cards of `cards` share an id. */
  predicate DistinctIds(cards: seq<Card>) {
    forall i, j :: 0 <= i < |cards| && 0 <= j < |cards| && i != j ==> cards[i].id != cards[j].id
  }

  /** `cards.find(card => card.id === id)`. */
  function Lookup(cards: seq<Card>, id: int): (r: Option<Card>)
    ensures r.Some? ==> r.value in cards && r.value.id == id
    ensures r.None? <==> forall c :: c in cards ==> c.id != id
  {
    if cards == [] then None
    else if cards[0].id == id then Some(cards[0])
    else Lookup(cards[1..], id)
  }

  /** `ids.map(id => idCardLookup(id))`: one lookup per id, in the order of the ids. */
  function LookupMulti(cards: seq<Card>, ids: seq<int>): (r: seq<Option<Card>>)
    ensures |r| == |ids|
    ensures forall k :: 0 <= k < |ids| ==> r[k] == Lookup(cards, ids[k])
  {
    if ids == [] then [] else [Lookup(cards, ids[0])] + LookupMulti(cards, ids[1..])
  }

  /** The lookup returns the first card carrying the id, whatever follows it. */
  lemma {:induction false} LookupFindsFirst(cards: seq<Card>, id: int, k: nat)
    requires k < |cards| && cards[k].id == id
    requires forall j :: 0 <= j < k ==> cards[j].id != id
    ensures Lookup(cards, id) == Some(cards[k])
  {
    if k > 0 {
      LookupFindsFirst(cards[1..], id, k - 1);
    }
  }

  /** When ids are distinct, the lookup finds a card exactly when the card is in the table. */
  lemma LookupDistinct(cards: seq<Card>, c: Card)
    requires DistinctIds(cards)
    ensures Lookup(cards, c.id) == Some(c) <==> c in cards
  {
    if c in cards {
      var k :| 0 <= k < |cards| && cards[k] == c;
      LookupFindsFirst(cards, c.id, k);
    }
  }

  /** Reordering a table whose ids are distinct does not change any lookup. */
  lemma LookupIgnoresOrder(a: seq<Card>, b: seq<Card>, id: int)
    requires DistinctIds(a) && DistinctIds(b)
    requires multiset(a) == multiset(b)
    ensures Lookup(a, id) == Lookup(b, id)
  {
    assert forall c :: c in a <==> c in b by {
      forall c ensures c in a <==> c in b {
        assert c in a <==> c in multiset(a);
        assert c in b <==> c in multiset(b);
      }
    }
    match Lookup(a, id)
    case Some(c) =>
      LookupDistinct(a, c);
      LookupDistinct(b, c);
    case None =>
  }
}
