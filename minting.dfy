// Minting the tile population from a letter distribution table, with ids drawn
// from a counter that starts at 101.
module Minting {
  import opened PointCard
  import opened CardLookup

  /** The first id the generator hands out. */
  const FirstId := 101

  /** One row of the distribution table: a letter, its points and how many tiles carry it. */
  datatype Entry = Entry(letter: string, points: int, tiles: int)

  /** The id generator: an endless counter. */
  class IdGenerator {
    var counter: int

    constructor ()
      ensures counter == FirstId
    {
      counter := FirstId;
    }

    /** Yields the current value and advances the counter by one. */
    method Next() returns (id: int)
      modifies this
      ensures id == old(counter) && counter == old(counter) + 1
    {
      id := counter;
      counter := counter + 1;
    }
  }

  /** How many tiles the minting loop makes for one row (`while (count < tiles)`). */
  function TileCount(e: Entry): nat {
    if e.tiles > 0 then e.tiles else 0
  }

  /** The size of the whole population. */
  function TotalTiles(dist: seq<Entry>): nat {
    if dist == [] then 0 else TotalTiles(dist[..|dist| - 1]) + TileCount(dist[|dist| - 1])
  }

  /** `n` tiles of one row, with consecutive ids from `first`. */
  function Run(e: Entry, first: int, n: nat): seq<Card> {
    seq(n, j => Card(first + j, e.letter, e.points))
  }

  /** The tiles minted from `dist`, row by row, with consecutive ids from `first`. */
  function Minted(dist: seq<Entry>, first: int): (r: seq<Card>)
    ensures |r| == TotalTiles(dist)
    ensures forall j :: 0 <= j < |r| ==> r[j].id == first + j
  {
    if dist == [] then []
    else
      var init := dist[..|dist| - 1];
      Minted(init, first) + Run(dist[|dist| - 1], first + TotalTiles(init), TileCount(dist[|dist| - 1]))
  }

  /** The minting loops of the deck hook: one generator, one pass per row, one push per tile. */
  method Mint(dist: seq<Entry>) returns (cards: seq<Card>)
    ensures cards == Minted(dist, FirstId)
  {
    cards := [];
    var genId := new IdGenerator();
    var k := 0;
    while k < |dist|
      invariant 0 <= k <= |dist|
      invariant cards == Minted(dist[..k], FirstId)
      invariant genId.counter == FirstId + |cards|
    {
      var e := dist[k];
      var count := 0;
      while count < e.tiles
        invariant 0 <= count <= TileCount(e)
        invariant cards == Minted(dist[..k], FirstId) + Run(e, FirstId + TotalTiles(dist[..k]), count)
        invariant genId.counter == FirstId + |cards|
      {
        var nextId := genId.Next();
        cards := cards + [Card(nextId, e.letter, e.points)];
        count := count + 1;
      }
      assert dist[..k + 1][..k] == dist[..k];
      k := k + 1;
    }
    assert dist[..|dist|] == dist;
  }

  /** Row `k` of the table occupies the slots right after the rows before it,
      with its letter, its points and consecutive ids. */
  lemma {:induction false} MintedLayout(dist: seq<Entry>, first: int, k: nat, j: nat)
    requires k < |dist| && j < TileCount(dist[k])
    ensures TotalTiles(dist[..k]) + j < |Minted(dist, first)|
    ensures Minted(dist, first)[TotalTiles(dist[..k]) + j]
         == Card(first + TotalTiles(dist[..k]) + j, dist[k].letter, dist[k].points)
  {
    var init := dist[..|dist| - 1];
    if k == |dist| - 1 {
      assert dist[..k] == init;
    } else {
      assert init[..k] == dist[..k] && init[k] == dist[k];
      MintedLayout(init, first, k, j);
      MintedPrefixBound(dist, k);
    }
  }

  /** The rows before `k` and row `k` together never exceed the population. */
  lemma {:induction false} MintedPrefixBound(dist: seq<Entry>, k: nat)
    requires k < |dist|
    ensures TotalTiles(dist[..k]) + TileCount(dist[k]) <= TotalTiles(dist)
  {
    var init := dist[..|dist| - 1];
    if k < |dist| - 1 {
      assert init[..k] == dist[..k] && init[k] == dist[k];
      MintedPrefixBound(init, k);
    } else {
      assert dist[..k] == init;
    }
  }

  /** Minted ids are strictly increasing, hence pairwise distinct. */
  lemma MintedIdsIncreasing(dist: seq<Entry>, first: int)
    ensures forall i, j :: 0 <= i < j < |Minted(dist, first)| ==>
      Minted(dist, first)[i].id < Minted(dist, first)[j].id
    ensures DistinctIds(Minted(dist, first))
  {
  }
}
