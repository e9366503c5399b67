// The in-place Fisher-Yates shuffle of the deck hook. `Math.random` is replaced by
// an oracle: `picks[k]` is the index that round k chooses, below the number of
// elements still to shuffle.
module FisherYates {

  /** The sequence after exchanging the elements at `i` and `j`. */
  function Swap<T>(s: seq<T>, i: nat, j: nat): (r: seq<T>)
    requires i < |s| && j < |s|
    ensures |r| == |s|
  {
    s[i := s[j]][j := s[i]]
  }

  /** An exchange keeps the multiset of elements. */
  lemma SwapPermutes<T>(s: seq<T>, i: nat, j: nat)
    requires i < |s| && j < |s|
    ensures multiset(Swap(s, i, j)) == multiset(s)
  {
  }

  /** Round k's pick lies in [0, m) where m = |picks| - k elements are still to shuffle. */
  predicate ValidPicks(picks: seq<int>) {
    forall k :: 0 <= k < |picks| ==> 0 <= picks[k] < |picks| - k
  }

  /** The last `m` rounds: with m elements still to shuffle, the round swaps slot
      m - 1 with the slot its pick names. */
  function Rounds<T>(s: seq<T>, picks: seq<int>, m: nat): seq<T>
    requires m <= |picks| <= |s| && ValidPicks(picks)
    decreases m
  {
    if m == 0 then s
    else Rounds(Swap(s, m - 1, picks[|picks| - m]), picks, m - 1)
  }

  /** The whole shuffle: one round per pick. */
  function Shuffled<T>(s: seq<T>, picks: seq<int>): seq<T>
    requires |picks| <= |s| && ValidPicks(picks)
  {
    Rounds(s, picks, |picks|)
  }

  /** Whatever the picks, the rounds keep the length and permute their input. */
  lemma {:induction false} RoundsPermute<T>(s: seq<T>, picks: seq<int>, m: nat)
    requires m <= |picks| <= |s| && ValidPicks(picks)
    ensures |Rounds(s, picks, m)| == |s|
    ensures multiset(Rounds(s, picks, m)) == multiset(s)
    decreases m
  {
    if m > 0 {
      SwapPermutes(s, m - 1, picks[|picks| - m]);
      RoundsPermute(Swap(s, m - 1, picks[|picks| - m]), picks, m - 1);
    }
  }

  /** For every valid sequence of picks, the shuffle keeps the length and is a
      permutation of its input. */
  lemma ShuffledPermutes<T>(s: seq<T>, picks: seq<int>)
    requires |picks| <= |s| && ValidPicks(picks)
    ensures |Shuffled(s, picks)| == |s|
    ensures multiset(Shuffled(s, picks)) == multiset(s)
  {
    RoundsPermute(s, picks, |picks|);
  }

  /** The three-assignment exchange of the loop body. */
  method SwapInPlace<T>(deck: array<T>, m: nat, i: nat)
    requires m < deck.Length && i < deck.Length
    modifies deck
    ensures deck[..] == Swap(old(deck[..]), m, i)
  {
    var t := deck[m];
    deck[m] := deck[i];
    deck[i] := t;
  }

  /** `shuffle(deck)`: shuffles `deck` in place and returns the same array. */
  method Shuffle<T>(deck: array<T>, picks: seq<int>) returns (r: array<T>)
    requires |picks| == deck.Length && ValidPicks(picks)
    modifies deck
    ensures r == deck
    ensures deck[..] == Shuffled(old(deck[..]), picks)
    ensures multiset(deck[..]) == multiset(old(deck[..]))
  {
    var m := deck.Length;
    while m > 0
      invariant 0 <= m <= deck.Length
      invariant Rounds(deck[..], picks, m) == Shuffled(old(deck[..]), picks)
    {
      ghost var before := deck[..];
      var i := picks[deck.Length - m];
      m := m - 1;
      SwapInPlace(deck, m, i);
      assert Rounds(before, picks, m + 1) == Rounds(deck[..], picks, m);
    }
    ShuffledPermutes(old(deck[..]), picks);
    r := deck;
  }
}
