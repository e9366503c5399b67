// What the app derives from a selection of tile ids: the cards it names, the word
// it spells and the points it is worth.
module Selection {
  import opened Collections
  import opened PointCard
  import opened CardLookup

  /** The cards the ids name, in selection order; an id with no card contributes nothing. */
  function FoundCards(cards: seq<Card>, ids: seq<int>): (r: seq<Card>)
    ensures |r| <= |ids|
    ensures forall j :: 0 <= j < |r| ==> r[j] in cards
  {
    if ids == [] then [] else OptionToSeq(Lookup(cards, ids[0])) + FoundCards(cards, ids[1..])
  }

  /** The cards of a concatenated selection are those of its two parts, in order. */
  lemma {:induction false} FoundCardsAppend(cards: seq<Card>, a: seq<int>, b: seq<int>)
    ensures FoundCards(cards, a + b) == FoundCards(cards, a) + FoundCards(cards, b)
  {
    if a == [] {
      assert a + b == b;
    } else {
      assert (a + b)[0] == a[0] && (a + b)[1..] == a[1..] + b;
      FoundCardsAppend(cards, a[1..], b);
    }
  }

  /** Dropping an id from the selection drops exactly the cards carrying that id. */
  lemma {:induction false} FoundCardsWithout(cards: seq<Card>, ids: seq<int>, k: int)
    ensures FoundCards(cards, Without(ids, Ident, k)) == Without(FoundCards(cards, ids), CardId, k)
  {
    if ids != [] {
      var x, tail := ids[0], ids[1..];
      var head := OptionToSeq(Lookup(cards, x));
      var kept := Without(tail, Ident, k);
      FoundCardsWithout(cards, tail, k);
      WithoutAppend(head, FoundCards(cards, tail), CardId, k);
      if x == k {
        assert Without(ids, Ident, k) == kept;
        assert Without(head, CardId, k) == [] by {
          if head != [] { assert head[1..] == []; }
        }
      } else {
        assert Without(ids, Ident, k) == [x] + kept;
        assert ([x] + kept)[0] == x && ([x] + kept)[1..] == kept;
        assert FoundCards(cards, [x] + kept) == head + FoundCards(cards, kept);
        assert Without(head, CardId, k) == head by {
          if head != [] { assert head[1..] == []; }
        }
      }
    }
  }

  /** ASCII upper case to lower case; every other character is kept. */
  function LowerChar(c: char): char {
    if 'A' <= c <= 'Z' then (c as int + 32) as char else c
  }

  /** `s.toLowerCase()` over ASCII. */
  function Lower(s: string): (r: string)
    ensures |r| == |s|
    ensures forall k :: 0 <= k < |r| ==> !('A' <= r[k] <= 'Z')
    ensures forall k :: 0 <= k < |s| && !('A' <= s[k] <= 'Z') ==> r[k] == s[k]
  {
    seq(|s|, k requires 0 <= k < |s| => LowerChar(s[k]))
  }

  /** `parts.join("")`. */
  function Join(parts: seq<string>): string {
    if parts == [] then "" else parts[0] + Join(parts[1..])
  }

  function LettersOf(cs: seq<Card>): seq<string> {
    seq(|cs|, k requires 0 <= k < |cs| => cs[k].letter)
  }

  lemma LettersOfAppend(a: seq<Card>, b: seq<Card>)
    ensures LettersOf(a + b) == LettersOf(a) + LettersOf(b)
  {
    var l, r := LettersOf(a + b), LettersOf(a) + LettersOf(b);
    forall k | 0 <= k < |l| ensures l[k] == r[k] {
      if k < |a| { assert (a + b)[k] == a[k]; } else { assert (a + b)[k] == b[k - |a|]; }
    }
  }

  lemma LowerAppend(a: string, b: string)
    ensures Lower(a + b) == Lower(a) + Lower(b)
  {
    var l, r := Lower(a + b), Lower(a) + Lower(b);
    forall k | 0 <= k < |l| ensures l[k] == r[k] {
      if k < |a| { assert (a + b)[k] == a[k]; } else { assert (a + b)[k] == b[k - |a|]; }
    }
  }

  /** One more id adds its card's letter, if it has a card, to the end of the letters. */
  lemma LettersOfStep(cards: seq<Card>, ids: seq<int>, k: nat)
    requires k < |ids|
    ensures LettersOf(FoundCards(cards, ids[..k + 1])) ==
      LettersOf(FoundCards(cards, ids[..k])) + LettersOf(OptionToSeq(Lookup(cards, ids[k])))
  {
    assert ids[..k + 1] == ids[..k] + [ids[k]];
    FoundCardsAppend(cards, ids[..k], [ids[k]]);
    assert [ids[k]][1..] == [];
    LettersOfAppend(FoundCards(cards, ids[..k]), OptionToSeq(Lookup(cards, ids[k])));
  }

  /** The word a selection spells: its found letters, joined and lower-cased. */
  function WordOf(cards: seq<Card>, ids: seq<int>): (w: string)
    ensures forall k :: 0 <= k < |w| ==> !('A' <= w[k] <= 'Z')
  {
    Lower(Join(LettersOf(FoundCards(cards, ids))))
  }

  lemma {:induction false} JoinAppend(a: seq<string>, b: seq<string>)
    ensures Join(a + b) == Join(a) + Join(b)
  {
    if a == [] {
      assert a + b == b;
    } else {
      assert (a + b)[0] == a[0] && (a + b)[1..] == a[1..] + b;
      JoinAppend(a[1..], b);
    }
  }

  /** The word of a concatenated selection is the concatenation of the two words. */
  lemma WordOfAppend(cards: seq<Card>, a: seq<int>, b: seq<int>)
    ensures WordOf(cards, a + b) == WordOf(cards, a) + WordOf(cards, b)
  {
    FoundCardsAppend(cards, a, b);
    var fa, fb := FoundCards(cards, a), FoundCards(cards, b);
    LettersOfAppend(fa, fb);
    JoinAppend(LettersOf(fa), LettersOf(fb));
    LowerAppend(Join(LettersOf(fa)), Join(LettersOf(fb)));
  }

  /** Choosing one more id extends the word by that card's lower-cased letter,
      or by nothing when no card carries the id. */
  lemma WordOfChoose(cards: seq<Card>, ids: seq<int>, id: int)
    ensures WordOf(cards, ids + [id]) ==
      WordOf(cards, ids) + (match Lookup(cards, id) case Some(c) => Lower(c.letter) case None => "")
  {
    WordOfAppend(cards, ids, [id]);
    WordOfOne(cards, id);
  }

  /** A single id spells its card's lower-cased letter, or nothing. */
  lemma WordOfOne(cards: seq<Card>, id: int)
    ensures WordOf(cards, [id]) == (match Lookup(cards, id) case Some(c) => Lower(c.letter) case None => "")
  {
    assert [id][1..] == [];
    assert FoundCards(cards, [id]) == OptionToSeq(Lookup(cards, id));
    match Lookup(cards, id)
    case Some(c) =>
      assert LettersOf([c]) == [c.letter];
      assert Join([c.letter]) == c.letter + Join([]);
    case None =>
  }

  lemma {:induction false} JoinLength(parts: seq<string>)
    requires forall k :: 0 <= k < |parts| ==> |parts[k]| == 1
    ensures |Join(parts)| == |parts|
  {
    if parts != [] {
      JoinLength(parts[1..]);
    }
  }

  /** With one-character letters, the word has one character per found card. */
  lemma WordLength(cards: seq<Card>, ids: seq<int>)
    requires forall c :: c in cards ==> |c.letter| == 1
    ensures |WordOf(cards, ids)| == |FoundCards(cards, ids)|
  {
    var found := FoundCards(cards, ids);
    assert forall k :: 0 <= k < |found| ==> found[k] in cards;
    JoinLength(LettersOf(found));
  }

  /** `card?.value ?? 0`: a missing card is worth nothing. */
  function ValueOrZero(o: Option<Card>): int {
    match o
    case Some(c) => c.value
    case None => 0
  }

  /** `.map(card => card?.value ?? 0).reduce((a, b) => a + b)`, with 0 for no entries. */
  function SumValues(os: seq<Option<Card>>): int {
    if os == [] then 0 else ValueOrZero(os[0]) + SumValues(os[1..])
  }

  /** The points of a selection: the looked-up values, missing cards counted as 0. */
  function PointSum(cards: seq<Card>, ids: seq<int>): int {
    SumValues(LookupMulti(cards, ids))
  }

  function TotalValue(cs: seq<Card>): int {
    if cs == [] then 0 else cs[0].value + TotalValue(cs[1..])
  }

  lemma {:induction false} TotalValueAppend(a: seq<Card>, b: seq<Card>)
    ensures TotalValue(a + b) == TotalValue(a) + TotalValue(b)
  {
    if a == [] {
      assert a + b == b;
    } else {
      assert (a + b)[0] == a[0] && (a + b)[1..] == a[1..] + b;
      TotalValueAppend(a[1..], b);
    }
  }

  /** The point sum is the total value of the cards the selection actually names. */
  lemma {:induction false} PointSumIsFoundTotal(cards: seq<Card>, ids: seq<int>)
    ensures PointSum(cards, ids) == TotalValue(FoundCards(cards, ids))
  {
    if ids != [] {
      PointSumIsFoundTotal(cards, ids[1..]);
      assert LookupMulti(cards, ids)[1..] == LookupMulti(cards, ids[1..]);
      var head := OptionToSeq(Lookup(cards, ids[0]));
      TotalValueAppend(head, FoundCards(cards, ids[1..]));
      if head != [] {
        assert head[1..] == [];
      }
    }
  }

  /** The points of a concatenated selection add up. */
  lemma PointSumAppend(cards: seq<Card>, a: seq<int>, b: seq<int>)
    ensures PointSum(cards, a + b) == PointSum(cards, a) + PointSum(cards, b)
  {
    PointSumIsFoundTotal(cards, a + b);
    PointSumIsFoundTotal(cards, a);
    PointSumIsFoundTotal(cards, b);
    FoundCardsAppend(cards, a, b);
    TotalValueAppend(FoundCards(cards, a), FoundCards(cards, b));
  }

  /** The points of a selection do not depend on the order the ids were chosen in. */
  lemma {:induction false} PointSumOrderIndependent(cards: seq<Card>, a: seq<int>, b: seq<int>)
    requires multiset(a) == multiset(b)
    ensures PointSum(cards, a) == PointSum(cards, b)
    decreases |a|
  {
    if a != [] {
      var x := a[0];
      assert x in multiset(b);
      var i :| 0 <= i < |b| && b[i] == x;
      var rest := b[..i] + b[i + 1..];
      assert b == b[..i] + [x] + b[i + 1..];
      assert a == [x] + a[1..];
      calc {
        multiset(a[1..]);
        multiset(a) - multiset{x};
        multiset(b) - multiset{x};
        multiset(b[..i]) + multiset{x} + multiset(b[i + 1..]) - multiset{x};
        multiset(rest);
      }
      PointSumOrderIndependent(cards, a[1..], rest);
      PointSumAppend(cards, [x], a[1..]);
      PointSumAppend(cards, b[..i] + [x], b[i + 1..]);
      PointSumAppend(cards, b[..i], [x]);
      PointSumAppend(cards, b[..i], b[i + 1..]);
    } else {
      assert b == [];
    }
  }
}
