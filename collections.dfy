// The JavaScript array and value conventions the deck hook and the app rely on:
// `undefined` as an optional value, `Array.prototype.filter` with an inequality
// test, and the clamping of `Array.prototype.slice`.
module Collections {

  /** A value that may be `undefined`. */
  datatype Option<+T> = None | Some(value: T)

  /** The zero- or one-element sequence an optional value stands for. */
  function OptionToSeq<T>(o: Option<T>): seq<T> {
    match o
    case Some(v) => [v]
    case None => []
  }

  /** The values of the defined entries, in order. */
  function Somes<T>(os: seq<Option<T>>): seq<T> {
    if os == [] then [] else OptionToSeq(os[0]) + Somes(os[1..])
  }

  /** Collecting defined values commutes with concatenation. */
  lemma {:induction false} SomesAppend<T>(a: seq<Option<T>>, b: seq<Option<T>>)
    ensures Somes(a + b) == Somes(a) + Somes(b)
  {
    if a == [] {
      assert a + b == b;
    } else {
      assert (a + b)[0] == a[0] && (a + b)[1..] == a[1..] + b;
      SomesAppend(a[1..], b);
    }
  }

  function Min(a: int, b: int): int { if a <= b then a else b }

  function Max(a: int, b: int): int { if a <= b then b else a }

  /** `s.slice(start, end)` for non-negative bounds: both are clamped to the length. */
  function Slice<T>(s: seq<T>, start: nat, end: nat): (r: seq<T>)
    ensures |r| == Max(0, Min(end, |s|) - Min(start, |s|))
    ensures forall k :: 0 <= k < |r| ==> r[k] == s[start + k]
  {
    var lo := Min(start, |s|);
    var hi := Min(end, |s|);
    if lo <= hi then s[lo..hi] else []
  }

  /** `s.filter(x => key(x) !== k)`: every element whose key is `k` is dropped. */
  function Without<T>(s: seq<T>, key: T -> int, k: int): (r: seq<T>)
    ensures |r| <= |s|
    ensures forall x {:trigger x in r} :: x in r ==> x in s && key(x) != k
    ensures forall x {:trigger x in r} :: x in s && key(x) != k ==> x in r
  {
    if s == [] then []
    else
      assert s == [s[0]] + s[1..];
      (if key(s[0]) == k then [] else [s[0]]) + Without(s[1..], key, k)
  }

  /** The identity key, for filtering a list of ids by value. */
  function Ident(i: int): int { i }

  predicate NoDuplicates<T(==)>(s: seq<T>) {
    forall i, j :: 0 <= i < |s| && 0 <= j < |s| && i != j ==> s[i] != s[j]
  }

  /** Filtering commutes with concatenation: the kept elements stay in their order. */
  lemma {:induction false} WithoutAppend<T>(a: seq<T>, b: seq<T>, key: T -> int, k: int)
    ensures Without(a + b, key, k) == Without(a, key, k) + Without(b, key, k)
  {
    if a != [] {
      assert (a + b)[0] == a[0] && (a + b)[1..] == a[1..] + b;
      WithoutAppend(a[1..], b, key, k);
      var head := if key(a[0]) == k then [] else [a[0]];
      calc {
        Without(a + b, key, k);
        head + Without(a[1..] + b, key, k);
        head + (Without(a[1..], key, k) + Without(b, key, k));
        (head + Without(a[1..], key, k)) + Without(b, key, k);
      }
    } else {
      assert a + b == b;
    }
  }

  /** Filtering a second time by the same key changes nothing. */
  lemma {:induction false} WithoutIdempotent<T>(s: seq<T>, key: T -> int, k: int)
    ensures Without(Without(s, key, k), key, k) == Without(s, key, k)
  {
    if s != [] {
      WithoutIdempotent(s[1..], key, k);
      var head := if key(s[0]) == k then [] else [s[0]];
      WithoutAppend(head, Without(s[1..], key, k), key, k);
      assert Without(head, key, k) == head by {
        if head != [] { assert head[1..] == []; }
      }
    }
  }

  /** Filtering out a key that no element carries returns the list unchanged. */
  lemma {:induction false} WithoutAbsent<T>(s: seq<T>, key: T -> int, k: int)
    requires forall x :: x in s ==> key(x) != k
    ensures Without(s, key, k) == s
  {
    if s != [] {
      WithoutAbsent(s[1..], key, k);
    }
  }

  /** Filtering keeps a duplicate-free list duplicate-free. */
  lemma {:induction false} WithoutKeepsNoDuplicates<T>(s: seq<T>, key: T -> int, k: int)
    requires NoDuplicates(s)
    ensures NoDuplicates(Without(s, key, k))
  {
    if s != [] {
      var tail := s[1..];
      assert NoDuplicates(tail) by {
        forall i, j | 0 <= i < |tail| && 0 <= j < |tail| && i != j
          ensures tail[i] != tail[j]
        {
          assert tail[i] == s[i + 1] && tail[j] == s[j + 1];
        }
      }
      WithoutKeepsNoDuplicates(tail, key, k);
      var rest := Without(tail, key, k);
      if key(s[0]) != k {
        forall j | 0 <= j < |tail|
          ensures tail[j] != s[0]
        {
          assert tail[j] == s[j + 1];
        }
        assert s[0] !in rest;
        var r := [s[0]] + rest;
        forall i, j | 0 <= i < |r| && 0 <= j < |r| && i != j
          ensures r[i] != r[j]
        {
          if i == 0 {
            assert r[j] == rest[j - 1] && r[j] in rest;
          } else if j == 0 {
            assert r[i] == rest[i - 1] && r[i] in rest;
          }
        }
      } else {
        assert Without(s, key, k) == rest;
      }
    }
  }
}
