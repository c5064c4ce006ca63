/** Small helpers shared by every component model: an optional value and
    facts about sequences without repeated elements. */
module Common {

  /** The source's `T | null` and `undefined` results. */
  datatype Option<T> = None | Some(value: T)

  /** The score after a checked answer, shared by the sentence builder and
      the word-picture match: ten more for a right answer, otherwise two less
      but never below zero (`Math.max(0, prev - 2)`). */
  function Rescore(score: int, correct: bool): (r: int)
    ensures correct ==> r == score + 10
    ensures !correct ==> r >= 0 && r <= Max0(score)
    ensures !correct ==> r == Max0(score - 2)
    ensures !correct && score >= 2 ==> r == score - 2
    ensures score >= 0 ==> r >= 0
  {
    if correct then score + 10 else if score - 2 > 0 then score - 2 else 0
  }

  function Max0(x: int): nat {
    if x > 0 then x else 0
  }

  /** No element occurs twice in `s`. */
  predicate Distinct<T(==)>(s: seq<T>) {
    forall i, j :: 0 <= i < j < |s| ==> s[i] != s[j]
  }

  /** The set of the elements of a sequence. */
  function Elements<T>(s: seq<T>): set<T> {
    set x | x in s
  }

  /** The elements of `s` in the opposite order (`split('').reverse().join('')`
      for a string). */
  function Reverse<T>(s: seq<T>): seq<T> {
    seq(|s|, k requires 0 <= k < |s| => s[|s| - 1 - k])
  }

  /** The position of the first occurrence of `x` in `s`, if any
      (`indexOf`, with `None` for -1). */
  function FirstIndex<T(==)>(s: seq<T>, x: T): (r: Option<nat>)
    ensures r.Some? ==> r.value < |s| && s[r.value] == x
    ensures r.Some? ==> forall k :: 0 <= k < r.value ==> s[k] != x
    ensures r.None? ==> x !in s
  {
    if |s| == 0 then None
    else if s[0] == x then Some(0)
    else match FirstIndex(s[1..], x)
      case None => None
      case Some(k) => Some(k + 1)
  }

  /** Appending an element that is not yet present keeps a sequence distinct. */
  lemma DistinctAppend<T>(s: seq<T>, x: T)
    requires Distinct(s) && x !in s
    ensures Distinct(s + [x])
  {
    var t := s + [x];
    forall i, j | 0 <= i < j < |t| ensures t[i] != t[j] {
      if j == |s| {
        assert t[i] == s[i];
        assert s[i] in s;
      }
    }
  }

  /** Prepending an element that is not yet present keeps a sequence distinct. */
  lemma DistinctCons<T>(x: T, s: seq<T>)
    requires Distinct(s) && x !in s
    ensures Distinct([x] + s)
  {
    var t := [x] + s;
    forall i, j | 0 <= i < j < |t| ensures t[i] != t[j] {
      assert t[j] == s[j - 1];
      if i == 0 {
        assert s[j - 1] in s;
      } else {
        assert t[i] == s[i - 1];
      }
    }
  }

  /** A distinct sequence has as many elements as its set. */
  lemma {:induction false} DistinctCardinality<T>(s: seq<T>)
    requires Distinct(s)
    ensures |Elements(s)| == |s|
  {
    if |s| > 0 {
      var init := s[..|s| - 1];
      var last := s[|s| - 1];
      assert Distinct(init);
      DistinctCardinality(init);
      assert last !in init by {
        forall k | 0 <= k < |init| ensures init[k] != last {
          assert s[k] == init[k];
        }
      }
      assert s == init + [last];
      assert Elements(s) == Elements(init) + {last};
    }
  }

  /** Pigeonhole: a distinct sequence drawn from a finite set is no longer than
      the set. */
  lemma DistinctBound<T>(s: seq<T>, pool: set<T>)
    requires Distinct(s)
    requires forall x :: x in s ==> x in pool
    ensures |s| <= |pool|
  {
    DistinctCardinality(s);
    assert Elements(s) <= pool;
    SubsetCardinality(Elements(s), pool);
  }

  /** A distinct sequence drawn from `pool` with as many elements as `pool`
      contains every element of `pool`. */
  lemma DistinctFull<T>(s: seq<T>, pool: set<T>)
    requires Distinct(s)
    requires forall x :: x in s ==> x in pool
    requires |s| == |pool|
    ensures forall x :: x in pool ==> x in s
  {
    DistinctCardinality(s);
    var e := Elements(s);
    assert e <= pool;
    assert pool == e + (pool - e);
    assert |pool - e| == 0;
  }

  /** A sequence has no more distinct elements than positions. */
  lemma {:induction false} ElementsBound<T>(s: seq<T>)
    ensures |Elements(s)| <= |s|
  {
    if |s| > 0 {
      var init := s[..|s| - 1];
      ElementsBound(init);
      assert s == init + [s[|s| - 1]];
      assert Elements(s) == Elements(init) + {s[|s| - 1]};
    }
  }

  lemma SubsetCardinality<T>(a: set<T>, b: set<T>)
    requires a <= b
    ensures |a| <= |b|
  {
    assert b == a + (b - a);
  }
}
