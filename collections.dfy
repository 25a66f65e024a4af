/**
 * The two collection operations the gates build their configuration with:
 * a JavaScript `Set` read back in insertion order, and `Array.prototype.sort`
 * with its default string comparison.
 */
module Collections {

  predicate Distinct<T(==)>(xs: seq<T>) {
    forall i, j :: 0 <= i < j < |xs| ==> xs[i] != xs[j]
  }

  /** The index of the first occurrence of `x` in `xs`. */
  function FirstPos(xs: seq<string>, x: string): (k: nat)
    requires x in xs
    ensures k < |xs| && xs[k] == x
    ensures forall j :: 0 <= j < k ==> xs[j] != x
  {
    if xs[0] == x then 0 else 1 + FirstPos(xs[1..], x)
  }

  /** Appending an element moves no first occurrence, and a new element first occurs at the end. */
  lemma FirstPosSnoc(init: seq<string>, x: string)
    ensures forall y :: y in init ==> FirstPos(init + [x], y) == FirstPos(init, y)
    ensures x !in init ==> FirstPos(init + [x], x) == |init|
  {
    var xs := init + [x];
    forall y | y in init
      ensures FirstPos(xs, y) == FirstPos(init, y)
    {
      var k := FirstPos(init, y);
      assert xs[k] == y;
      var k' := FirstPos(xs, y);
      assert k' <= k;
      assert init[k'] == xs[k'];
    }
    if x !in init {
      assert xs[|init|] == x;
      assert forall j :: 0 <= j < |init| ==> xs[j] == init[j];
    }
  }

  /**
   * `[...new Set(xs)]`: each element once, in the order of its first
   * occurrence in `xs`.
   */
  function Dedup(xs: seq<string>): (r: seq<string>)
    ensures Distinct(r)
    ensures forall x :: x in r <==> x in xs
    ensures |r| <= |xs|
    ensures forall i, j :: 0 <= i < j < |r| ==> FirstPos(xs, r[i]) < FirstPos(xs, r[j])
  {
    if xs == [] then []
    else
      var init := xs[..|xs| - 1];
      var d := Dedup(init);
      var x := xs[|xs| - 1];
      assert xs == init + [x];
      FirstPosSnoc(init, x);
      if x in d then d else d + [x]
  }

  /** A list without repeats is its own set. */
  lemma {:induction false} DedupOfDistinct(xs: seq<string>)
    requires Distinct(xs)
    ensures Dedup(xs) == xs
  {
    if xs != [] {
      var init := xs[..|xs| - 1];
      assert Distinct(init);
      DedupOfDistinct(init);
      assert xs[|xs| - 1] !in init;
      assert init + [xs[|xs| - 1]] == xs;
    }
  }

  /** Building a set twice changes nothing. */
  lemma DedupIdempotent(xs: seq<string>)
    ensures Dedup(Dedup(xs)) == Dedup(xs)
  {
    DedupOfDistinct(Dedup(xs));
  }

  /**
   * The default comparison of `Array.prototype.sort` on strings:
   * lexicographic, a proper prefix first. Characters compare by code point.
   */
  predicate StringLe(a: string, b: string)
    decreases |a|
  {
    a == [] || (b != [] && (a[0] < b[0] || (a[0] == b[0] && StringLe(a[1..], b[1..]))))
  }

  lemma {:induction false} StringLeTotal(a: string, b: string)
    ensures StringLe(a, b) || StringLe(b, a)
    decreases |a|
  {
    if a != [] && b != [] && a[0] == b[0] {
      StringLeTotal(a[1..], b[1..]);
    }
  }

  predicate Sorted(s: seq<string>) {
    forall i :: 0 <= i < |s| - 1 ==> StringLe(s[i], s[i + 1])
  }

  /** One insertion-sort step: `x` placed before the first element it does not follow. */
  function Insert(x: string, s: seq<string>): (r: seq<string>)
    ensures multiset(r) == multiset(s) + multiset{x}
    ensures |r| == |s| + 1
    ensures r[0] == x || (s != [] && r[0] == s[0])
  {
    if s == [] then [x]
    else if StringLe(x, s[0]) then [x] + s
    else
      assert s == [s[0]] + s[1..];
      [s[0]] + Insert(x, s[1..])
  }

  /** `Array.from(xs).sort()`: the same strings in ascending order. */
  function Sort(xs: seq<string>): (r: seq<string>)
    ensures multiset(r) == multiset(xs)
    ensures |r| == |xs|
  {
    if xs == [] then []
    else
      assert xs == [xs[0]] + xs[1..];
      Insert(xs[0], Sort(xs[1..]))
  }

  lemma {:induction false} InsertSorted(x: string, s: seq<string>)
    requires Sorted(s)
    ensures Sorted(Insert(x, s))
  {
    if s != [] && !StringLe(x, s[0]) {
      StringLeTotal(x, s[0]);
      var tail := s[1..];
      assert Sorted(tail);
      InsertSorted(x, tail);
      var r := Insert(x, s);
      assert r == [s[0]] + Insert(x, tail);
      assert StringLe(r[0], r[1]);
    }
  }

  /** The sort delivers ascending order. */
  lemma {:induction false} SortIsSorted(xs: seq<string>)
    ensures Sorted(Sort(xs))
  {
    if xs != [] {
      SortIsSorted(xs[1..]);
      InsertSorted(xs[0], Sort(xs[1..]));
    }
  }

  /** Sorting keeps exactly the members of the input. */
  lemma SortSameMembers(xs: seq<string>)
    ensures forall x :: x in Sort(xs) <==> x in xs
  {
    assert forall x :: x in Sort(xs) <==> x in multiset(Sort(xs));
    assert forall x :: x in xs <==> x in multiset(xs);
  }
}
