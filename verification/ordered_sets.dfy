/**
  A JavaScript `Set` holds no duplicates and enumerates its elements in
  insertion order. It is modelled here as a duplicate-free sequence:
  `Dedup` is `new Set(xs)`, `Delete` is `Set.prototype.delete`, and
  `Difference` is the order-preserving set difference the deletions amount to.
 */
module OrderedSets {

  predicate NoDuplicates<T(==,!new)>(s: seq<T>) {
    forall i, j | 0 <= i < j < |s| :: s[i] != s[j]
  }

  /** Index of the first occurrence of `x` in `xs`. */
  function FirstIndex<T(==,!new)>(xs: seq<T>, x: T): (i: nat)
    requires x in xs
    ensures i < |xs| && xs[i] == x
    ensures forall k | 0 <= k < i :: xs[k] != x
  {
    if xs[0] == x then 0 else 1 + FirstIndex(xs[1..], x)
  }

  /**
    Every element of `s` occurs in `xs`, and `s` lists them in the order
    in which they first occur in `xs`.
   */
  predicate InFirstOccurrenceOrder<T(==,!new)>(s: seq<T>, xs: seq<T>) {
    && (forall x | x in s :: x in xs)
    && (forall i, j | 0 <= i < j < |s| ::
          s[i] in xs && s[j] in xs && FirstIndex(xs, s[i]) < FirstIndex(xs, s[j]))
  }

  /** Listing elements by strictly increasing first occurrence never repeats one. */
  lemma OrderedHasNoDuplicates<T(!new)>(s: seq<T>, xs: seq<T>)
    requires InFirstOccurrenceOrder(s, xs)
    ensures NoDuplicates(s)
  {
  }

  /** Appending to `xs` leaves the first occurrences of its elements where they were. */
  lemma FirstIndexSnoc<T(!new)>(xs: seq<T>, y: T, x: T)
    requires x in xs
    ensures FirstIndex(xs + [y], x) == FirstIndex(xs, x)
  {
    var i := FirstIndex(xs, x);
    var i' := FirstIndex(xs + [y], x);
    assert (xs + [y])[i] == x;
  }

  /**
    Extending the enumeration history `xs` by one element keeps an ordered
    `s` ordered; if that element is new, it may also be appended to `s`.
   */
  lemma OrderSnoc<T(!new)>(s: seq<T>, xs: seq<T>, x: T)
    requires InFirstOccurrenceOrder(s, xs)
    ensures InFirstOccurrenceOrder(s, xs + [x])
    ensures x !in xs ==> InFirstOccurrenceOrder(s + [x], xs + [x])
  {
    var ys := xs + [x];
    forall y | y in xs ensures FirstIndex(ys, y) == FirstIndex(xs, y) {
      FirstIndexSnoc(xs, x, y);
    }
    if x !in xs {
      assert (xs + [x])[|xs|] == x;
      assert FirstIndex(ys, x) == |xs|;
      var t := s + [x];
      forall i, j | 0 <= i < j < |t|
        ensures t[i] in ys && t[j] in ys && FirstIndex(ys, t[i]) < FirstIndex(ys, t[j])
      {
        if j < |s| {
          assert t[i] == s[i] && t[j] == s[j];
        } else {
          assert t[i] == s[i] && s[i] in xs;
        }
      }
    }
  }

  /** `new Set(xs)`: the distinct elements of `xs` in order of first occurrence. */
  function Dedup<T(==,!new)>(xs: seq<T>): (r: seq<T>)
    ensures forall x :: x in r <==> x in xs
    ensures InFirstOccurrenceOrder(r, xs)
    ensures NoDuplicates(r)
  {
    if |xs| == 0 then []
    else
      var init := xs[..|xs| - 1];
      var x := xs[|xs| - 1];
      assert xs == init + [x];
      var d := Dedup(init);
      OrderSnoc(d, init, x);
      var r := if x in d then d else d + [x];
      OrderedHasNoDuplicates(r, xs);
      r
  }

  /** The elements of `s` that are not in `drop`, in their order in `s`. */
  function Difference<T(==,!new)>(s: seq<T>, drop: set<T>): (r: seq<T>)
    ensures forall x :: x in r <==> x in s && x !in drop
    ensures |r| <= |s|
  {
    if |s| == 0 then []
    else (if s[0] in drop then [] else [s[0]]) + Difference(s[1..], drop)
  }

  /** `Set.prototype.delete(x)`: removes `x`, keeping the others in order. */
  function Delete<T(==,!new)>(s: seq<T>, x: T): (r: seq<T>)
    ensures forall y :: y in r <==> y in s && y != x
  {
    Difference(s, {x})
  }

  /** Dropping `a` and then `b` is dropping `a + b`. */
  lemma {:induction false} DifferenceTwice<T(!new)>(s: seq<T>, a: set<T>, b: set<T>)
    ensures Difference(Difference(s, a), b) == Difference(s, a + b)
  {
    if |s| > 0 {
      DifferenceTwice(s[1..], a, b);
      var rest := Difference(s[1..], a);
      if s[0] in a {
        assert Difference(s, a) == rest;
      } else {
        var t := [s[0]] + rest;
        assert Difference(s, a) == t;
        assert t[1..] == rest;
      }
    }
  }

  /** Dropping the head of an ordered sequence keeps it ordered. */
  lemma OrderTail<T(!new)>(s: seq<T>, xs: seq<T>)
    requires |s| > 0 && InFirstOccurrenceOrder(s, xs)
    ensures InFirstOccurrenceOrder(s[1..], xs)
  {
    var tail := s[1..];
    forall i, j | 0 <= i < j < |tail|
      ensures tail[i] in xs && tail[j] in xs && FirstIndex(xs, tail[i]) < FirstIndex(xs, tail[j])
    {
      assert tail[i] == s[i + 1] && tail[j] == s[j + 1];
    }
  }

  /**
    An element that first occurs in `xs` before every element of `rest`
    may be put in front of an ordered `rest`.
   */
  lemma OrderCons<T(!new)>(x: T, rest: seq<T>, xs: seq<T>)
    requires x in xs && InFirstOccurrenceOrder(rest, xs)
    requires forall y | y in rest :: FirstIndex(xs, x) < FirstIndex(xs, y)
    ensures InFirstOccurrenceOrder([x] + rest, xs)
  {
    var r := [x] + rest;
    forall i, j | 0 <= i < j < |r|
      ensures r[i] in xs && r[j] in xs && FirstIndex(xs, r[i]) < FirstIndex(xs, r[j])
    {
      assert r[j] == rest[j - 1];
      if i > 0 {
        assert r[i] == rest[i - 1];
      }
    }
  }

  /** A difference keeps the relative order of what it keeps. */
  lemma {:induction false} DifferenceKeepsOrder<T(!new)>(s: seq<T>, drop: set<T>, xs: seq<T>)
    requires InFirstOccurrenceOrder(s, xs)
    ensures InFirstOccurrenceOrder(Difference(s, drop), xs)
  {
    if |s| > 0 {
      var tail := s[1..];
      OrderTail(s, xs);
      DifferenceKeepsOrder(tail, drop, xs);
      var rest := Difference(tail, drop);
      if s[0] !in drop {
        forall y | y in rest ensures FirstIndex(xs, s[0]) < FirstIndex(xs, y) {
          var k :| 0 <= k < |tail| && tail[k] == y;
          assert s[k + 1] == y;
        }
        OrderCons(s[0], rest, xs);
      }
    }
  }

  /** Dropping nothing that occurs keeps everything. */
  lemma {:induction false} DifferenceOfDisjoint<T(!new)>(s: seq<T>, drop: set<T>)
    requires forall x | x in s :: x !in drop
    ensures Difference(s, drop) == s
  {
    if |s| > 0 {
      assert forall x | x in s[1..] :: x in s;
      DifferenceOfDisjoint(s[1..], drop);
      assert [s[0]] + s[1..] == s;
    }
  }

  /** Dropping every element leaves nothing. */
  lemma DifferenceOfCovered<T(!new)>(s: seq<T>, drop: set<T>)
    requires forall x | x in s :: x in drop
    ensures Difference(s, drop) == []
  {
  }
}
