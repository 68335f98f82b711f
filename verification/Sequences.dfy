/** The list operations that several handlers share, and facts about finite sets. */
module Sequences {

  ghost predicate NoDuplicates<T>(xs: seq<T>) {
    forall i, j :: 0 <= i < j < |xs| ==> xs[i] != xs[j]
  }

  function Elements<T>(xs: seq<T>): set<T> {
    set x | x in xs
  }

  /** `xs.filter(x => x !== y)` */
  function Without<T(==)>(xs: seq<T>, y: T): seq<T> {
    if xs == [] then []
    else if xs[0] == y then Without(xs[1..], y)
    else [xs[0]] + Without(xs[1..], y)
  }

  /** Insertion order, first occurrences only. */
  function Unique<T(==)>(xs: seq<T>): seq<T> {
    if xs == [] then []
    else [xs[0]] + Without(Unique(xs[1..]), xs[0])
  }

  /** `xs.filter(keep)` */
  function Filter<T>(keep: T -> bool, xs: seq<T>): seq<T> {
    if xs == [] then []
    else (if keep(xs[0]) then [xs[0]] else []) + Filter(keep, xs[1..])
  }

  lemma {:induction false} FilterAppend<T>(keep: T -> bool, xs: seq<T>, ys: seq<T>)
    ensures Filter(keep, xs + ys) == Filter(keep, xs) + Filter(keep, ys)
  {
    hide Filter;
    if xs == [] {
      assert xs + ys == ys;
      NothingFiltered(keep, xs);
    } else {
      FilterAppend(keep, xs[1..], ys);
      FilterFirst(keep, xs);
      FilterFirst(keep, xs + ys);
      assert (xs + ys)[1..] == xs[1..] + ys;
      Regroup(if keep(xs[0]) then [xs[0]] else [], Filter(keep, xs[1..]), Filter(keep, ys));
    }
  }

  lemma NothingFiltered<T>(keep: T -> bool, xs: seq<T>)
    requires xs == []
    ensures Filter(keep, xs) == []
  {}

  lemma Regroup<T>(a: seq<T>, b: seq<T>, c: seq<T>)
    ensures a + (b + c) == (a + b) + c
  {}

  lemma FilterFirst<T>(keep: T -> bool, xs: seq<T>)
    requires xs != []
    ensures Filter(keep, xs) == (if keep(xs[0]) then [xs[0]] else []) + Filter(keep, xs[1..])
  {}

  lemma {:induction false} FilterNothing<T>(keep: T -> bool, xs: seq<T>)
    ensures Filter(keep, xs) == [] <==> forall x :: x in xs ==> !keep(x)
  {
    if xs != [] {
      FilterNothing(keep, xs[1..]);
      assert xs == [xs[0]] + xs[1..];
    }
  }

  lemma {:induction false} FilterEverything<T>(keep: T -> bool, xs: seq<T>)
    ensures |Filter(keep, xs)| <= |xs|
    ensures |Filter(keep, xs)| == |xs| <==> forall x :: x in xs ==> keep(x)
    ensures (forall x :: x in xs ==> keep(x)) ==> Filter(keep, xs) == xs
  {
    if xs != [] {
      FilterEverything(keep, xs[1..]);
      assert xs == [xs[0]] + xs[1..];
    }
  }

  lemma {:induction false} FilterContains<T>(keep: T -> bool, xs: seq<T>)
    ensures forall x :: x in Filter(keep, xs) <==> x in xs && keep(x)
  {
    if xs != [] {
      FilterContains(keep, xs[1..]);
      assert xs == [xs[0]] + xs[1..];
    }
  }

  lemma AppendElement<T>(xs: seq<T>, x: T)
    ensures Elements(xs + [x]) == Elements(xs) + {x}
  {
    assert x in xs + [x] by { assert (xs + [x])[|xs|] == x; }
  }

  lemma ExtendNoDuplicates<T>(xs: seq<T>, x: T)
    requires NoDuplicates(xs) && x !in xs
    ensures NoDuplicates(xs + [x]) && NoDuplicates([x] + xs)
  {
    var ys := [x] + xs;
    forall i, j | 0 <= i < j < |ys| ensures ys[i] != ys[j] {
      assert ys[j] == xs[j - 1];
      assert i > 0 ==> ys[i] == xs[i - 1];
    }
  }

  lemma {:induction false} WithoutContains<T>(xs: seq<T>, y: T)
    ensures forall x :: x in Without(xs, y) <==> x in xs && x != y
    ensures NoDuplicates(xs) ==> NoDuplicates(Without(xs, y))
    ensures y !in xs ==> Without(xs, y) == xs
  {
    if xs != [] {
      WithoutContains(xs[1..], y);
      assert xs == [xs[0]] + xs[1..];
      assert NoDuplicates(xs) ==> xs[0] !in xs[1..];
    }
  }

  lemma {:induction false} UniqueContains<T>(xs: seq<T>)
    ensures forall x :: x in Unique(xs) <==> x in xs
    ensures NoDuplicates(Unique(xs))
    ensures NoDuplicates(xs) ==> Unique(xs) == xs
  {
    if xs != [] {
      UniqueContains(xs[1..]);
      WithoutContains(Unique(xs[1..]), xs[0]);
      assert xs == [xs[0]] + xs[1..];
      assert NoDuplicates(xs) ==> xs[0] !in xs[1..];
    }
  }

  /** A duplicate-free list is as long as its set of elements is large, and any other list is longer. */
  lemma {:induction false} LengthVersusSize<T>(xs: seq<T>)
    ensures |Elements(xs)| <= |xs|
    ensures NoDuplicates(xs) <==> |Elements(xs)| == |xs|
  {
    hide NoDuplicates;
    if xs == [] {
      assert NoDuplicates(xs) by { NothingRepeats<T>(); }
    } else {
      LengthVersusSize(xs[1..]);
      NoDuplicatesByTail(xs);
      assert xs == [xs[0]] + xs[1..];
      assert Elements(xs) == Elements(xs[1..]) + {xs[0]};
    }
  }

  lemma NothingRepeats<T>()
    ensures NoDuplicates<T>([])
  {}

  lemma NoDuplicatesByTail<T>(xs: seq<T>)
    requires xs != []
    ensures NoDuplicates(xs) <==> xs[0] !in xs[1..] && NoDuplicates(xs[1..])
  {
    var rest := xs[1..];
    assert xs == [xs[0]] + rest;
    if xs[0] !in rest && NoDuplicates(rest) {
      ExtendNoDuplicates(rest, xs[0]);
    }
    if NoDuplicates(xs) {
      forall i, j | 0 <= i < j < |rest| ensures rest[i] != rest[j] {
        assert xs[i + 1] != xs[j + 1];
      }
      forall k | 0 <= k < |rest| ensures rest[k] != xs[0] { assert xs[0] != xs[k + 1]; }
    }
  }

  // ---------- Sets ----------

  lemma {:induction false} Least(xs: set<nat>) returns (least: nat)
    requires xs != {}
    ensures least in xs && forall x :: x in xs ==> least <= x
    decreases |xs|
  {
    least :| least in xs;
    var rest := xs - {least};
    if rest != {} {
      var w := Least(rest);
      forall x | x in xs ensures (if least < w then least else w) <= x {
        assert x == least || x in rest;
      }
      least := if least < w then least else w;
    } else {
      forall x | x in xs ensures x == least {
        assert x !in rest;
      }
    }
  }

  lemma SubsetSize<T>(a: set<T>, b: set<T>)
    requires a <= b
    ensures |a| <= |b|
    ensures a != b ==> |a| < |b|
  {
    assert b == a + (b - a);
    if a != b { assert b - a != {}; }
  }
}
