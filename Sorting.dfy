/** `Array.prototype.sort` with a comparator, as the index scripts use it:
    a stable sort by a total preorder. It is written as an insertion sort;
    only its result matters to the scripts. */
module Sorting {

  /** `le` is total and transitive: what a consistent comparator gives. */
  ghost predicate TotalPreorder<T(!new)>(le: (T, T) -> bool) {
    (forall a, b :: le(a, b) || le(b, a)) &&
    (forall a, b, c :: le(a, b) && le(b, c) ==> le(a, c))
  }

  /** Every earlier element is at most every later one. */
  ghost predicate SortedBy<T>(xs: seq<T>, le: (T, T) -> bool) {
    forall i, j :: 0 <= i < j < |xs| ==> le(xs[i], xs[j])
  }

  /** `a` and `b` rank equal under `le`. */
  ghost predicate Tied<T>(a: T, b: T, le: (T, T) -> bool) {
    le(a, b) && le(b, a)
  }

  /** The elements of `xs` that rank equal to `e`, in their order in `xs`.
      A sort is stable when it keeps this sequence for every `e`. */
  ghost function Ties<T>(xs: seq<T>, e: T, le: (T, T) -> bool): seq<T>
    decreases |xs|
  {
    if |xs| == 0 then []
    else (if Tied(xs[0], e, le) then [xs[0]] else []) + Ties(xs[1..], e, le)
  }

  /** Puts `x` before the first element it is at most, so that `x` stays
      ahead of the equal elements that came after it in the input. */
  function Insert<T(!new)>(x: T, xs: seq<T>, le: (T, T) -> bool): (r: seq<T>)
    requires TotalPreorder(le) && SortedBy(xs, le)
    ensures SortedBy(r, le)
    ensures multiset(r) == multiset(xs) + multiset{x}
    ensures |r| == |xs| + 1
    decreases |xs|
  {
    if |xs| == 0 then [x]
    else if le(x, xs[0]) then [x] + xs
    else
      var rest := Insert(x, xs[1..], le);
      assert xs == [xs[0]] + xs[1..];
      assert forall k :: 0 <= k < |rest| ==> le(xs[0], rest[k]) by {
        forall k | 0 <= k < |rest| ensures le(xs[0], rest[k]) {
          assert rest[k] in multiset(rest);
          if rest[k] != x {
            assert rest[k] in multiset(xs[1..]);
            var m :| 0 <= m < |xs[1..]| && xs[1..][m] == rest[k];
            assert xs[m + 1] == rest[k];
          }
        }
      }
      [xs[0]] + rest
  }

  /** `Ties` of a sequence with a first element. */
  lemma TiesCons<T>(h: T, t: seq<T>, e: T, le: (T, T) -> bool)
    ensures Ties([h] + t, e, le) == (if Tied(h, e, le) then [h] else []) + Ties(t, e, le)
  {
    assert ([h] + t)[1..] == t;
  }

  /** Inserting `x` puts it ahead of the elements already there that rank
      equal to it, and leaves their order alone. */
  lemma {:induction false} InsertTies<T(!new)>(x: T, xs: seq<T>, le: (T, T) -> bool, e: T)
    requires TotalPreorder(le) && SortedBy(xs, le)
    ensures Ties(Insert(x, xs, le), e, le) == (if Tied(x, e, le) then [x] else []) + Ties(xs, e, le)
    decreases |xs|
  {
    if |xs| == 0 || le(x, xs[0]) {
      assert Insert(x, xs, le) == [x] + xs;
      TiesCons(x, xs, e, le);
    } else {
      var rest := Insert(x, xs[1..], le);
      assert Insert(x, xs, le) == [xs[0]] + rest;
      assert xs == [xs[0]] + xs[1..];
      InsertTies(x, xs[1..], le, e);
      var h := xs[0];
      assert le(x, e) && le(e, h) ==> le(x, h);
      TiesPast(x, h, rest, xs[1..], le, e);
    }
  }

  /** An element `h` that `x` goes past: since the two cannot both rank
      equal to `e`, their order among the ties does not matter. */
  lemma TiesPast<T>(x: T, h: T, rest: seq<T>, later: seq<T>, le: (T, T) -> bool, e: T)
    requires Tied(x, e, le) ==> !Tied(h, e, le)
    requires Ties(rest, e, le) == (if Tied(x, e, le) then [x] else []) + Ties(later, e, le)
    ensures Ties([h] + rest, e, le) == (if Tied(x, e, le) then [x] else []) + Ties([h] + later, e, le)
  {
    TiesCons(h, rest, e, le);
    TiesCons(h, later, e, le);
  }

  /** The sorted copy of `xs`: a permutation of it, sorted by `le`, in
      which elements that rank equal keep their order in `xs`. */
  function SortBy<T(!new)>(xs: seq<T>, le: (T, T) -> bool): (r: seq<T>)
    requires TotalPreorder(le)
    ensures SortedBy(r, le)
    ensures multiset(r) == multiset(xs)
    ensures |r| == |xs|
    ensures forall e :: Ties(r, e, le) == Ties(xs, e, le)
    decreases |xs|
  {
    if |xs| == 0 then []
    else
      assert xs == [xs[0]] + xs[1..];
      var sorted := SortBy(xs[1..], le);
      assert forall e :: Ties(Insert(xs[0], sorted, le), e, le) == Ties(xs, e, le) by {
        forall e ensures Ties(Insert(xs[0], sorted, le), e, le) == Ties(xs, e, le) {
          InsertTies(xs[0], sorted, le, e);
        }
      }
      Insert(xs[0], sorted, le)
  }
}
