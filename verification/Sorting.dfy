/**
 Stable sorting by a key, as `Array.prototype.sort` does it, and the one fact the ledgers need: lists
 with distinct keys and the same members sort to the same list.
 */
module Sorting {

  datatype Key = Key(block: int, logIndex: int, order: int)

  predicate Less(a: Key, b: Key) {
    a.block < b.block || (a.block == b.block && (a.logIndex < b.logIndex || (a.logIndex == b.logIndex && a.order < b.order)))
  }

  predicate Sorted<T>(xs: seq<T>, key: T -> Key) {
    forall i, j :: 0 <= i < j < |xs| ==> !Less(key(xs[j]), key(xs[i]))
  }

  predicate StrictlySorted<T>(xs: seq<T>, key: T -> Key) {
    forall i, j :: 0 <= i < j < |xs| ==> Less(key(xs[i]), key(xs[j]))
  }

  predicate DistinctKeys<T>(xs: seq<T>, key: T -> Key) {
    forall i, j :: 0 <= i < j < |xs| ==> key(xs[i]) != key(xs[j])
  }

  function Insert<T>(x: T, xs: seq<T>, key: T -> Key): seq<T> {
    if xs == [] || !Less(key(xs[0]), key(x)) then [x] + xs else [xs[0]] + Insert(x, xs[1..], key)
  }

  function Sort<T>(xs: seq<T>, key: T -> Key): seq<T> {
    if xs == [] then [] else Insert(xs[0], Sort(xs[1..], key), key)
  }

  lemma {:induction false} InsertKeeps<T>(x: T, xs: seq<T>, key: T -> Key)
    ensures multiset(Insert(x, xs, key)) == multiset(xs) + multiset{x}
  {
    if xs != [] && Less(key(xs[0]), key(x)) {
      InsertKeeps(x, xs[1..], key);
      assert xs == [xs[0]] + xs[1..];
    }
  }

  lemma InMultiset<T>(xs: seq<T>, x: T)
    ensures x in multiset(xs) <==> x in xs
  {
  }

  lemma {:induction false} InsertSorts<T>(x: T, xs: seq<T>, key: T -> Key)
    requires Sorted(xs, key)
    ensures Sorted(Insert(x, xs, key), key)
  {
    if xs != [] && Less(key(xs[0]), key(x)) {
      var rest := Insert(x, xs[1..], key);
      InsertSorts(x, xs[1..], key);
      InsertKeeps(x, xs[1..], key);
      forall j | 0 <= j < |rest|
        ensures !Less(key(rest[j]), key(xs[0]))
      {
        InMultiset(rest, rest[j]);
        InMultiset(xs[1..], rest[j]);
      }
    }
  }

  /** Sorting orders the list and keeps every member as often as it occurs. */
  lemma {:induction false} SortSorts<T>(xs: seq<T>, key: T -> Key)
    ensures Sorted(Sort(xs, key), key)
    ensures multiset(Sort(xs, key)) == multiset(xs)
  {
    if xs != [] {
      SortSorts(xs[1..], key);
      InsertSorts(xs[0], Sort(xs[1..], key), key);
      InsertKeeps(xs[0], Sort(xs[1..], key), key);
      assert xs == [xs[0]] + xs[1..];
    }
  }

  lemma SameHead<T>(xs: seq<T>, ys: seq<T>, key: T -> Key)
    requires Sorted(xs, key) && StrictlySorted(ys, key) && multiset(xs) == multiset(ys) && xs != []
    ensures ys != [] && xs[0] == ys[0]
  {
    InMultiset(xs, xs[0]);
    InMultiset(ys, xs[0]);
    InMultiset(ys, ys[0]);
    InMultiset(xs, ys[0]);
    var i :| 0 <= i < |ys| && ys[i] == xs[0];
    var j :| 0 <= j < |xs| && xs[j] == ys[0];
  }

  /** A strictly sorted list is the only sorted list of its members. */
  lemma {:induction false} SortedIsUnique<T>(xs: seq<T>, ys: seq<T>, key: T -> Key)
    requires Sorted(xs, key) && StrictlySorted(ys, key) && multiset(xs) == multiset(ys)
    ensures xs == ys
    decreases |xs|
  {
    hide Less;
    if xs != [] {
      SameHead(xs, ys, key);
      assert xs == [xs[0]] + xs[1..] && ys == [ys[0]] + ys[1..];
      assert multiset(xs[1..]) == multiset(xs) - multiset{xs[0]};
      assert multiset(ys[1..]) == multiset(ys) - multiset{ys[0]};
      SortedIsUnique(xs[1..], ys[1..], key);
    } else {
      assert |multiset(ys)| == 0;
    }
  }

  lemma SortOfStrict<T>(xs: seq<T>, ys: seq<T>, key: T -> Key)
    requires StrictlySorted(ys, key) && multiset(xs) == multiset(ys)
    ensures Sort(xs, key) == ys
  {
    SortSorts(xs, key);
    SortedIsUnique(Sort(xs, key), ys, key);
  }

  // ---- Filtering ----

  function Filter<T>(xs: seq<T>, p: T -> bool): seq<T> {
    if xs == [] then [] else if p(xs[0]) then [xs[0]] + Filter(xs[1..], p) else Filter(xs[1..], p)
  }

  lemma {:induction false} FilterAppend<T>(xs: seq<T>, x: T, p: T -> bool)
    ensures Filter(xs + [x], p) == if p(x) then Filter(xs, p) + [x] else Filter(xs, p)
  {
    if xs != [] {
      FilterAppend(xs[1..], x, p);
      assert (xs + [x])[1..] == xs[1..] + [x];
    } else {
      assert (xs + [x])[1..] == [];
    }
  }

  lemma {:induction false} FilterMembers<T(!new)>(xs: seq<T>, p: T -> bool)
    ensures forall x :: multiset(Filter(xs, p))[x] == if p(x) then multiset(xs)[x] else 0
    ensures forall x :: x in Filter(xs, p) <==> x in xs && p(x)
  {
    if xs != [] {
      FilterMembers(xs[1..], p);
      assert xs == [xs[0]] + xs[1..];
    }
  }

  lemma {:induction false} FilterInsert<T(!new)>(x: T, xs: seq<T>, key: T -> Key, p: T -> bool)
    requires Sorted(xs, key)
    ensures Filter(Insert(x, xs, key), p) == if p(x) then Insert(x, Filter(xs, p), key) else Filter(xs, p)
  {
    hide Less;
    if xs == [] || !Less(key(xs[0]), key(x)) {
      FilterMembers(xs, p);
      assert ([x] + xs)[1..] == xs;
      if xs != [] && Filter(xs, p) != [] {
        LeadsAll(xs, key, x, Filter(xs, p)[0]);
      }
    } else {
      FilterInsert(x, xs[1..], key, p);
      var rest := Insert(x, xs[1..], key);
      assert ([xs[0]] + rest)[1..] == rest;
      if p(xs[0]) {
        assert ([xs[0]] + Filter(xs[1..], p))[1..] == Filter(xs[1..], p);
      }
    }
  }

  lemma LeadsAll<T>(xs: seq<T>, key: T -> Key, x: T, y: T)
    requires Sorted(xs, key) && y in xs && !Less(key(xs[0]), key(x))
    ensures !Less(key(y), key(x))
  {
  }

  /** A stable sort orders the members of a class as if they had been sorted alone. */
  lemma {:induction false} FilterSort<T(!new)>(xs: seq<T>, key: T -> Key, p: T -> bool)
    ensures Filter(Sort(xs, key), p) == Sort(Filter(xs, p), key)
  {
    if xs != [] {
      FilterSort(xs[1..], key, p);
      SortSorts(xs[1..], key);
      FilterInsert(xs[0], Sort(xs[1..], key), key, p);
      if p(xs[0]) {
        assert ([xs[0]] + Filter(xs[1..], p))[1..] == Filter(xs[1..], p);
      }
    }
  }

  lemma {:induction false} FilterConcat<T>(xs: seq<T>, ys: seq<T>, p: T -> bool)
    ensures Filter(xs + ys, p) == Filter(xs, p) + Filter(ys, p)
  {
    if xs == [] {
      assert xs + ys == ys;
    } else {
      FilterConcat(xs[1..], ys, p);
      assert (xs + ys)[1..] == xs[1..] + ys;
    }
  }

  lemma {:induction false} FilterTwice<T>(xs: seq<T>, p: T -> bool)
    ensures Filter(Filter(xs, p), p) == Filter(xs, p)
  {
    if xs != [] {
      FilterTwice(xs[1..], p);
      assert ([xs[0]] + Filter(xs[1..], p))[1..] == Filter(xs[1..], p);
    }
  }
}
