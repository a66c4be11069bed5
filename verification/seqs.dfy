/** Generic sequence operations behind the catalogue helpers: the array
    methods `filter`, `find` and `sort`, de-duplication through a `Set`, and
    grouping by a key with `reduce` into an insertion-ordered record. */
module Seqs {
  import opened Wrappers

  // ---------------------------------------------------------------------
  // filter
  // ---------------------------------------------------------------------

  /** `s.filter(p)`: the elements of `s` satisfying `p`, in their order. */
  function Filter<T>(s: seq<T>, p: T -> bool): (r: seq<T>)
    ensures |r| <= |s|
    ensures forall i :: 0 <= i < |r| ==> r[i] in s && p(r[i])
    ensures forall i :: 0 <= i < |s| && p(s[i]) ==> s[i] in r
  {
    if s == [] then []
    else if p(s[0]) then [s[0]] + Filter(s[1..], p)
    else Filter(s[1..], p)
  }

  /** Membership in a filter, as a single equivalence. */
  lemma FilterMembers<T>(s: seq<T>, p: T -> bool, x: T)
    ensures x in Filter(s, p) <==> x in s && p(x)
  {
    if x in s && p(x) {
      var i :| 0 <= i < |s| && s[i] == x;
    }
  }

  /** Filtering an extended sequence filters the extension separately: the
      left-to-right reading that grouping relies on. */
  lemma {:induction false} FilterSnoc<T>(s: seq<T>, y: T, p: T -> bool)
    ensures Filter(s + [y], p) == Filter(s, p) + (if p(y) then [y] else [])
  {
    if s == [] {
      assert s + [y] == [y];
      assert [y][1..] == [];
    } else {
      assert (s + [y])[0] == s[0];
      assert (s + [y])[1..] == s[1..] + [y];
      FilterSnoc(s[1..], y, p);
    }
  }

  /** A filter no element passes is empty. */
  lemma {:induction false} FilterNone<T>(s: seq<T>, p: T -> bool)
    requires forall i :: 0 <= i < |s| ==> !p(s[i])
    ensures Filter(s, p) == []
  {
    if s != [] {
      assert !p(s[0]);
      FilterNone(s[1..], p);
    }
  }

  /** The multiset of a filter is the multiset of the passing elements. */
  lemma {:induction false} FilterMultiset<T>(s: seq<T>, p: T -> bool, x: T)
    ensures multiset(Filter(s, p))[x] == if p(x) then multiset(s)[x] else 0
  {
    if s != [] {
      FilterMultiset(s[1..], p, x);
      assert s == [s[0]] + s[1..];
      assert multiset(s) == multiset{s[0]} + multiset(s[1..]);
      if p(s[0]) {
        assert Filter(s, p) == [s[0]] + Filter(s[1..], p);
      }
    }
  }

  // ---------------------------------------------------------------------
  // Subsequences
  // ---------------------------------------------------------------------

  /** `idx` lists strictly increasing positions of `b` that spell out `a`. */
  ghost predicate Embeds<T>(a: seq<T>, b: seq<T>, idx: seq<nat>)
  {
    && |idx| == |a|
    && (forall k :: 0 <= k < |idx| ==> idx[k] < |b| && b[idx[k]] == a[k])
    && (forall k, l :: 0 <= k < l < |idx| ==> idx[k] < idx[l])
  }

  /** `a` is obtained from `b` by deleting elements, keeping the order. */
  ghost predicate IsSubsequence<T>(a: seq<T>, b: seq<T>)
  {
    exists idx :: Embeds(a, b, idx)
  }

  /** Every position moved one to the right. */
  function Shift(idx: seq<nat>): (r: seq<nat>)
    ensures |r| == |idx|
    ensures forall k :: 0 <= k < |idx| ==> r[k] == idx[k] + 1
  {
    seq(|idx|, k requires 0 <= k < |idx| => idx[k] + 1)
  }

  /** The filter keeps the order of the table: it is a subsequence. */
  lemma {:induction false} FilterIsSubsequence<T>(s: seq<T>, p: T -> bool)
    ensures IsSubsequence(Filter(s, p), s)
  {
    var idx := FilterPositions(s, p);
  }

  /** An embedding into the tail of `s` shifted into `s`, with or without
      the head of `s` in front. */
  lemma EmbedsStep<T>(a: seq<T>, s: seq<T>, idx: seq<nat>)
    requires 0 < |s| && Embeds(a, s[1..], idx)
    ensures Embeds(a, s, Shift(idx))
    ensures Embeds([s[0]] + a, s, [0] + Shift(idx))
  {
    var shifted := Shift(idx);
    forall k | 0 <= k < |idx|
      ensures shifted[k] < |s| && s[shifted[k]] == a[k]
    {
      assert s[1..][idx[k]] == s[idx[k] + 1];
    }
  }

  /** Positions of the filtered elements, by induction on the table. */
  lemma {:induction false} FilterPositions<T>(s: seq<T>, p: T -> bool) returns (idx: seq<nat>)
    ensures Embeds(Filter(s, p), s, idx)
  {
    if s == [] {
      idx := [];
    } else {
      var rest := FilterPositions(s[1..], p);
      EmbedsStep(Filter(s[1..], p), s, rest);
      if p(s[0]) {
        idx := [0] + Shift(rest);
      } else {
        idx := Shift(rest);
      }
    }
  }

  // ---------------------------------------------------------------------
  // find
  // ---------------------------------------------------------------------

  /** `s.findIndex(p)`, with `None` for JavaScript's `-1`. */
  function FindIndex<T>(s: seq<T>, p: T -> bool): (r: Option<nat>)
    ensures r.Some? ==> r.value < |s| && p(s[r.value])
    ensures r.Some? ==> forall j :: 0 <= j < r.value ==> !p(s[j])
    ensures r.None? <==> forall j :: 0 <= j < |s| ==> !p(s[j])
  {
    if s == [] then None
    else if p(s[0]) then Some(0)
    else match FindIndex(s[1..], p)
      case None => None
      case Some(i) => Some(i + 1)
  }

  /** `s.find(p)`: the first element satisfying `p`, `None` for `undefined`. */
  function Find<T>(s: seq<T>, p: T -> bool): (r: Option<T>)
    ensures r.Some? ==> r.value in s && p(r.value)
    ensures r.None? <==> forall i :: 0 <= i < |s| ==> !p(s[i])
  {
    match FindIndex(s, p)
    case None => None
    case Some(i) => Some(s[i])
  }

  /** What `find` returns is the element at the first passing position. */
  lemma FindIsFirst<T>(s: seq<T>, p: T -> bool)
    ensures Find(s, p).Some? ==>
      exists i :: 0 <= i < |s| && Find(s, p).value == s[i] && p(s[i]) &&
        forall j :: 0 <= j < i ==> !p(s[j])
  {
    if Find(s, p).Some? {
      var i := FindIndex(s, p).value;
      assert Find(s, p).value == s[i];
    }
  }

  // ---------------------------------------------------------------------
  // sort by a numeric key
  // ---------------------------------------------------------------------

  /** Non-decreasing by `key`. */
  ghost predicate SortedBy<T>(s: seq<T>, key: T -> int)
  {
    forall i, j :: 0 <= i < j < |s| ==> key(s[i]) <= key(s[j])
  }

  /** Insert `x` before the first element whose key is not smaller, so
      equal keys keep their input order. */
  function Insert<T>(x: T, s: seq<T>, key: T -> int): (r: seq<T>)
    ensures |r| == |s| + 1
  {
    if s == [] then [x]
    else if key(x) <= key(s[0]) then [x] + s
    else [s[0]] + Insert(x, s[1..], key)
  }

  /** Inserting into a sorted sequence keeps it sorted; no element of the
      result is smaller than both `x` and the old head. */
  lemma {:induction false} InsertSorted<T>(x: T, s: seq<T>, key: T -> int)
    requires SortedBy(s, key)
    ensures SortedBy(Insert(x, s, key), key)
    ensures forall i :: 0 <= i < |Insert(x, s, key)| ==>
      key(x) <= key(Insert(x, s, key)[i]) || (0 < |s| && key(s[0]) <= key(Insert(x, s, key)[i]))
  {
    if s != [] && key(s[0]) < key(x) {
      var rest := Insert(x, s[1..], key);
      InsertSorted(x, s[1..], key);
      assert forall k :: 0 <= k < |rest| ==> key(s[0]) <= key(rest[k]) by {
        if 1 < |s| {
          assert s[1..][0] == s[1];
        }
      }
      assert Insert(x, s, key) == [s[0]] + rest;
    }
  }

  /** Inserting adds exactly one copy of `x`. */
  lemma {:induction false} InsertMultiset<T>(x: T, s: seq<T>, key: T -> int)
    ensures multiset(Insert(x, s, key)) == multiset(s) + multiset{x}
  {
    if s != [] && key(s[0]) < key(x) {
      InsertMultiset(x, s[1..], key);
      assert s == [s[0]] + s[1..];
      assert Insert(x, s, key) == [s[0]] + Insert(x, s[1..], key);
    }
  }

  /** `s.sort((a, b) => key(a) - key(b))` as an insertion sort. */
  function SortBy<T>(s: seq<T>, key: T -> int): (r: seq<T>)
    ensures SortedBy(r, key)
    ensures multiset(r) == multiset(s)
    ensures |r| == |s|
  {
    if s == [] then []
    else
      var t := SortBy(s[1..], key);
      InsertSorted(s[0], t, key);
      InsertMultiset(s[0], t, key);
      assert s == [s[0]] + s[1..];
      Insert(s[0], t, key)
  }

  /** Sorting neither adds nor drops an element. */
  lemma SortKeepsMembers<T>(s: seq<T>, key: T -> int, x: T)
    ensures x in SortBy(s, key) <==> x in s
  {
    assert x in SortBy(s, key) <==> x in multiset(SortBy(s, key));
    assert x in s <==> x in multiset(s);
  }

  // ---------------------------------------------------------------------
  // [...new Set(s)]
  // ---------------------------------------------------------------------

  /** Position of the first occurrence of `x`. */
  function FirstIndex<T(==)>(s: seq<T>, x: T): (r: nat)
    requires x in s
    ensures r < |s| && s[r] == x && x !in s[..r]
  {
    if s[0] == x then 0
    else
      var r := 1 + FirstIndex(s[1..], x);
      assert s[..r] == [s[0]] + s[1..][..r - 1];
      r
  }

  /** Extending a sequence does not move an existing first occurrence. */
  lemma {:induction false} FirstIndexPrefix<T>(p: seq<T>, q: seq<T>, x: T)
    requires x in p
    ensures FirstIndex(p + q, x) == FirstIndex(p, x)
  {
    if p[0] != x {
      assert (p + q)[0] == p[0];
      assert (p + q)[1..] == p[1..] + q;
      FirstIndexPrefix(p[1..], q, x);
    }
  }

  /** No value appears twice. */
  ghost predicate NoDuplicates<T>(s: seq<T>)
  {
    forall i, j :: 0 <= i < j < |s| ==> s[i] != s[j]
  }

  /** `[...new Set(s)]`: each distinct value once, at its first occurrence.
      Read left to right, as the set is filled. */
  function Dedupe<T(==)>(s: seq<T>): (r: seq<T>)
    ensures |r| <= |s|
  {
    if s == [] then []
    else
      var d := Dedupe(s[..|s| - 1]);
      if s[|s| - 1] in d then d else d + [s[|s| - 1]]
  }

  /** One step of the left-to-right reading. */
  lemma DedupeSnoc<T>(s: seq<T>, y: T)
    ensures Dedupe(s + [y]) == if y in Dedupe(s) then Dedupe(s) else Dedupe(s) + [y]
  {
    assert (s + [y])[..|s|] == s;
  }

  /** The result holds exactly the values of the input. */
  lemma {:induction false} DedupeMembers<T>(s: seq<T>)
    ensures forall x :: x in Dedupe(s) <==> x in s
  {
    if s != [] {
      var p := s[..|s| - 1];
      assert s == p + [s[|s| - 1]];
      DedupeMembers(p);
      DedupeSnoc(p, s[|s| - 1]);
    }
  }

  /** No value is listed twice. */
  lemma {:induction false} DedupeNoDuplicates<T>(s: seq<T>)
    ensures NoDuplicates(Dedupe(s))
  {
    if s != [] {
      var p := s[..|s| - 1];
      assert s == p + [s[|s| - 1]];
      DedupeNoDuplicates(p);
      DedupeSnoc(p, s[|s| - 1]);
    }
  }

  /** Every value of `d` occurs in `s`, and `d` lists them in the order of
      their first occurrence in `s`. */
  ghost predicate FirstOrdered<T>(s: seq<T>, d: seq<T>)
  {
    (forall i :: 0 <= i < |d| ==> d[i] in s) &&
    forall i, j :: 0 <= i < j < |d| ==> FirstIndex(s, d[i]) < FirstIndex(s, d[j])
  }

  /** Appending to `s` keeps the order of `d`; a value new to `s` can be
      listed after all of `d`. */
  lemma FirstOrderedSnoc<T>(p: seq<T>, y: T, d: seq<T>)
    requires FirstOrdered(p, d)
    ensures FirstOrdered(p + [y], d)
    ensures y !in p ==> FirstOrdered(p + [y], d + [y])
  {
    var s := p + [y];
    forall i | 0 <= i < |d|
      ensures d[i] in s && FirstIndex(s, d[i]) == FirstIndex(p, d[i])
    {
      FirstIndexPrefix(p, [y], d[i]);
    }
    if y !in p {
      var r := FirstIndex(s, y);
      assert r == |p|;
      var e := d + [y];
      forall i, j | 0 <= i < j < |e|
        ensures FirstIndex(s, e[i]) < FirstIndex(s, e[j])
      {
        assert e[i] == d[i];
        if j < |d| {
          assert e[j] == d[j];
        }
      }
    }
  }

  /** Values are listed in the order of their first occurrence. */
  lemma {:induction false} DedupeFirstOccurrence<T>(s: seq<T>)
    ensures forall x :: x in Dedupe(s) <==> x in s
    ensures FirstOrdered(s, Dedupe(s))
  {
    DedupeMembers(s);
    if s != [] {
      var p := s[..|s| - 1];
      var y := s[|s| - 1];
      assert s == p + [y];
      DedupeFirstOccurrence(p);
      DedupeSnoc(p, y);
      FirstOrderedSnoc(p, y, Dedupe(p));
    }
  }

  // ---------------------------------------------------------------------
  // Grouping with reduce into an insertion-ordered record
  // ---------------------------------------------------------------------

  /** One property of the grouped record: its key and its array. */
  datatype Group<K, T> = Group(key: K, items: seq<T>)

  /** The record's keys in insertion order. */
  function Keys<K, T>(g: seq<Group<K, T>>): (r: seq<K>)
    ensures |r| == |g|
    ensures forall i :: 0 <= i < |g| ==> r[i] == g[i].key
  {
    seq(|g|, i requires 0 <= i < |g| => g[i].key)
  }

  /** Total number of grouped elements. */
  function Total<K, T>(g: seq<Group<K, T>>): nat
  {
    if g == [] then 0 else |g[0].items| + Total(g[1..])
  }

  /** `s.map(key)`. */
  function Project<T, K>(s: seq<T>, key: T -> K): (r: seq<K>)
    ensures |r| == |s|
    ensures forall i :: 0 <= i < |s| ==> r[i] == key(s[i])
  {
    seq(|s|, i requires 0 <= i < |s| => key(s[i]))
  }

  /** The predicate "has key `k`". */
  function KeyIs<T, K(==)>(key: T -> K, k: K): T -> bool
  {
    x => key(x) == k
  }

  /** One reducer step: create the key's array if missing, then push. */
  function Push<K(==), T>(g: seq<Group<K, T>>, k: K, x: T): (r: seq<Group<K, T>>)
    ensures |r| == if k in Keys(g) then |g| else |g| + 1
  {
    if g == [] then [Group(k, [x])]
    else if g[0].key == k then [Group(k, g[0].items + [x])] + g[1..]
    else
      assert Keys(g) == [g[0].key] + Keys(g[1..]);
      [g[0]] + Push(g[1..], k, x)
  }

  /** A step changes no key already in the record. */
  lemma {:induction false} PushKeepsKeys<K, T>(g: seq<Group<K, T>>, k: K, x: T)
    ensures forall i :: 0 <= i < |g| ==> Push(g, k, x)[i].key == g[i].key
  {
    if g != [] && g[0].key != k {
      PushKeepsKeys(g[1..], k, x);
      var r := Push(g, k, x);
      forall i | 1 <= i < |g|
        ensures r[i].key == g[i].key
      {
        assert r[i] == Push(g[1..], k, x)[i - 1] && g[i] == g[1..][i - 1];
      }
    }
  }

  /** A step adds the key at the end exactly when it is new. */
  lemma PushKeys<K, T>(g: seq<Group<K, T>>, k: K, x: T)
    ensures Keys(Push(g, k, x)) == if k in Keys(g) then Keys(g) else Keys(g) + [k]
  {
    var r := Push(g, k, x);
    PushKeepsKeys(g, k, x);
    if k !in Keys(g) {
      forall i | 0 <= i < |g|
        ensures g[i].key != k
      {
        assert Keys(g)[i] == g[i].key;
      }
      PushNew(g, k, x);
      assert r[|g|].key == k;
    }
  }

  /** A step appends `x` to the array of its key and to no other array. */
  lemma {:induction false} PushItems<K, T>(g: seq<Group<K, T>>, k: K, x: T)
    requires forall i, j :: 0 <= i < j < |g| ==> g[i].key != g[j].key
    ensures forall i :: 0 <= i < |g| ==>
      Push(g, k, x)[i] == if g[i].key == k then Group(k, g[i].items + [x]) else g[i]
  {
    if g != [] {
      var rest := g[1..];
      var r := Push(g, k, x);
      if g[0].key != k {
        PushItems(rest, k, x);
        assert r == [g[0]] + Push(rest, k, x);
        forall i | 1 <= i < |g|
          ensures r[i] == if g[i].key == k then Group(k, g[i].items + [x]) else g[i]
        {
          assert r[i] == Push(rest, k, x)[i - 1] && g[i] == rest[i - 1];
        }
      } else {
        assert r == [Group(k, g[0].items + [x])] + rest;
      }
    }
  }

  /** A key not yet in the record gets a new array at the end. */
  lemma {:induction false} PushNew<K, T>(g: seq<Group<K, T>>, k: K, x: T)
    requires forall i :: 0 <= i < |g| ==> g[i].key != k
    ensures Push(g, k, x) == g + [Group(k, [x])]
  {
    if g != [] {
      assert g[0].key != k;
      PushNew(g[1..], k, x);
      assert g == [g[0]] + g[1..];
    }
  }

  /** A step adds one element in all. */
  lemma {:induction false} PushTotal<K, T>(g: seq<Group<K, T>>, k: K, x: T)
    ensures Total(Push(g, k, x)) == Total(g) + 1
  {
    if g != [] {
      if g[0].key == k {
        assert Push(g, k, x)[1..] == g[1..];
      } else {
        PushTotal(g[1..], k, x);
        assert Push(g, k, x)[1..] == Push(g[1..], k, x);
      }
    }
  }

  /** `s.reduce` with the push step, left to right from `{}`. */
  function GroupBy<K(==), T>(s: seq<T>, key: T -> K): (r: seq<Group<K, T>>)
    ensures |r| <= |s|
  {
    if s == [] then []
    else
      var y := s[|s| - 1];
      Push(GroupBy(s[..|s| - 1], key), key(y), y)
  }

  /** The record's keys are the distinct keys, in first-occurrence order. */
  lemma {:induction false} GroupByKeys<K, T>(s: seq<T>, key: T -> K)
    ensures Keys(GroupBy(s, key)) == Dedupe(Project(s, key))
  {
    if s != [] {
      var p := s[..|s| - 1];
      var y := s[|s| - 1];
      assert Project(s, key) == Project(p, key) + [key(y)];
      GroupByKeys(p, key);
      PushKeys(GroupBy(p, key), key(y), y);
      DedupeSnoc(Project(p, key), key(y));
    }
  }

  /** The record never holds a key twice. */
  lemma GroupByDistinctKeys<K, T>(s: seq<T>, key: T -> K)
    ensures forall i, j :: 0 <= i < j < |GroupBy(s, key)| ==>
      GroupBy(s, key)[i].key != GroupBy(s, key)[j].key
  {
    var g := GroupBy(s, key);
    GroupByKeys(s, key);
    DedupeNoDuplicates(Project(s, key));
    forall i, j | 0 <= i < j < |g|
      ensures g[i].key != g[j].key
    {
      assert Keys(g)[i] == g[i].key && Keys(g)[j] == g[j].key;
    }
  }

  /** A key the record does not hold is the key of no element. */
  lemma GroupByAbsentKey<K, T>(s: seq<T>, key: T -> K, k: K)
    requires k !in Keys(GroupBy(s, key))
    ensures Filter(s, KeyIs(key, k)) == []
  {
    GroupByKeys(s, key);
    DedupeMembers(Project(s, key));
    forall j | 0 <= j < |s|
      ensures !KeyIs(key, k)(s[j])
    {
      assert Project(s, key)[j] == key(s[j]);
    }
    FilterNone(s, KeyIs(key, k));
  }

  /** Each array holds exactly the elements with its key, in input order. */
  lemma {:induction false} GroupByItems<K, T>(s: seq<T>, key: T -> K)
    ensures forall i :: 0 <= i < |GroupBy(s, key)| ==>
      GroupBy(s, key)[i].items == Filter(s, KeyIs(key, GroupBy(s, key)[i].key))
  {
    if s != [] {
      var p := s[..|s| - 1];
      var y := s[|s| - 1];
      assert s == p + [y];
      var g := GroupBy(p, key);
      var r := GroupBy(s, key);
      GroupByItems(p, key);
      GroupByDistinctKeys(p, key);
      PushItems(g, key(y), y);
      if key(y) !in Keys(g) {
        forall i | 0 <= i < |g|
          ensures g[i].key != key(y)
        {
          assert Keys(g)[i] == g[i].key;
        }
        PushNew(g, key(y), y);
        GroupByAbsentKey(p, key, key(y));
      }
      forall i | 0 <= i < |r|
        ensures r[i].items == Filter(s, KeyIs(key, r[i].key))
      {
        FilterSnoc(p, y, KeyIs(key, r[i].key));
      }
    }
  }

  /** The arrays together hold every element once. */
  lemma {:induction false} GroupByTotal<K, T>(s: seq<T>, key: T -> K)
    ensures Total(GroupBy(s, key)) == |s|
  {
    if s != [] {
      GroupByTotal(s[..|s| - 1], key);
      PushTotal(GroupBy(s[..|s| - 1], key), key(s[|s| - 1]), s[|s| - 1]);
    }
  }
}
