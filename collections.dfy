/** The two collection idioms the analytics code is built from: a plain
    object used as a dictionary of lists (`if (!d[k]) d[k] = []; d[k].push(v)`)
    and `Array.prototype.sort` with a numeric comparator. */
module Collections {
  import opened Wrappers

  /** A dictionary of lists: its keys in insertion order (the order
      `Object.entries` reports them) and the list under each key. */
  datatype Groups<K> = Groups(order: seq<K>, buckets: map<K, seq<real>>)

  /** Every listed key has a list, every list is listed, no key twice. */
  ghost predicate WellFormed<K>(g: Groups<K>) {
    && (forall i, j :: 0 <= i < j < |g.order| ==> g.order[i] != g.order[j])
    && g.buckets.Keys == set k | k in g.order
  }

  /** One step of the `forEach`: create the key's list if missing, then push
      the value when it parsed. */
  function Add<K(==)>(g: Groups<K>, k: K, v: Option<real>): Groups<K> {
    var order := if k in g.buckets then g.order else g.order + [k];
    var current := if k in g.buckets then g.buckets[k] else [];
    Groups(order, g.buckets[k := if v.Some? then current + [v.value] else current])
  }

  /** The dictionary the `forEach` leaves behind after visiting `xs`. */
  function Group<T, K(==)>(xs: seq<T>, key: T -> K, val: T -> Option<real>): Groups<K> {
    if xs == [] then Groups([], map[])
    else Add(Group(xs[..|xs| - 1], key, val), key(xs[|xs| - 1]), val(xs[|xs| - 1]))
  }

  /** The parsed values of the elements whose key is `k`, in input order. */
  function ValuesWithKey<T, K(==)>(xs: seq<T>, key: T -> K, val: T -> Option<real>, k: K): seq<real> {
    if xs == [] then []
    else
      var last := xs[|xs| - 1];
      ValuesWithKey(xs[..|xs| - 1], key, val, k)
        + (if key(last) == k && val(last).Some? then [val(last).value] else [])
  }

  /** Some element of `xs` has key `k`. */
  ghost predicate KeyOccurs<T, K>(xs: seq<T>, key: T -> K, k: K) {
    exists i :: 0 <= i < |xs| && key(xs[i]) == k
  }

  lemma KeyOccursSnoc<T, K>(xs: seq<T>, key: T -> K, k: K)
    requires xs != []
    ensures KeyOccurs(xs, key, k) <==> KeyOccurs(xs[..|xs| - 1], key, k) || key(xs[|xs| - 1]) == k
  {
    var init := xs[..|xs| - 1];
    if KeyOccurs(init, key, k) {
      var i :| 0 <= i < |init| && key(init[i]) == k;
      assert key(xs[i]) == k;
    }
    if KeyOccurs(xs, key, k) {
      var i :| 0 <= i < |xs| && key(xs[i]) == k;
      if i < |init| {
        assert key(init[i]) == k;
      }
    }
  }

  /** A key that never occurs collects nothing. */
  lemma {:induction false} ValuesWithAbsentKey<T, K>(xs: seq<T>, key: T -> K, val: T -> Option<real>, k: K)
    requires !KeyOccurs(xs, key, k)
    ensures ValuesWithKey(xs, key, val, k) == []
  {
    if xs != [] {
      KeyOccursSnoc(xs, key, k);
      ValuesWithAbsentKey(xs[..|xs| - 1], key, val, k);
    }
  }

  /** The dictionary has exactly the keys that occur, once each. */
  lemma {:induction false} GroupKeys<T, K>(xs: seq<T>, key: T -> K, val: T -> Option<real>)
    ensures WellFormed(Group(xs, key, val))
    ensures forall k :: k in Group(xs, key, val).buckets <==> KeyOccurs(xs, key, k)
  {
    if xs != [] {
      GroupKeys(xs[..|xs| - 1], key, val);
      forall k ensures k in Group(xs, key, val).buckets <==> KeyOccurs(xs, key, k) {
        KeyOccursSnoc(xs, key, k);
      }
    }
  }

  lemma GroupHasKey<T, K>(xs: seq<T>, key: T -> K, val: T -> Option<real>, k: K)
    ensures k in Group(xs, key, val).buckets <==> KeyOccurs(xs, key, k)
  {
    GroupKeys(xs, key, val);
  }

  /** Every element's key is in the dictionary's key order. */
  lemma GroupCovers<T, K>(xs: seq<T>, key: T -> K, val: T -> Option<real>)
    ensures WellFormed(Group(xs, key, val))
    ensures forall i :: 0 <= i < |xs| ==> key(xs[i]) in Group(xs, key, val).order
  {
    GroupKeys(xs, key, val);
    forall i | 0 <= i < |xs|
      ensures key(xs[i]) in Group(xs, key, val).order
    {
      GroupHasKey(xs, key, val, key(xs[i]));
    }
  }

  /** Under each key lie exactly the parsed values of the elements with
      that key, in input order. */
  lemma {:induction false} GroupValues<T, K>(xs: seq<T>, key: T -> K, val: T -> Option<real>)
    ensures forall k :: k in Group(xs, key, val).buckets ==>
              Group(xs, key, val).buckets[k] == ValuesWithKey(xs, key, val, k)
  {
    if xs != [] {
      var init := xs[..|xs| - 1];
      GroupValues(init, key, val);
      forall k | k in Group(xs, key, val).buckets
        ensures Group(xs, key, val).buckets[k] == ValuesWithKey(xs, key, val, k)
      {
        if k !in Group(init, key, val).buckets {
          GroupHasKey(init, key, val, k);
          ValuesWithAbsentKey(init, key, val, k);
        }
      }
    }
  }

  /** The `forEach` loop itself, filling the dictionary in place. */
  method GroupByKey<T, K(==)>(xs: seq<T>, key: T -> K, val: T -> Option<real>) returns (g: Groups<K>)
    ensures g == Group(xs, key, val)
  {
    var order: seq<K> := [];
    var buckets: map<K, seq<real>> := map[];
    for i := 0 to |xs|
      invariant Groups(order, buckets) == Group(xs[..i], key, val)
    {
      assert xs[..i + 1][..i] == xs[..i];
      var k := key(xs[i]);
      if k !in buckets {
        order := order + [k];
        buckets := buckets[k := []];
      }
      var v := val(xs[i]);
      if v.Some? {
        buckets := buckets[k := buckets[k] + [v.value]];
      }
    }
    assert xs[..|xs|] == xs;
    g := Groups(order, buckets);
  }

  /** `Object.entries` of a well-formed dictionary. */
  function Entries<K>(g: Groups<K>): (es: seq<(K, seq<real>)>)
    requires WellFormed(g)
    ensures |es| == |g.order|
    ensures forall i :: 0 <= i < |es| ==> es[i].0 == g.order[i] && es[i].1 == g.buckets[g.order[i]]
  {
    seq(|g.order|, i requires 0 <= i < |g.order| => (g.order[i], g.buckets[g.order[i]]))
  }

  /** Some key's list is empty: every value under it failed to parse. */
  predicate HasEmptyBucket<K>(g: Groups<K>)
    requires WellFormed(g)
  {
    exists i :: 0 <= i < |g.order| && Entries(g)[i].1 == []
  }

  /** The entries of a grouping, in first-occurrence order: each holds a
      key that occurs and exactly the values collected under it, and every
      element's key has an entry. */
  lemma GroupEntries<T, K>(xs: seq<T>, key: T -> K, val: T -> Option<real>)
    ensures WellFormed(Group(xs, key, val))
    ensures var es := Entries(Group(xs, key, val));
      && (forall i :: 0 <= i < |es| ==> KeyOccurs(xs, key, es[i].0) && es[i].1 == ValuesWithKey(xs, key, val, es[i].0))
      && (forall i, j :: 0 <= i < j < |es| ==> es[i].0 != es[j].0)
      && (forall i :: 0 <= i < |xs| ==> exists j :: 0 <= j < |es| && es[j].0 == key(xs[i]))
  {
    var g := Group(xs, key, val);
    GroupKeys(xs, key, val);
    GroupValues(xs, key, val);
    var es := Entries(g);
    forall i | 0 <= i < |es|
      ensures KeyOccurs(xs, key, es[i].0)
    {
      GroupHasKey(xs, key, val, es[i].0);
    }
    forall i | 0 <= i < |xs|
      ensures exists j :: 0 <= j < |es| && es[j].0 == key(xs[i])
    {
      GroupHasKey(xs, key, val, key(xs[i]));
      assert key(xs[i]) in g.order;
    }
  }

  /** A grouping has an empty list exactly when some element's key
      collected no value. */
  lemma GroupEmptyBucket<T, K>(xs: seq<T>, key: T -> K, val: T -> Option<real>)
    ensures WellFormed(Group(xs, key, val))
    ensures HasEmptyBucket(Group(xs, key, val)) <==>
      (exists i :: 0 <= i < |xs| && ValuesWithKey(xs, key, val, key(xs[i])) == [])
  {
    GroupKeys(xs, key, val);
    if exists i :: 0 <= i < |xs| && ValuesWithKey(xs, key, val, key(xs[i])) == [] {
      var i :| 0 <= i < |xs| && ValuesWithKey(xs, key, val, key(xs[i])) == [];
      EmptyBucketOfElement(xs, key, val, i);
    }
    if HasEmptyBucket(Group(xs, key, val)) {
      ElementOfEmptyBucket(xs, key, val);
    }
  }

  lemma EmptyBucketOfElement<T, K>(xs: seq<T>, key: T -> K, val: T -> Option<real>, i: int)
    requires 0 <= i < |xs| && ValuesWithKey(xs, key, val, key(xs[i])) == []
    ensures WellFormed(Group(xs, key, val)) && HasEmptyBucket(Group(xs, key, val))
  {
    var g := Group(xs, key, val);
    var k := key(xs[i]);
    GroupKeys(xs, key, val);
    assert KeyOccurs(xs, key, k);
    GroupHasKey(xs, key, val, k);
    GroupValues(xs, key, val);
    assert g.buckets[k] == [];
    var j :| 0 <= j < |g.order| && g.order[j] == k;
    assert Entries(g)[j].1 == [];
  }

  lemma ElementOfEmptyBucket<T, K>(xs: seq<T>, key: T -> K, val: T -> Option<real>)
    requires WellFormed(Group(xs, key, val)) && HasEmptyBucket(Group(xs, key, val))
    ensures exists i :: 0 <= i < |xs| && ValuesWithKey(xs, key, val, key(xs[i])) == []
  {
    var g := Group(xs, key, val);
    var es := Entries(g);
    var j :| 0 <= j < |es| && es[j].1 == [];
    var k := g.order[j];
    GroupHasKey(xs, key, val, k);
    GroupValues(xs, key, val);
    var i :| 0 <= i < |xs| && key(xs[i]) == k;
    assert ValuesWithKey(xs, key, val, key(xs[i])) == [];
  }

  ghost predicate SortedBy<T>(s: seq<T>, key: T -> int) {
    forall i, j :: 0 <= i < j < |s| ==> key(s[i]) <= key(s[j])
  }

  /** Inserts `x` in front of the first element with a key of at least
      its own... after every element with a smaller one. */
  function InsertBy<T>(x: T, s: seq<T>, key: T -> int): seq<T> {
    if s == [] || key(x) <= key(s[0]) then [x] + s
    else [s[0]] + InsertBy(x, s[1..], key)
  }

  /** `s.slice().sort((a, b) => key(a) - key(b))`: a stable sort by a
      numeric key (insertion sort from the back). */
  function SortBy<T>(s: seq<T>, key: T -> int): seq<T> {
    if s == [] then [] else InsertBy(s[0], SortBy(s[1..], key), key)
  }

  lemma {:induction false} InsertByCount<T>(x: T, s: seq<T>, key: T -> int)
    ensures multiset(InsertBy(x, s, key)) == multiset(s) + multiset{x}
    ensures |InsertBy(x, s, key)| == |s| + 1
    ensures InsertBy(x, s, key)[0] == x || InsertBy(x, s, key)[0] == s[0]
  {
    if s != [] && key(x) > key(s[0]) {
      InsertByCount(x, s[1..], key);
      assert s == [s[0]] + s[1..];
    }
  }

  /** A sorted list stays sorted with a smaller-keyed element in front. */
  lemma SortedCons<T>(h: T, t: seq<T>, key: T -> int)
    requires SortedBy(t, key) && (t != [] ==> key(h) <= key(t[0]))
    ensures SortedBy([h] + t, key)
  {
    var r := [h] + t;
    forall i, j | 0 <= i < j < |r|
      ensures key(r[i]) <= key(r[j])
    {
      assert r[j] == t[j - 1];
      if i > 0 {
        assert r[i] == t[i - 1];
      }
    }
  }

  lemma {:induction false} InsertBySorted<T>(x: T, s: seq<T>, key: T -> int)
    requires SortedBy(s, key)
    ensures SortedBy(InsertBy(x, s, key), key)
  {
    if s == [] || key(x) <= key(s[0]) {
      SortedCons(x, s, key);
    } else {
      InsertBySorted(x, s[1..], key);
      InsertByCount(x, s[1..], key);
      SortedCons(s[0], InsertBy(x, s[1..], key), key);
    }
  }

  /** Inserting into a sorted list keeps it sorted and adds exactly the
      new element. */
  lemma InsertByCorrect<T>(x: T, s: seq<T>, key: T -> int)
    requires SortedBy(s, key)
    ensures SortedBy(InsertBy(x, s, key), key)
    ensures multiset(InsertBy(x, s, key)) == multiset(s) + multiset{x}
    ensures |InsertBy(x, s, key)| == |s| + 1
  {
    InsertBySorted(x, s, key);
    InsertByCount(x, s, key);
  }

  lemma {:induction false} SortByCount<T>(s: seq<T>, key: T -> int)
    ensures multiset(SortBy(s, key)) == multiset(s)
    ensures |SortBy(s, key)| == |s|
  {
    if s != [] {
      SortByCount(s[1..], key);
      InsertByCount(s[0], SortBy(s[1..], key), key);
      assert s == [s[0]] + s[1..];
    }
  }

  lemma {:induction false} SortBySorted<T>(s: seq<T>, key: T -> int)
    ensures SortedBy(SortBy(s, key), key)
  {
    if s != [] {
      SortBySorted(s[1..], key);
      InsertBySorted(s[0], SortBy(s[1..], key), key);
    }
  }

  /** Sorting keeps exactly the elements it was given. */
  lemma SortByMembers<T>(s: seq<T>, key: T -> int)
    ensures forall x :: x in SortBy(s, key) <==> x in s
  {
    SortByCount(s, key);
    forall x
      ensures x in SortBy(s, key) <==> x in s
    {
      assert x in SortBy(s, key) <==> x in multiset(SortBy(s, key));
      assert x in s <==> x in multiset(s);
    }
  }

  /** The sorted list is ordered by the key and is a permutation of the input. */
  lemma SortByCorrect<T>(s: seq<T>, key: T -> int)
    ensures SortedBy(SortBy(s, key), key)
    ensures multiset(SortBy(s, key)) == multiset(s)
    ensures |SortBy(s, key)| == |s|
  {
    SortBySorted(s, key);
    SortByCount(s, key);
  }

  /** No two elements share a key. */
  ghost predicate DistinctKeys<T>(s: seq<T>, key: T -> int) {
    forall i, j :: 0 <= i < j < |s| ==> key(s[i]) != key(s[j])
  }

  /** Keys strictly increase along the list. */
  ghost predicate StrictlySortedBy<T>(s: seq<T>, key: T -> int) {
    forall i, j :: 0 <= i < j < |s| ==> key(s[i]) < key(s[j])
  }

  /** A property every element has survives an insertion. */
  lemma {:induction false} InsertByAll<T>(x: T, s: seq<T>, key: T -> int, p: T -> bool)
    requires p(x) && forall k :: 0 <= k < |s| ==> p(s[k])
    ensures forall k :: 0 <= k < |InsertBy(x, s, key)| ==> p(InsertBy(x, s, key)[k])
  {
    if s == [] || key(x) <= key(s[0]) {
      var r := [x] + s;
      assert InsertBy(x, s, key) == r;
      forall k | 0 <= k < |r|
        ensures p(r[k])
      {
        if k > 0 {
          assert r[k] == s[k - 1];
        }
      }
    } else {
      var tail := s[1..];
      assert forall k :: 0 <= k < |tail| ==> p(tail[k]) by {
        forall k | 0 <= k < |tail|
          ensures p(tail[k])
        {
          assert tail[k] == s[k + 1];
        }
      }
      InsertByAll(x, tail, key, p);
      var r := [s[0]] + InsertBy(x, tail, key);
      assert InsertBy(x, s, key) == r;
      forall k | 0 <= k < |r|
        ensures p(r[k])
      {
        if k > 0 {
          assert r[k] == InsertBy(x, tail, key)[k - 1];
        }
      }
    }
  }

  /** A property every element has survives the sort. */
  lemma {:induction false} SortByAll<T>(s: seq<T>, key: T -> int, p: T -> bool)
    requires forall k :: 0 <= k < |s| ==> p(s[k])
    ensures forall k :: 0 <= k < |SortBy(s, key)| ==> p(SortBy(s, key)[k])
  {
    if s != [] {
      var tail := s[1..];
      assert forall k :: 0 <= k < |tail| ==> p(tail[k]) by {
        forall k | 0 <= k < |tail|
          ensures p(tail[k])
        {
          assert tail[k] == s[k + 1];
        }
      }
      SortByAll(tail, key, p);
      InsertByAll(s[0], SortBy(tail, key), key, p);
    }
  }

  /** Inserting an element with a key of its own into a strictly sorted
      list keeps it strictly sorted. */
  lemma {:induction false} InsertByStrict<T>(x: T, s: seq<T>, key: T -> int)
    requires StrictlySortedBy(s, key)
    requires forall y :: y in s ==> key(y) != key(x)
    ensures StrictlySortedBy(InsertBy(x, s, key), key)
  {
    if s == [] || key(x) <= key(s[0]) {
      var r := [x] + s;
      assert InsertBy(x, s, key) == r;
      forall i, j | 0 <= i < j < |r|
        ensures key(r[i]) < key(r[j])
      {
        assert r[j] == s[j - 1];
        if i == 0 {
          assert s[0] in s;
          assert key(x) < key(s[0]);
          assert j - 1 == 0 || key(s[0]) < key(s[j - 1]);
        } else {
          assert r[i] == s[i - 1];
        }
      }
    } else {
      var tail := s[1..];
      assert StrictlySortedBy(tail, key) by {
        forall i, j | 0 <= i < j < |tail|
          ensures key(tail[i]) < key(tail[j])
        {
          assert tail[i] == s[i + 1] && tail[j] == s[j + 1];
        }
      }
      InsertByStrict(x, tail, key);
      assert forall k :: 0 <= k < |tail| ==> key(s[0]) < key(tail[k]) by {
        forall k | 0 <= k < |tail|
          ensures key(s[0]) < key(tail[k])
        {
          assert tail[k] == s[k + 1];
        }
      }
      InsertByAll(x, tail, key, y => key(s[0]) < key(y));
      var rest := InsertBy(x, tail, key);
      var r := [s[0]] + rest;
      assert InsertBy(x, s, key) == r;
      forall i, j | 0 <= i < j < |r|
        ensures key(r[i]) < key(r[j])
      {
        assert r[j] == rest[j - 1];
        if i > 0 {
          assert r[i] == rest[i - 1];
        }
      }
    }
  }

  /** Sorting a list whose keys are distinct orders it strictly. */
  lemma {:induction false} SortByStrict<T>(s: seq<T>, key: T -> int)
    requires DistinctKeys(s, key)
    ensures StrictlySortedBy(SortBy(s, key), key)
  {
    if s != [] {
      var tail := s[1..];
      assert DistinctKeys(tail, key) by {
        forall i, j | 0 <= i < j < |tail|
          ensures key(tail[i]) != key(tail[j])
        {
          assert tail[i] == s[i + 1] && tail[j] == s[j + 1];
        }
      }
      SortByStrict(tail, key);
      assert forall k :: 0 <= k < |tail| ==> key(tail[k]) != key(s[0]) by {
        forall k | 0 <= k < |tail|
          ensures key(tail[k]) != key(s[0])
        {
          assert tail[k] == s[k + 1];
        }
      }
      SortByAll(tail, key, y => key(y) != key(s[0]));
      var sorted := SortBy(tail, key);
      assert forall y :: y in sorted ==> key(y) != key(s[0]) by {
        forall y | y in sorted
          ensures key(y) != key(s[0])
        {
          var m :| 0 <= m < |sorted| && sorted[m] == y;
        }
      }
      InsertByStrict(s[0], sorted, key);
    }
  }

  /** `s.filter(p)`: the elements satisfying `p`, in order. */
  function Filter<T>(s: seq<T>, p: T -> bool): (r: seq<T>)
    ensures |r| <= |s|
    ensures forall i :: 0 <= i < |r| ==> p(r[i])
    ensures multiset(r) <= multiset(s)
  {
    if s == [] then []
    else
      var init := s[..|s| - 1];
      assert s == init + [s[|s| - 1]];
      Filter(init, p) + (if p(s[|s| - 1]) then [s[|s| - 1]] else [])
  }

  /** An element survives the filter exactly when it satisfies `p`. */
  lemma {:induction false} FilterKeeps<T>(s: seq<T>, p: T -> bool, x: T)
    ensures x in Filter(s, p) <==> x in s && p(x)
  {
    if s != [] {
      var init := s[..|s| - 1];
      assert s == init + [s[|s| - 1]];
      FilterKeeps(init, p, x);
    }
  }

  /** `s.map(f).filter(v => !isNaN(v))`: the values that parsed, in order. */
  function Present<T>(s: seq<T>, f: T -> Option<real>): (r: seq<real>)
    ensures |r| <= |s|
  {
    if s == [] then []
    else
      var last := f(s[|s| - 1]);
      Present(s[..|s| - 1], f) + (if last.Some? then [last.value] else [])
  }

  /** A value is present exactly when it comes from some element. */
  lemma {:induction false} PresentMembers<T>(s: seq<T>, f: T -> Option<real>, v: real)
    ensures v in Present(s, f) <==> exists i :: 0 <= i < |s| && f(s[i]) == Some(v)
  {
    if s != [] {
      var init := s[..|s| - 1];
      PresentMembers(init, f, v);
      if exists i :: 0 <= i < |init| && f(init[i]) == Some(v) {
        var i :| 0 <= i < |init| && f(init[i]) == Some(v);
        assert f(s[i]) == Some(v);
      }
      if exists i :: 0 <= i < |s| && f(s[i]) == Some(v) {
        var i :| 0 <= i < |s| && f(s[i]) == Some(v);
        if i < |init| {
          assert f(init[i]) == Some(v);
        }
      }
    }
  }

  /** `s.slice(-n)` for n > 0: the last n elements, or all when fewer. */
  function LastN<T>(s: seq<T>, n: nat): (r: seq<T>)
    requires n > 0
    ensures |r| == if |s| < n then |s| else n
    ensures forall i :: 0 <= i < |r| ==> r[i] == s[|s| - |r| + i]
  {
    if |s| < n then s else s[|s| - n..]
  }
}
