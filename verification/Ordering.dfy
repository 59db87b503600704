/** Ordering rows by (scheduled_at, id), and by id alone: ORDER BY and LIMIT. */
module Ordering {

  /** A sort key; rows ordered by id alone have `at` 0. */
  datatype Key = Key(at: int, id: nat)

  predicate Less(a: Key, b: Key) {
    a.at < b.at || (a.at == b.at && a.id < b.id)
  }

  predicate Ascending(q: seq<Key>) {
    forall i, j | 0 <= i < j < |q| :: Less(q[i], q[j])
  }

  /** `q` lists the keys in order, each once. */
  ghost predicate IsOrdering(q: seq<Key>, keys: set<Key>) {
    Ascending(q) && (forall k :: k in q <==> k in keys)
  }

  predicate IsLeast(m: Key, keys: set<Key>) {
    m in keys && forall k | k in keys :: k == m || Less(m, k)
  }

  lemma {:induction false} LeastExists(keys: set<Key>)
    requires keys != {}
    ensures exists m :: IsLeast(m, keys)
    decreases |keys|
  {
    var some :| some in keys;
    if keys == {some} {
      assert IsLeast(some, keys);
    } else {
      var rest := keys - {some};
      LeastExists(rest);
      var m :| IsLeast(m, rest);
      var least := if Less(some, m) then some else m;
      forall k | k in keys
        ensures k == least || Less(least, k)
      {
        if k != some {
          assert k in rest;
        }
      }
      assert IsLeast(least, keys);
    }
  }

  ghost function Least(keys: set<Key>): (m: Key)
    requires keys != {}
    ensures IsLeast(m, keys)
  {
    LeastExists(keys);
    var m :| IsLeast(m, keys);
    m
  }

  ghost function Ordered(keys: set<Key>): seq<Key>
    decreases |keys|
  {
    if keys == {} then [] else [Least(keys)] + Ordered(keys - {Least(keys)})
  }

  lemma {:induction false} OrderedIsOrdering(keys: set<Key>)
    ensures IsOrdering(Ordered(keys), keys)
    ensures |Ordered(keys)| == |keys|
    decreases |keys|
  {
    if keys != {} {
      var m := Least(keys);
      OrderedIsOrdering(keys - {m});
      var q, rest := Ordered(keys), Ordered(keys - {m});
      assert q == [m] + rest;
      forall i, j | 0 <= i < j < |q|
        ensures Less(q[i], q[j])
      {
        assert q[j] == rest[j - 1] && rest[j - 1] in rest;
      }
    }
  }

  /** There is one way to list keys in order. */
  lemma {:induction false} OrderingIsUnique(q: seq<Key>, keys: set<Key>)
    requires IsOrdering(q, keys)
    ensures q == Ordered(keys)
    decreases |q|
  {
    if q != [] {
      var m := q[0];
      assert m in keys;
      assert m == Least(keys);
      forall k
        ensures k in q[1..] <==> k in keys - {m}
      {
        if k in q[1..] {
          var i :| 0 < i < |q| && q[i] == k;
          assert Less(q[0], q[i]);
        }
      }
      OrderingIsUnique(q[1..], keys - {m});
    } else {
      assert keys == {};
    }
  }

  /** ORDER BY ... LIMIT n */
  ghost function FirstOf(keys: set<Key>, limit: nat): seq<Key> {
    var q := Ordered(keys);
    if limit < |q| then q[..limit] else q
  }

  /** The first keys are some of the keys, as many as asked for if there are, and nothing left out comes before them. */
  lemma FirstOfIsFirst(keys: set<Key>, limit: nat)
    ensures var q := FirstOf(keys, limit);
            && Ascending(q)
            && |q| == (if limit < |keys| then limit else |keys|)
            && (forall k | k in q :: k in keys)
            && (forall k, l | k in q && l in keys && l !in q :: Less(k, l))
            && (|q| < limit ==> forall k | k in keys :: k in q)
  {
    OrderedIsOrdering(keys);
    var all, q := Ordered(keys), FirstOf(keys, limit);
    forall k, l | k in q && l in keys && l !in q
      ensures Less(k, l)
    {
      var i :| 0 <= i < |q| && q[i] == k;
      assert l in all;
      var j :| 0 <= j < |all| && all[j] == l;
      assert q[i] == all[i];
      assert forall n | 0 <= n < |q| :: q[n] == all[n];
    }
  }

  lemma AscendingJoin(q: seq<Key>, r: seq<Key>)
    requires Ascending(q) && Ascending(r)
    requires forall k, l | k in q && l in r :: Less(k, l)
    ensures Ascending(q + r)
  {
    var both := q + r;
    forall i, j | 0 <= i < j < |both|
      ensures Less(both[i], both[j])
    {
      if i < |q| && |q| <= j {
        assert both[i] in q && both[j] in r;
      }
    }
  }

  /** Nothing else than `FirstOf` has these properties. */
  lemma FirstOfIsUnique(q: seq<Key>, keys: set<Key>, limit: nat)
    requires Ascending(q) && |q| <= limit
    requires forall k | k in q :: k in keys
    requires forall k, l | k in q && l in keys && l !in q :: Less(k, l)
    requires |q| < limit ==> forall k | k in keys :: k in q
    ensures q == FirstOf(keys, limit)
  {
    var rest := set k | k in keys && k !in q;
    var r := Ordered(rest);
    OrderedIsOrdering(rest);
    AscendingJoin(q, r);
    OrderingIsUnique(q + r, keys);
    if |q| < limit {
      assert rest == {};
      assert q + r == q;
    }
  }

  // ----- sort.Slice by key

  function Insert(key: Key, q: seq<Key>): seq<Key> {
    if q == [] || Less(key, q[0]) then [key] + q else [q[0]] + Insert(key, q[1..])
  }

  function Sort(q: seq<Key>): seq<Key> {
    if q == [] then [] else Insert(q[0], Sort(q[1..]))
  }

  predicate Distinct(q: seq<Key>) {
    forall i, j | 0 <= i < j < |q| :: q[i] != q[j]
  }

  lemma {:induction false} InsertKeepsOrder(key: Key, q: seq<Key>)
    requires Ascending(q) && key !in q
    ensures Ascending(Insert(key, q))
    ensures forall k :: k in Insert(key, q) <==> k == key || k in q
  {
    if q != [] && !Less(key, q[0]) {
      InsertKeepsOrder(key, q[1..]);
      assert q == [q[0]] + q[1..];
      forall l | l in Insert(key, q[1..])
        ensures Less(q[0], l)
      {
      }
      AscendingJoin([q[0]], Insert(key, q[1..]));
    } else {
      forall l | l in q
        ensures Less(key, l)
      {
      }
      AscendingJoin([key], q);
    }
  }

  lemma {:induction false} SortSorts(q: seq<Key>)
    requires Distinct(q)
    ensures Ascending(Sort(q))
    ensures forall k :: k in Sort(q) <==> k in q
  {
    if q != [] {
      SortSorts(q[1..]);
      InsertKeepsOrder(q[0], Sort(q[1..]));
      assert q == [q[0]] + q[1..];
    }
  }

  /** Sorting and cutting off is ORDER BY and LIMIT. */
  lemma SortedPrefixIsFirst(q: seq<Key>, keys: set<Key>, limit: nat)
    requires Distinct(q)
    requires forall k :: k in q <==> k in keys
    ensures (if |Sort(q)| > limit then Sort(q)[..limit] else Sort(q)) == FirstOf(keys, limit)
  {
    SortSorts(q);
    OrderingIsUnique(Sort(q), keys);
  }
}
