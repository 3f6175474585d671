/** What the app needs of its document store: tables of documents keyed by
    system-assigned ids, listed in creation order or newest first, filtered
    in order, and the "copy only the defined fields" loop that the update
    mutations run before patching a document. Ids are handed out in
    increasing order, so id order stands for creation-time order. */
module Store {

  datatype Option<T> = None | Some(value: T) {
    function GetOr(default: T): T {
      if Some? then value else default
    }
  }

  datatype Result<T> = Ok(value: T) | Err(message: string)

  /** A stored document: its id and its fields. */
  datatype Doc<T> = Doc(id: nat, value: T)

  /** The table's documents, oldest first (`collect()` with the default order). */
  function Ascending<T(!new)>(m: map<nat, T>, n: nat): (r: seq<Doc<T>>)
    ensures forall d :: d in r <==> d.id < n && d.id in m && m[d.id] == d.value
    ensures forall i, j :: 0 <= i < j < |r| ==> r[i].id < r[j].id
  {
    if n == 0 then []
    else Ascending(m, n - 1) + (if n - 1 in m then [Doc(n - 1, m[n - 1])] else [])
  }

  /** The table's documents, newest first (`order("desc")`). */
  function Descending<T(!new)>(m: map<nat, T>, n: nat): (r: seq<Doc<T>>)
    ensures forall d :: d in r <==> d.id < n && d.id in m && m[d.id] == d.value
    ensures forall i, j :: 0 <= i < j < |r| ==> r[i].id > r[j].id
  {
    if n == 0 then []
    else (if n - 1 in m then [Doc(n - 1, m[n - 1])] else []) + Descending(m, n - 1)
  }

  function KeysBelow<T>(m: map<nat, T>, n: nat): set<nat> {
    set k | k in m && k < n
  }

  lemma {:induction false} AscendingCount<T(!new)>(m: map<nat, T>, n: nat)
    ensures |Ascending(m, n)| == |KeysBelow(m, n)|
  {
    if n > 0 {
      AscendingCount(m, n - 1);
      if n - 1 in m {
        assert KeysBelow(m, n) == KeysBelow(m, n - 1) + {n - 1};
      } else {
        assert KeysBelow(m, n) == KeysBelow(m, n - 1);
      }
    }
  }

  /** Once every id is below `n`, listing the table yields one document per
      stored id. */
  lemma AscendingLength<T(!new)>(m: map<nat, T>, n: nat)
    requires forall k :: k in m ==> k < n
    ensures |Ascending(m, n)| == |m|
  {
    AscendingCount(m, n);
    assert KeysBelow(m, n) == m.Keys;
  }

  /** `xs.filter(p)`. */
  function Filter<T(!new)>(s: seq<T>, p: T -> bool): (r: seq<T>)
    ensures |r| <= |s|
    ensures forall x :: x in r <==> x in s && p(x)
  {
    if s == [] then [] else (if p(s[0]) then [s[0]] else []) + Filter(s[1..], p)
  }

  /** Filtering a concatenation filters each part. */
  lemma {:induction false} FilterAppend<T(!new)>(a: seq<T>, b: seq<T>, p: T -> bool)
    ensures Filter(a + b, p) == Filter(a, p) + Filter(b, p)
  {
    if a == [] {
      assert a + b == b;
    } else {
      assert (a + b)[0] == a[0] && (a + b)[1..] == a[1..] + b;
      FilterAppend(a[1..], b, p);
    }
  }

  /** The positions of `s` whose element passes `p`. */
  function Passing<T>(s: seq<T>, p: T -> bool): set<nat> {
    set i: nat | i < |s| && p(s[i])
  }

  lemma PassingSnoc<T>(s: seq<T>, x: T, p: T -> bool)
    ensures Passing(s + [x], p) == Passing(s, p) + (if p(x) then {|s|} else {})
  {
  }

  /** A filter keeps one element per position whose element passes. */
  lemma {:induction false} FilterLength<T(!new)>(s: seq<T>, p: T -> bool)
    ensures |Filter(s, p)| == |Passing(s, p)|
  {
    if s != [] {
      var n := |s| - 1;
      var front := s[..n];
      FilterLength(front, p);
      assert s == front + [s[n]];
      FilterAppend(front, [s[n]], p);
      PassingSnoc(front, s[n], p);
    } else {
      assert Passing(s, p) == {};
    }
  }

  /** The ids of the table's documents below `n` whose document passes `p`. */
  function PassingKeys<T>(m: map<nat, T>, n: nat, p: Doc<T> -> bool): set<nat> {
    set k | k in m && k < n && p(Doc(k, m[k]))
  }

  lemma NoPassingKeys<T>(m: map<nat, T>, p: Doc<T> -> bool)
    ensures PassingKeys(m, 0, p) == {}
  {
  }

  /** The document stored under `n - 1`, if there is one, as a list. */
  function Last<T>(m: map<nat, T>, n: nat): seq<Doc<T>>
    requires n > 0
  {
    if n - 1 in m then [Doc(n - 1, m[n - 1])] else []
  }

  lemma FilterLast<T(!new)>(m: map<nat, T>, n: nat, p: Doc<T> -> bool)
    requires n > 0
    ensures |Filter(Ascending(m, n), p)| == |Filter(Ascending(m, n - 1), p)| + |Filter(Last(m, n), p)|
  {
    assert Ascending(m, n) == Ascending(m, n - 1) + Last(m, n);
    FilterAppend(Ascending(m, n - 1), Last(m, n), p);
  }

  /** The id `n - 1` adds one to the count exactly when it is stored and its
      document passes. */
  lemma LastCount<T(!new)>(m: map<nat, T>, n: nat, p: Doc<T> -> bool)
    requires n > 0
    ensures |Filter(Last(m, n), p)| + |PassingKeys(m, n - 1, p)| == |PassingKeys(m, n, p)|
  {
    var extra := if n - 1 in m && p(Doc(n - 1, m[n - 1])) then {n - 1} else {};
    assert PassingKeys(m, n, p) == PassingKeys(m, n - 1, p) + extra;
    assert n - 1 !in PassingKeys(m, n - 1, p);
  }

  /** Filtering the table's documents keeps one per stored id whose document
      passes. */
  lemma AscendingFilterCount<T(!new)>(m: map<nat, T>, n: nat, p: Doc<T> -> bool)
    ensures |Filter(Ascending(m, n), p)| == |PassingKeys(m, n, p)|
  {
    NoPassingKeys(m, p);
    for i := 0 to n
      invariant |Filter(Ascending(m, i), p)| == |PassingKeys(m, i, p)|
    {
      FilterLast(m, i + 1, p);
      LastCount(m, i + 1, p);
    }
  }

  /** `a` is `b` with some elements dropped, the rest in their order. */
  predicate IsSubsequence<T(==)>(a: seq<T>, b: seq<T>) {
    a == [] || (b != [] && ((a[0] == b[0] && IsSubsequence(a[1..], b[1..])) || IsSubsequence(a, b[1..])))
  }

  /** Filtering keeps the survivors in their original order. */
  lemma {:induction false} FilterKeepsOrder<T(!new)>(s: seq<T>, p: T -> bool)
    ensures IsSubsequence(Filter(s, p), s)
  {
    if s != [] {
      FilterKeepsOrder(s[1..], p);
      var r := Filter(s, p);
      if p(s[0]) {
        assert r[0] == s[0] && r[1..] == Filter(s[1..], p);
      } else {
        assert r == Filter(s[1..], p);
      }
    }
  }

  /** Filtering keeps each survivor as often as it occurred and drops every
      other element. */
  lemma {:induction false} FilterCounts<T(!new)>(s: seq<T>, p: T -> bool, x: T)
    ensures multiset(Filter(s, p))[x] == if p(x) then multiset(s)[x] else 0
  {
    if s != [] {
      FilterCounts(s[1..], p, x);
      assert s == [s[0]] + s[1..];
      assert multiset(s) == multiset([s[0]]) + multiset(s[1..]);
    }
  }

  lemma {:induction false} SubsequenceMembers<T>(a: seq<T>, b: seq<T>)
    requires IsSubsequence(a, b)
    ensures forall x :: x in a ==> x in b
  {
    if a != [] {
      if a[0] == b[0] && IsSubsequence(a[1..], b[1..]) {
        SubsequenceMembers(a[1..], b[1..]);
        assert forall x :: x in a ==> x == a[0] || x in a[1..];
      } else {
        SubsequenceMembers(a, b[1..]);
      }
    }
  }

  /** A subsequence of a list with increasing ids has increasing ids. */
  lemma {:induction false} SubsequenceIncreasing<T>(a: seq<Doc<T>>, b: seq<Doc<T>>)
    requires IsSubsequence(a, b)
    requires forall i, j :: 0 <= i < j < |b| ==> b[i].id < b[j].id
    ensures forall i, j :: 0 <= i < j < |a| ==> a[i].id < a[j].id
  {
    if a != [] {
      if a[0] == b[0] && IsSubsequence(a[1..], b[1..]) {
        SubsequenceIncreasing(a[1..], b[1..]);
        SubsequenceMembers(a[1..], b[1..]);
        forall j | 0 < j < |a| ensures a[0].id < a[j].id {
          assert a[j] == a[1..][j - 1];
          assert a[j] in a[1..];
          var k :| 0 <= k < |b[1..]| && b[1..][k] == a[j];
          assert b[k + 1] == a[j];
        }
      } else {
        SubsequenceIncreasing(a, b[1..]);
      }
    }
  }

  /** A filter whose predicate every element meets returns the input. */
  lemma {:induction false} FilterKeepsAll<T(!new)>(s: seq<T>, p: T -> bool)
    requires forall x :: x in s ==> p(x)
    ensures Filter(s, p) == s
  {
    if s != [] {
      assert s[0] in s;
      FilterKeepsAll(s[1..], p);
    }
  }

  /** Two predicates that agree on every element filter alike. */
  lemma {:induction false} FilterAgrees<T(!new)>(s: seq<T>, p: T -> bool, q: T -> bool)
    requires forall x :: x in s ==> p(x) == q(x)
    ensures Filter(s, p) == Filter(s, q)
  {
    if s != [] {
      assert s[0] in s;
      assert forall x :: x in s[1..] ==> x in s;
      FilterAgrees(s[1..], p, q);
    }
  }

  /** Filtering by `p` and then by `q` is one filter by their conjunction. */
  lemma {:induction false} FilterTwice<T(!new)>(s: seq<T>, p: T -> bool, q: T -> bool, both: T -> bool)
    requires forall x :: both(x) == (p(x) && q(x))
    ensures Filter(Filter(s, p), q) == Filter(s, both)
  {
    if s != [] {
      FilterTwice(s[1..], p, q, both);
      if p(s[0]) {
        assert Filter(s, p) == [s[0]] + Filter(s[1..], p);
        assert Filter(s, p)[1..] == Filter(s[1..], p);
      } else {
        assert Filter(s, p) == Filter(s[1..], p);
      }
    }
  }

  /** The object `filteredUpdates` ends up as: each key whose value is
      defined, with its last defined value. */
  function Defined<K(!new), V>(entries: seq<(K, Option<V>)>): (m: map<K, V>)
    ensures forall k :: k in m <==> exists i :: 0 <= i < |entries| && entries[i].0 == k && entries[i].1.Some?
  {
    if entries == [] then map[]
    else
      var m := Defined(entries[..|entries| - 1]);
      var e := entries[|entries| - 1];
      assert forall i :: 0 <= i < |entries| - 1 ==> entries[..|entries| - 1][i] == entries[i];
      if e.1.Some? then m[e.0 := e.1.value] else m
  }

  predicate DistinctKeys<K(==), V>(entries: seq<(K, V)>) {
    forall i, j :: 0 <= i < j < |entries| ==> entries[i].0 != entries[j].0
  }

  /** With distinct keys (as `Object.entries` yields them), a defined entry's
      value is the one kept and an undefined entry's key is absent. */
  lemma {:induction false} DefinedEntry<K(!new), V>(entries: seq<(K, Option<V>)>, i: nat)
    requires DistinctKeys(entries) && i < |entries|
    ensures entries[i].1.Some? ==> entries[i].0 in Defined(entries) && Defined(entries)[entries[i].0] == entries[i].1.value
    ensures entries[i].1.None? ==> entries[i].0 !in Defined(entries)
  {
    var n := |entries| - 1;
    var front := entries[..n];
    if i < n {
      assert front[i] == entries[i];
      DefinedEntry(front, i);
      assert entries[n].0 != entries[i].0;
    }
  }

  /** The loop that copies every entry whose value is not `undefined` into
      `filteredUpdates`. */
  method FilterDefined<K(!new), V>(entries: seq<(K, Option<V>)>) returns (filtered: map<K, V>)
    ensures filtered == Defined(entries)
  {
    filtered := map[];
    for i := 0 to |entries|
      invariant filtered == Defined(entries[..i])
    {
      var (key, value) := entries[i];
      assert entries[..i + 1][..i] == entries[..i];
      if value.Some? {
        filtered := filtered[key := value.value];
      }
    }
    assert entries[..|entries|] == entries;
  }
}
