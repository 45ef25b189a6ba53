/** Sequence views of the store's tables. The source keeps each table in a JavaScript `Map` and
    queries it with `Array.from(map.values())` followed by `filter`, `find` and `map`. A `Map`
    iterates in insertion order; because every key comes from one increasing counter and is
    inserted once (updating a key keeps its place, and a deleted key is never reused), that
    order is ascending key order, which is what `Values` lists. */
module Tables {
  import opened Common

  /** The values of `m` whose keys lie in [0, n), in ascending key order. */
  function Values<T(==,!new)>(m: map<int, T>, n: int): (r: seq<T>)
    ensures forall x :: x in r <==> exists k :: 0 <= k < n && k in m && m[k] == x
    decreases n
  {
    if n <= 0 then []
    else Values(m, n - 1) + (if n - 1 in m then [m[n - 1]] else [])
  }

  /** The elements of `s` carry strictly increasing identifiers. */
  ghost predicate Increasing<T>(s: seq<T>, id: T -> int) {
    forall i, j :: 0 <= i < j < |s| ==> id(s[i]) < id(s[j])
  }

  /** No element of `s` occurs twice. */
  ghost predicate Distinct<T>(s: seq<T>) {
    forall i, j :: 0 <= i < j < |s| ==> s[i] != s[j]
  }

  /** When every value records its own key, listing a table gives strictly increasing
      identifiers, each below the bound. */
  lemma {:induction false} ValuesIncreasing<T(!new)>(m: map<int, T>, n: int, id: T -> int)
    requires forall k :: k in m ==> id(m[k]) == k
    ensures Increasing(Values(m, n), id)
    ensures forall x :: x in Values(m, n) ==> id(x) < n
    decreases n
  {
    if n > 0 {
      ValuesIncreasing(m, n - 1, id);
      var prefix := Values(m, n - 1);
      assert forall i :: 0 <= i < |prefix| ==> id(prefix[i]) < n - 1 by {
        forall i | 0 <= i < |prefix| ensures id(prefix[i]) < n - 1 {
          assert prefix[i] in prefix;
        }
      }
    }
  }

  /** Strictly increasing identifiers rule out repeated elements. */
  lemma IncreasingIsDistinct<T>(s: seq<T>, id: T -> int)
    requires Increasing(s, id)
    ensures Distinct(s)
  {
    forall i, j | 0 <= i < j < |s| ensures s[i] != s[j] {
      assert id(s[i]) < id(s[j]);
    }
  }

  /** `Array.prototype.filter`: the elements of `s` that satisfy `keep`, in their order. */
  function Filter<T(==,!new)>(s: seq<T>, keep: T -> bool): (r: seq<T>)
    ensures forall x :: x in r <==> x in s && keep(x)
    ensures |r| <= |s|
  {
    if s == [] then []
    else (if keep(s[0]) then [s[0]] else []) + Filter(s[1..], keep)
  }

  /** Filtering keeps the order of what it keeps. */
  lemma {:induction false} FilterIncreasing<T(!new)>(s: seq<T>, keep: T -> bool, id: T -> int)
    requires Increasing(s, id)
    ensures Increasing(Filter(s, keep), id)
  {
    if s != [] {
      assert Increasing(s[1..], id);
      FilterIncreasing(s[1..], keep, id);
      var rest := Filter(s[1..], keep);
      forall x | x in rest ensures id(s[0]) < id(x) {
        var j :| 0 <= j < |s[1..]| && s[1..][j] == x;
        assert s[j + 1] == x;
      }
    }
  }

  /** `Array.prototype.find`: the first element of `s` that satisfies `keep`, if any. */
  function Find<T(==)>(s: seq<T>, keep: T -> bool): (r: Option<T>)
    ensures r.None? <==> forall i :: 0 <= i < |s| ==> !keep(s[i])
    ensures r.Some? ==> exists i :: 0 <= i < |s| && s[i] == r.value && keep(s[i])
                                    && forall j :: 0 <= j < i ==> !keep(s[j])
  {
    if s == [] then None
    else if keep(s[0]) then Some(s[0])
    else
      var r := Find(s[1..], keep);
      assert r.Some? ==> exists i :: 1 <= i < |s| && s[i] == r.value && keep(s[i])
                                     && forall j :: 0 <= j < i ==> !keep(s[j]) by {
        if r.Some? {
          var i :| 0 <= i < |s[1..]| && s[1..][i] == r.value && keep(s[1..][i])
                   && forall j :: 0 <= j < i ==> !keep(s[1..][j]);
          assert s[i + 1] == r.value;
          assert forall j :: 1 <= j < i + 1 ==> !keep(s[j]) by {
            forall j | 1 <= j < i + 1 ensures !keep(s[j]) { assert s[j] == s[1..][j - 1]; }
          }
        }
      }
      r
  }

  /** `Array.prototype.map`: `f` applied to every element of `s`, in order. */
  function Map<T, U(==,!new)>(s: seq<T>, f: T -> U): (r: seq<U>)
    ensures |r| == |s|
    ensures forall i :: 0 <= i < |s| ==> r[i] == f(s[i])
    ensures forall y :: y in r <==> exists i :: 0 <= i < |s| && f(s[i]) == y
  {
    if s == [] then [] else [f(s[0])] + Map(s[1..], f)
  }

  /** In a sequence with increasing identifiers, what `Find` returns has the smallest identifier
      among the elements that satisfy `keep`. */
  lemma FindFirst<T>(s: seq<T>, keep: T -> bool, id: T -> int)
    requires Increasing(s, id)
    requires Find(s, keep).Some?
    ensures forall y :: y in s && keep(y) ==> id(Find(s, keep).value) <= id(y)
  {
    var x := Find(s, keep).value;
    var i :| 0 <= i < |s| && s[i] == x && keep(s[i]) && forall j :: 0 <= j < i ==> !keep(s[j]);
    forall y | y in s && keep(y) ensures id(x) <= id(y) {
      var j :| 0 <= j < |s| && s[j] == y;
      assert i <= j;
    }
  }

  /** `find` over a map's values in key order misses only when no stored value matches. */
  lemma FindInValuesNone<T(!new)>(m: map<int, T>, n: int, keep: T -> bool)
    requires forall k :: k in m ==> 0 <= k < n
    requires Find(Values(m, n), keep).None?
    ensures forall k :: k in m ==> !keep(m[k])
  {
    var all := Values(m, n);
    forall k | k in m ensures !keep(m[k]) {
      assert m[k] in all;
      var i :| 0 <= i < |all| && all[i] == m[k];
    }
  }

  /** `find` over a map's values in key order, when values carry their key as identifier,
      returns the matching value stored under the smallest key. */
  lemma FindInValuesSome<T(!new)>(m: map<int, T>, n: int, keep: T -> bool, id: T -> int)
    requires forall k :: k in m ==> 0 <= k < n && id(m[k]) == k
    requires Find(Values(m, n), keep).Some?
    ensures var x := Find(Values(m, n), keep).value;
            id(x) in m && m[id(x)] == x && keep(x)
            && forall k :: k in m && keep(m[k]) ==> id(x) <= k
  {
    var all := Values(m, n);
    var x := Find(all, keep).value;
    ValuesIncreasing(m, n, id);
    FindFirst(all, keep, id);
    var i :| 0 <= i < |all| && all[i] == x && keep(all[i]);
    assert x in all;
    var key :| 0 <= key < n && key in m && m[key] == x;
    forall k | k in m && keep(m[k]) ensures id(x) <= k {
      assert m[k] in all;
    }
  }
}
