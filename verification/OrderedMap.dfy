/** The ordered-map operations of `std::map` that the index uses, over a Dafny map with integer
    keys. An iterator is the key it stands on; `None` is `end()`. `Total` is a sum over all
    entries, and the lemmas say how it reacts to one update. */
module OrderedMap {
  import opened Common

  lemma AnyElement(s: set<int>) returns (x: int)
    requires s != {}
    ensures x in s
  {
    if forall y: int :: y !in s {
      assert false;
    }
    x :| x in s;
  }

  lemma {:induction false} LeastExists(s: set<int>)
    requires s != {}
    ensures exists k :: k in s && forall j :: j in s ==> k <= j
  {
    var x := AnyElement(s);
    var rest := s - {x};
    if rest == {} {
      assert s == {x};
    } else {
      LeastExists(rest);
      var k :| k in rest && forall j :: j in rest ==> k <= j;
      var least := Min(x, k);
      assert least in s && forall j :: j in s ==> least <= j by {
        assert forall j :: j in s ==> j == x || j in rest;
      }
    }
  }

  lemma {:induction false} GreatestExists(s: set<int>)
    requires s != {}
    ensures exists k :: k in s && forall j :: j in s ==> j <= k
  {
    var x := AnyElement(s);
    var rest := s - {x};
    if rest == {} {
      assert s == {x};
    } else {
      GreatestExists(rest);
      var k :| k in rest && forall j :: j in rest ==> j <= k;
      var greatest := Max(x, k);
      assert greatest in s && forall j :: j in s ==> j <= greatest by {
        assert forall j :: j in s ==> j == x || j in rest;
      }
    }
  }

  function Least(s: set<int>): (k: int)
    requires s != {}
    ensures k in s && forall j :: j in s ==> k <= j
  {
    LeastExists(s);
    var k :| k in s && forall j :: j in s ==> k <= j;
    k
  }

  function Greatest(s: set<int>): (k: int)
    requires s != {}
    ensures k in s && forall j :: j in s ==> j <= k
  {
    GreatestExists(s);
    var k :| k in s && forall j :: j in s ==> j <= k;
    k
  }

  /** `lower_bound(x)`: the first key that is not below `x`. */
  function LowerBound<T>(m: map<int, T>, x: int): (r: Option<int>)
    ensures r.None? <==> forall k :: k in m ==> k < x
    ensures r.Some? ==> r.value in m && x <= r.value && forall k :: k in m && x <= k ==> r.value <= k
  {
    var s := set k | k in m && x <= k;
    if s == {} then
      assert forall k :: k in m ==> k < x by { assert forall k :: k in m && x <= k ==> k in s; }
      None
    else
      assert forall k :: k in m && x <= k ==> k in s;
      Some(Least(s))
  }

  /** `std::next` of an iterator at `x`, which is also `upper_bound(x)`. */
  function NextKey<T>(m: map<int, T>, x: int): (r: Option<int>)
    ensures r.None? <==> forall k :: k in m ==> k <= x
    ensures r.Some? ==> r.value in m && x < r.value && forall k :: k in m && x < k ==> r.value <= k
  {
    LowerBound(m, x + 1)
  }

  lemma NextKeyIs<T>(m: map<int, T>, x: int, n: int)
    requires n in m && x < n && forall k :: k in m && x < k ==> n <= k
    ensures NextKey(m, x) == Some(n)
  {
  }

  lemma NextKeyNone<T>(m: map<int, T>, x: int)
    requires forall k :: k in m ==> k <= x
    ensures NextKey(m, x) == None
  {
  }

  /** `std::prev` of an iterator at `x`: the last key below `x`. */
  function PrevKey<T>(m: map<int, T>, x: int): (r: Option<int>)
    ensures r.None? <==> forall k :: k in m ==> x <= k
    ensures r.Some? ==> r.value in m && r.value < x && forall k :: k in m && k < x ==> k <= r.value
  {
    var s := set k | k in m && k < x;
    if s == {} then
      assert forall k :: k in m ==> x <= k by { assert forall k :: k in m && k < x ==> k in s; }
      None
    else
      assert forall k :: k in m && k < x ==> k in s;
      Some(Greatest(s))
  }

  /** The key `begin()` stands on. */
  function FirstKey<T>(m: map<int, T>): (r: Option<int>)
    ensures r.None? <==> m == map[]
    ensures r.Some? ==> r.value in m && forall k :: k in m ==> r.value <= k
  {
    if m == map[] then None else
      assert |m| == |m.Keys|;
      Some(Least(m.Keys))
  }

  /** The key `rbegin()` stands on. */
  function LastKey<T>(m: map<int, T>): (r: Option<int>)
    ensures r.None? <==> m == map[]
    ensures r.Some? ==> r.value in m && forall k :: k in m ==> k <= r.value
  {
    if m == map[] then None else
      assert |m| == |m.Keys|;
      Some(Greatest(m.Keys))
  }

  /** Iterators only look at the keys. */
  lemma SameKeys<T>(m: map<int, T>, m': map<int, T>, x: int)
    requires m.Keys == m'.Keys
    ensures NextKey(m', x) == NextKey(m, x)
    ensures LastKey(m') == LastKey(m)
  {
  }

  lemma SameIterators<S, T>(m: map<int, S>, m': map<int, T>, x: int)
    requires m.Keys == m'.Keys
    ensures LowerBound(m', x) == LowerBound(m, x) && NextKey(m', x) == NextKey(m, x) && PrevKey(m', x) == PrevKey(m, x)
    ensures FirstKey(m') == FirstKey(m) && LastKey(m') == LastKey(m)
  {
  }

  /** The sum of `f` over all entries. */
  function Total<T>(m: map<int, T>, f: T -> int): int
    decreases |m|
  {
    if m == map[] then 0 else
      var k := FirstKey(m).value;
      f(m[k]) + Total(m - {k}, f)
  }

  lemma {:induction false} TotalRemove<T>(m: map<int, T>, k: int, f: T -> int)
    requires k in m
    ensures Total(m, f) == f(m[k]) + Total(m - {k}, f)
    decreases |m|
  {
    var j := FirstKey(m).value;
    if j != k {
      TotalRemove(m - {j}, k, f);
      assert m - {j} - {k} == m - {k} - {j};
      assert j in m - {k};
    }
  }

  lemma TotalInsert<T>(m: map<int, T>, k: int, v: T, f: T -> int)
    requires k !in m
    ensures Total(m[k := v], f) == Total(m, f) + f(v)
  {
    TotalRemove(m[k := v], k, f);
    assert m[k := v] - {k} == m;
  }

  lemma TotalUpdate<T>(m: map<int, T>, k: int, v: T, f: T -> int)
    requires k in m
    ensures Total(m[k := v], f) == Total(m, f) - f(m[k]) + f(v)
  {
    TotalRemove(m, k, f);
    TotalRemove(m[k := v], k, f);
    assert m[k := v] - {k} == m - {k};
  }
}
