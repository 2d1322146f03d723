/** The array idioms the components share: `filter((x) => x !== id)`, the
    "remove if present, otherwise append" toggle and `includes(x) ? prev : [...prev, x]`. */
module Lists {

  predicate Distinct<T(==)>(s: seq<T>) {
    forall i, j :: 0 <= i < j < |s| ==> s[i] != s[j]
  }

  /** `s.filter((y) => y !== x)`. */
  function Without<T(==,!new)>(s: seq<T>, x: T): (r: seq<T>)
    ensures x !in r
    ensures forall y :: y != x ==> (y in r <==> y in s)
    ensures multiset(r) == multiset(s)[x := 0]
    ensures |r| <= |s|
    ensures Distinct(s) ==> Distinct(r)
  {
    if s == [] then []
    else
      var rest := Without(s[1..], x);
      assert s == [s[0]] + s[1..];
      assert multiset(s) == multiset{s[0]} + multiset(s[1..]);
      if s[0] == x then rest
      else
        assert Distinct(s) ==> Distinct([s[0]] + rest) by {
          if Distinct(s) {
            assert Distinct(s[1..]) by {
              forall i, j | 0 <= i < j < |s[1..]| ensures s[1..][i] != s[1..][j] {
                assert s[1..][i] == s[i + 1] && s[1..][j] == s[j + 1];
              }
            }
            assert s[0] !in s[1..];
            DistinctCons(s[0], rest);
          }
        }
        [s[0]] + rest
  }

  lemma DistinctCons<T>(h: T, t: seq<T>)
    requires Distinct(t) && h !in t
    ensures Distinct([h] + t)
  {
    forall i, j | 0 <= i < j < |[h] + t| ensures ([h] + t)[i] != ([h] + t)[j] {
      if i == 0 {
        assert ([h] + t)[j] == t[j - 1];
      } else {
        assert ([h] + t)[i] == t[i - 1] && ([h] + t)[j] == t[j - 1];
      }
    }
  }

  /** Removing an element that is absent changes nothing. */
  lemma {:induction false} WithoutAbsent<T(!new)>(s: seq<T>, x: T)
    requires x !in s
    ensures Without(s, x) == s
  {
    if s != [] { WithoutAbsent(s[1..], x); }
  }

  lemma {:induction false} WithoutAppend<T(!new)>(s: seq<T>, x: T, y: T)
    ensures Without(s + [y], x) == if y == x then Without(s, x) else Without(s, x) + [y]
  {
    if s == [] {
      assert [y][1..] == [];
    } else {
      assert (s + [y])[1..] == s[1..] + [y];
      WithoutAppend(s[1..], x, y);
    }
  }

  /** `prev.includes(x) ? prev : [...prev, x]`. */
  function AppendIfAbsent<T(==,!new)>(s: seq<T>, x: T): (r: seq<T>)
    ensures x in r
    ensures forall y :: y in r <==> y in s || y == x
    ensures Distinct(s) ==> Distinct(r)
  {
    if x in s then s else s + [x]
  }

  /** The predicate `(y) => y !== x`. */
  function Unequal<T(==)>(x: T): T -> bool {
    (y: T) => y != x
  }

  /** `Without` is the order-keeping filter that drops `x`. */
  lemma {:induction false} WithoutIsFilter<T(!new)>(s: seq<T>, x: T)
    ensures Without(s, x) == Filter(s, Unequal(x))
  {
    if s != [] {
      WithoutIsFilter(s[1..], x);
    }
  }

  /** `list.includes(x) ? list.filter((y) => y !== x) : [...list, x]`: a present element is
      filtered out with the others kept in order, an absent one is appended last. */
  function Toggle<T(==,!new)>(s: seq<T>, x: T): (r: seq<T>)
    ensures x in s ==> r == Filter(s, Unequal(x))
    ensures x !in s ==> r == s + [x]
    ensures x in r <==> x !in s
    ensures forall y :: y != x ==> (y in r <==> y in s)
    ensures Distinct(s) ==> Distinct(r)
  {
    if x in s then
      assert Without(s, x) == Filter(s, Unequal(x)) by { WithoutIsFilter(s, x); }
      Without(s, x)
    else s + [x]
  }

  /** Toggling an absent element twice gives back the list; toggling a present element
      twice keeps the same elements (it moves to the end). */
  lemma ToggleTwice<T(!new)>(s: seq<T>, x: T)
    requires Distinct(s)
    ensures x !in s ==> Toggle(Toggle(s, x), x) == s
    ensures x in s ==> Toggle(Toggle(s, x), x) == Without(s, x) + [x]
    ensures multiset(Toggle(Toggle(s, x), x)) == multiset(s)
  {
    if x !in s {
      WithoutAppend(s, x, x);
      WithoutAbsent(s, x);
    } else {
      var i :| 0 <= i < |s| && s[i] == x;
      DistinctCount(s, i);
      calc {
        multiset(Without(s, x) + [x]);
        multiset(s)[x := 0] + multiset{x};
        { assert multiset(s)[x] == 1; }
        multiset(s);
      }
    }
  }

  lemma DistinctCount<T(!new)>(s: seq<T>, i: nat)
    requires Distinct(s) && i < |s|
    ensures multiset(s)[s[i]] == 1
  {
    assert s == s[..i] + [s[i]] + s[i + 1..];
    assert s[i] !in s[..i];
    assert s[i] !in s[i + 1..];
    calc {
      multiset(s)[s[i]];
      multiset(s[..i])[s[i]] + multiset([s[i]])[s[i]] + multiset(s[i + 1..])[s[i]];
      1;
    }
  }

  lemma DistinctAppend<T>(s: seq<T>, x: T)
    requires Distinct(s) && x !in s
    ensures Distinct(s + [x])
  {
  }

  /** `s.filter(keep)`: the kept elements, in their order in `s`. */
  function Filter<T(==,!new)>(s: seq<T>, keep: T -> bool): (r: seq<T>)
    ensures |r| <= |s|
    ensures forall i :: 0 <= i < |r| ==> r[i] in s && keep(r[i])
    ensures forall x :: x in s && keep(x) ==> x in r
  {
    if s == [] then []
    else
      assert s == [s[0]] + s[1..];
      (if keep(s[0]) then [s[0]] else []) + Filter(s[1..], keep)
  }

  /** Filtering keeps the order: an element appended to the input is appended to the
      output when it is kept. */
  lemma {:induction false} FilterAppend<T(!new)>(s: seq<T>, x: T, keep: T -> bool)
    ensures Filter(s + [x], keep) == Filter(s, keep) + (if keep(x) then [x] else [])
  {
    if s == [] {
      assert [x][1..] == [];
    } else {
      assert (s + [x])[1..] == s[1..] + [x];
      FilterAppend(s[1..], x, keep);
    }
  }
}
