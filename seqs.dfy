/** Sequence helpers shared by the location lists of the model: Python's
    `list.remove` (first occurrence), filtering out a set of elements, and
    duplicate-freedom. */
module Seqs {

  /** No element occurs twice. */
  predicate Distinct<T(==)>(s: seq<T>) {
    forall i, j :: 0 <= i < j < |s| ==> s[i] != s[j]
  }

  /** `list.remove(x)` guarded by `x in list`: the first occurrence of `x`
      is deleted, and a list without `x` is returned unchanged. */
  function RemoveFirst<T(==)>(s: seq<T>, x: T): (r: seq<T>)
    ensures x in s ==> |r| == |s| - 1
    ensures x !in s ==> r == s
  {
    if s == [] then []
    else
      assert s == [s[0]] + s[1..];
      if s[0] == x then s[1..] else [s[0]] + RemoveFirst(s[1..], x)
  }

  lemma {:induction false} RemoveFirstMultiset<T>(s: seq<T>, x: T)
    ensures multiset(RemoveFirst(s, x)) == multiset(s) - multiset{x}
  {
    if s != [] {
      assert s == [s[0]] + s[1..];
      if s[0] != x {
        RemoveFirstMultiset(s[1..], x);
      }
    }
  }

  /** Removal deletes nothing but (one copy of) `x`, and adds nothing. */
  lemma {:induction false} RemoveFirstMembers<T>(s: seq<T>, x: T)
    ensures forall y :: y in RemoveFirst(s, x) ==> y in s
    ensures forall y :: y != x && y in s ==> y in RemoveFirst(s, x)
  {
    if s != [] {
      assert s == [s[0]] + s[1..];
      RemoveFirstMembers(s[1..], x);
    }
  }

  /** The parts of a duplicate-free concatenation are duplicate-free and
      share nothing. */
  lemma DistinctSplit<T>(a: seq<T>, b: seq<T>)
    requires Distinct(a + b)
    ensures Distinct(a) && Distinct(b)
    ensures forall x | x in a :: x !in b
  {
    assert forall i | 0 <= i < |a| :: (a + b)[i] == a[i];
    assert forall j | 0 <= j < |b| :: (a + b)[|a| + j] == b[j];
  }

  /** From a duplicate-free list, removal deletes `x` altogether and leaves
      the list duplicate-free. */
  lemma {:induction false} RemoveFirstDistinct<T>(s: seq<T>, x: T)
    requires Distinct(s)
    ensures Distinct(RemoveFirst(s, x)) && x !in RemoveFirst(s, x)
  {
    if s != [] {
      assert s == [s[0]] + s[1..];
      assert Distinct(s[1..]);
      if s[0] != x {
        var rest := RemoveFirst(s[1..], x);
        RemoveFirstDistinct(s[1..], x);
        RemoveFirstMembers(s[1..], x);
        assert s[0] !in rest;
        assert RemoveFirst(s, x) == [s[0]] + rest;
        forall i, j | 0 <= i < j < |[s[0]] + rest|
          ensures ([s[0]] + rest)[i] != ([s[0]] + rest)[j]
        {
          if i > 0 {
            assert ([s[0]] + rest)[i] == rest[i - 1];
          }
        }
      }
    }
  }

  /** Removing an element that does not occur before position |a| takes out
      exactly that position. */
  lemma {:induction false} RemoveFirstAt<T>(a: seq<T>, x: T, b: seq<T>)
    requires x !in a
    ensures RemoveFirst(a + [x] + b, x) == a + b
  {
    if a == [] {
      assert a + [x] + b == [x] + b;
    } else {
      var t := a[1..] + [x] + b;
      assert a + [x] + b == [a[0]] + t;
      RemoveFirstAt(a[1..], x, b);
      assert a + b == [a[0]] + (a[1..] + b);
    }
  }

  /** The elements of `s` that are not in `gone`, in their original order. */
  function Without<T(==)>(s: seq<T>, gone: set<T>): (r: seq<T>)
    ensures |r| <= |s|
  {
    if s == [] then []
    else if s[|s| - 1] in gone then Without(s[..|s| - 1], gone)
    else Without(s[..|s| - 1], gone) + [s[|s| - 1]]
  }

  /** The elements of `s` that are in `kept`, in their original order. */
  function Within<T(==)>(s: seq<T>, kept: set<T>): (r: seq<T>)
    ensures |r| <= |s|
  {
    if s == [] then []
    else if s[|s| - 1] in kept then Within(s[..|s| - 1], kept) + [s[|s| - 1]]
    else Within(s[..|s| - 1], kept)
  }

  /** `Without` keeps exactly the elements not filtered out. */
  lemma {:induction false} WithoutMembers<T>(s: seq<T>, gone: set<T>)
    ensures forall y :: y in Without(s, gone) <==> y in s && y !in gone
  {
    if s != [] {
      WithoutMembers(s[..|s| - 1], gone);
      assert s == s[..|s| - 1] + [s[|s| - 1]];
    }
  }

  /** `Within` keeps exactly the elements kept. */
  lemma {:induction false} WithinMembers<T>(s: seq<T>, kept: set<T>)
    ensures forall y :: y in Within(s, kept) <==> y in s && y in kept
  {
    if s != [] {
      WithinMembers(s[..|s| - 1], kept);
      assert s == s[..|s| - 1] + [s[|s| - 1]];
    }
  }

  /** Extending the prefix by one element extends the filtered prefix by
      that element exactly when it is not filtered out. */
  lemma WithoutSnoc<T>(s: seq<T>, k: int, gone: set<T>)
    requires 0 <= k < |s|
    ensures Without(s[..k + 1], gone) == Without(s[..k], gone) + (if s[k] in gone then [] else [s[k]])
  {
    assert s[..k + 1][..k] == s[..k];
  }

  lemma WithinSnoc<T>(s: seq<T>, k: int, kept: set<T>)
    requires 0 <= k < |s|
    ensures Within(s[..k + 1], kept) == Within(s[..k], kept) + (if s[k] in kept then [s[k]] else [])
  {
    assert s[..k + 1][..k] == s[..k];
  }

  /** The prefix of a list that runs to its end is the list. */
  lemma PrefixAll<T>(s: seq<T>)
    ensures s[..|s|] == s && s[|s|..] == []
  {
  }

  /** One step of filtering a list in place: position `k` is either kept
      where it is or taken out as the first occurrence of its value. */
  lemma WithoutStep<T>(s: seq<T>, k: int, gone: set<T>)
    requires 0 <= k < |s|
    ensures s[k] !in gone ==> Without(s[..k], gone) + s[k..] == Without(s[..k + 1], gone) + s[k + 1..]
    ensures s[k] in gone ==> RemoveFirst(Without(s[..k], gone) + s[k..], s[k]) == Without(s[..k + 1], gone) + s[k + 1..]
  {
    var w := Without(s[..k], gone);
    WithoutSnoc(s, k, gone);
    assert s[k..] == [s[k]] + s[k + 1..];
    assert w + s[k..] == w + [s[k]] + s[k + 1..];
    if s[k] in gone {
      WithoutMembers(s[..k], gone);
      RemoveFirstAt(w, s[k], s[k + 1..]);
    }
  }

  /** In a duplicate-free list no element occurs before its own position. */
  lemma DistinctNotBefore<T>(s: seq<T>, k: int, gone: set<T>)
    requires Distinct(s) && 0 <= k < |s|
    ensures s[k] !in s[..k]
    ensures s[k] !in Without(s[..k], gone)
  {
    WithoutMembers(s[..k], gone);
  }

  lemma {:induction false} WithoutAppend<T>(a: seq<T>, b: seq<T>, gone: set<T>)
    ensures Without(a + b, gone) == Without(a, gone) + Without(b, gone)
  {
    if b == [] {
      assert a + b == a;
    } else {
      assert (a + b)[..|a + b| - 1] == a + b[..|b| - 1];
      WithoutAppend(a, b[..|b| - 1], gone);
    }
  }

  lemma {:induction false} WithinAppend<T>(a: seq<T>, b: seq<T>, kept: set<T>)
    ensures Within(a + b, kept) == Within(a, kept) + Within(b, kept)
  {
    if b == [] {
      assert a + b == a;
    } else {
      assert (a + b)[..|a + b| - 1] == a + b[..|b| - 1];
      WithinAppend(a, b[..|b| - 1], kept);
    }
  }

  /** Filtering by a set and by its complement splits a list into two parts
      whose lengths add up to the whole. */
  lemma {:induction false} SplitLength<T>(s: seq<T>, gone: set<T>)
    ensures |Without(s, gone)| + |Within(s, gone)| == |s|
  {
    if s != [] {
      SplitLength(s[..|s| - 1], gone);
    }
  }

  lemma {:induction false} WithoutDistinct<T>(s: seq<T>, gone: set<T>)
    requires Distinct(s)
    ensures Distinct(Without(s, gone))
  {
    if s != [] {
      WithoutDistinct(s[..|s| - 1], gone);
      WithoutMembers(s[..|s| - 1], gone);
    }
  }

  /** Filtering twice is filtering once by the union. */
  lemma {:induction false} WithoutWithout<T>(s: seq<T>, a: set<T>, b: set<T>)
    ensures Without(Without(s, a), b) == Without(s, a + b)
  {
    if s != [] {
      var init := s[..|s| - 1];
      WithoutWithout(init, a, b);
      if s[|s| - 1] !in a {
        assert Without(s, a) == Without(init, a) + [s[|s| - 1]];
        assert Without(s, a)[..|Without(s, a)| - 1] == Without(init, a);
      }
    }
  }

  /** Filtering out elements the list does not hold changes nothing. */
  lemma {:induction false} WithoutNone<T>(s: seq<T>, gone: set<T>)
    requires forall y :: y in s ==> y !in gone
    ensures Without(s, gone) == s
  {
    if s != [] {
      WithoutNone(s[..|s| - 1], gone);
      assert s == s[..|s| - 1] + [s[|s| - 1]];
    }
  }

  /** Keeping a list whose every element is kept keeps it whole, and
      filtering all of them out leaves nothing. */
  lemma {:induction false} WithinAll<T>(s: seq<T>, kept: set<T>)
    requires forall y :: y in s ==> y in kept
    ensures Within(s, kept) == s && Without(s, kept) == []
  {
    if s != [] {
      WithinAll(s[..|s| - 1], kept);
      assert s == s[..|s| - 1] + [s[|s| - 1]];
    }
  }

  /** On a duplicate-free list, removing the first occurrence is filtering
      the element out. */
  lemma RemoveFirstIsWithout<T>(s: seq<T>, x: T)
    requires Distinct(s)
    ensures RemoveFirst(s, x) == Without(s, {x})
  {
    if x !in s {
      WithoutNone(s, {x});
    } else {
      var i :| 0 <= i < |s| && s[i] == x;
      var a, b := s[..i], s[i + 1..];
      assert s == a + [x] + b;
      assert x !in a && x !in b;
      RemoveFirstAt(a, x, b);
      WithoutAppend(a + [x], b, {x});
      WithoutAppend(a, [x], {x});
      WithoutNone(a, {x});
      WithoutNone(b, {x});
      assert Without([x], {x}) == [];
    }
  }

  /** Python's `remove` applied once for each element of `xs`, in order. */
  function RemoveEach<T(==)>(s: seq<T>, xs: seq<T>): (r: seq<T>)
    ensures |r| <= |s|
  {
    if xs == [] then s else RemoveFirst(RemoveEach(s, xs[..|xs| - 1]), xs[|xs| - 1])
  }

  lemma RemoveEachSnoc<T>(s: seq<T>, xs: seq<T>, x: T)
    ensures RemoveEach(s, xs + [x]) == RemoveFirst(RemoveEach(s, xs), x)
  {
    assert (xs + [x])[..|xs + [x]| - 1] == xs;
  }

  /** Removing other elements neither adds nor takes away `y`. */
  lemma {:induction false} RemoveEachKeeps<T>(s: seq<T>, xs: seq<T>, y: T)
    requires y !in xs
    ensures y in RemoveEach(s, xs) <==> y in s
  {
    if xs != [] {
      RemoveEachKeeps(s, xs[..|xs| - 1], y);
      RemoveFirstMembers(RemoveEach(s, xs[..|xs| - 1]), xs[|xs| - 1]);
    }
  }

  /** From a duplicate-free list, removing each element of `xs` in turn
      leaves no element of `xs`. */
  lemma {:induction false} RemoveEachGone<T>(s: seq<T>, xs: seq<T>, x: T)
    requires Distinct(s) && x in xs
    ensures Distinct(RemoveEach(s, xs)) && x !in RemoveEach(s, xs)
  {
    var n := |xs| - 1;
    var front := RemoveEach(s, xs[..n]);
    assert Distinct(front) by {
      if n > 0 {
        RemoveEachGone(s, xs[..n], xs[0]);
      }
    }
    RemoveFirstDistinct(front, xs[n]);
    if x != xs[n] {
      assert x in xs[..n];
      RemoveEachGone(s, xs[..n], x);
      RemoveFirstMembers(front, xs[n]);
    }
  }

  /** The set of elements of a list. */
  function Elements<T>(s: seq<T>): set<T> {
    set x | x in s
  }

  /** A duplicate-free list has as many elements as its set of elements. */
  lemma {:induction false} DistinctCard<T>(s: seq<T>)
    requires Distinct(s)
    ensures |Elements(s)| == |s|
  {
    if s != [] {
      var init := s[..|s| - 1];
      DistinctCard(init);
      assert Elements(s) == Elements(init) + {s[|s| - 1]};
      assert s[|s| - 1] !in Elements(init);
    }
  }

  /** The decimal digit for 0 <= d < 10. */
  function Digit(d: nat): (c: char)
    requires d < 10
    ensures '0' <= c <= '9'
  {
    ('0' as int + d) as char
  }

  /** `str(n)` for a natural number: its decimal digits, most significant first. */
  function NatString(n: nat): (r: string)
    ensures |r| >= 1
    ensures forall k :: 0 <= k < |r| ==> '0' <= r[k] <= '9'
    ensures r[0] == '0' ==> n == 0
  {
    if n < 10 then [Digit(n)] else NatString(n / 10) + [Digit(n % 10)]
  }

  /** `str(n)` for any integer. */
  function IntString(n: int): (r: string)
    ensures |r| >= 1
    ensures n >= 0 <==> r[0] != '-'
  {
    if n >= 0 then NatString(n) else "-" + NatString(-n)
  }

  /** Different numbers have different decimal strings, so the sequential
      labels built from them never clash. */
  lemma {:induction false} NatStringInjective(m: nat, n: nat)
    requires NatString(m) == NatString(n)
    ensures m == n
  {
    if m >= 10 && n >= 10 {
      var a, b := NatString(m), NatString(n);
      assert a[..|a| - 1] == NatString(m / 10) && b[..|b| - 1] == NatString(n / 10);
      NatStringInjective(m / 10, n / 10);
      assert Digit(m % 10) == a[|a| - 1] == b[|b| - 1] == Digit(n % 10);
    }
  }
}
