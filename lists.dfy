/** The Kotlin collection operations that the roster updates are built from. */
module Lists {
  import opened Wrappers

  predicate NoDuplicates<T(==)>(s: seq<T>) {
    forall i, j :: 0 <= i < j < |s| ==> s[i] != s[j]
  }

  /** The index of the first occurrence of `x` in `s`. */
  function FirstIndex<T(==,!new)>(s: seq<T>, x: T): (k: nat)
    requires x in s
    ensures k < |s| && s[k] == x
    ensures forall i :: 0 <= i < k ==> s[i] != x
  {
    if s[0] == x then 0 else 1 + FirstIndex(s[1..], x)
  }

  /** Kotlin's `distinct()`: the first occurrence of every element, in order. */
  function Distinct<T(==,!new)>(s: seq<T>): (r: seq<T>)
    ensures NoDuplicates(r)
    ensures forall x :: x in r <==> x in s
    ensures |r| <= |s|
  {
    if s == [] then []
    else
      var r0 := Distinct(s[..|s| - 1]);
      if s[|s| - 1] in r0 then r0 else r0 + [s[|s| - 1]]
  }

  /** What `distinct()` keeps is ordered like the first occurrences in the input. */
  lemma {:induction false} DistinctKeepsOrder<T(!new)>(s: seq<T>)
    ensures forall i, j :: 0 <= i < j < |Distinct(s)| ==> FirstIndex(s, Distinct(s)[i]) < FirstIndex(s, Distinct(s)[j])
  {
    if s != [] {
      var n := |s| - 1;
      var init := s[..n];
      DistinctKeepsOrder(init);
      var r0, r := Distinct(init), Distinct(s);
      forall y | y in init ensures FirstIndex(s, y) == FirstIndex(init, y) {
        FirstIndexOfPrefix(init, s, y);
      }
      if s[n] !in r0 {
        assert s[n] !in init;
        assert FirstIndex(s, s[n]) == n;
      }
    }
  }

  lemma {:induction false} FirstIndexOfPrefix<T(!new)>(p: seq<T>, s: seq<T>, x: T)
    requires x in p && |p| <= |s| && s[..|p|] == p
    ensures x in s && FirstIndex(s, x) == FirstIndex(p, x)
  {
    assert s[FirstIndex(p, x)] == x;
  }

  /** A duplicate-free list is its own `distinct()`. */
  lemma {:induction false} DistinctOfNoDuplicates<T(!new)>(s: seq<T>)
    requires NoDuplicates(s)
    ensures Distinct(s) == s
  {
    if s != [] {
      var n := |s| - 1;
      assert NoDuplicates(s[..n]);
      DistinctOfNoDuplicates(s[..n]);
      assert s[n] !in s[..n];
      assert s[..n] + [s[n]] == s;
    }
  }

  /** `distinct()` is idempotent. */
  lemma DistinctIdempotent<T(!new)>(s: seq<T>)
    ensures Distinct(Distinct(s)) == Distinct(s)
  {
    DistinctOfNoDuplicates(Distinct(s));
  }

  /** Appending one element to a list and de-duplicating extends the de-duplicated list by it, if new. */
  lemma DistinctSnoc<T(!new)>(s: seq<T>, x: T)
    ensures Distinct(s + [x]) == if x in s then Distinct(s) else Distinct(s) + [x]
  {
    assert (s + [x])[..|s|] == s;
  }

  /** Kotlin's `filterNot { it == x }`. */
  function Without<T(==,!new)>(s: seq<T>, x: T): (r: seq<T>)
    ensures forall y :: y in r <==> y in s && y != x
    ensures |r| <= |s|
    ensures (forall y :: y in s ==> y == x) ==> r == []
  {
    if s == [] then []
    else
      assert s[0] in s && forall y :: y in s[1..] ==> y in s;
      if s[0] == x then Without(s[1..], x) else [s[0]] + Without(s[1..], x)
  }

  lemma {:induction false} WithoutAbsent<T(!new)>(s: seq<T>, x: T)
    requires x !in s
    ensures Without(s, x) == s
  {
    if s != [] {
      WithoutAbsent(s[1..], x);
      assert [s[0]] + s[1..] == s;
    }
  }

  /** `filterNot` on a list with one more element at the end. */
  lemma {:induction false} WithoutSnoc<T(!new)>(s: seq<T>, y: T, x: T)
    ensures Without(s + [y], x) == Without(s, x) + (if y == x then [] else [y])
  {
    if s == [] {
      assert s + [y] == [y];
    } else {
      assert (s + [y])[1..] == s[1..] + [y];
      WithoutSnoc(s[1..], y, x);
    }
  }

  /** De-duplicating after `filterNot` is `filterNot` after de-duplicating: the ids that stay keep
      the order of their first occurrences. */
  lemma {:induction false} DistinctWithoutCommute<T(!new)>(s: seq<T>, x: T)
    ensures Distinct(Without(s, x)) == Without(Distinct(s), x)
  {
    if s != [] {
      var n := |s| - 1;
      var init, y := s[..n], s[n];
      assert s == init + [y];
      DistinctWithoutCommute(init, x);
      WithoutSnoc(init, y, x);
      DistinctSnoc(init, y);
      var w, d := Without(init, x), Distinct(init);
      if y == x {
        assert Without(s, x) == w;
        if y !in init {
          WithoutSnoc(d, y, x);
        }
      } else {
        assert Without(s, x) == w + [y];
        DistinctSnoc(w, y);
        assert y in w <==> y in init;
        if y !in init {
          WithoutSnoc(d, y, x);
        }
      }
    }
  }

  /** Java's `removeAll(d)`: drop every element that occurs in `d`. */
  function RemoveAll<T(==,!new)>(s: seq<T>, d: seq<T>): (r: seq<T>)
    ensures forall y :: y in r <==> y in s && y !in d
    ensures |r| <= |s|
    ensures (forall y :: y in s ==> y in d) ==> r == []
  {
    if s == [] then []
    else
      assert s[0] in s && forall y :: y in s[1..] ==> y in s;
      if s[0] in d then RemoveAll(s[1..], d) else [s[0]] + RemoveAll(s[1..], d)
  }

  /** `removeAll` on a list with one more element at the end. */
  lemma {:induction false} RemoveAllSnoc<T(!new)>(s: seq<T>, y: T, d: seq<T>)
    ensures RemoveAll(s + [y], d) == RemoveAll(s, d) + (if y in d then [] else [y])
  {
    if s == [] {
      assert s + [y] == [y];
    } else {
      assert (s + [y])[1..] == s[1..] + [y];
      RemoveAllSnoc(s[1..], y, d);
    }
  }

  /** `removeAll` keeps a list duplicate-free. */
  lemma {:induction false} RemoveAllKeepsNoDuplicates<T(!new)>(s: seq<T>, d: seq<T>)
    requires NoDuplicates(s)
    ensures NoDuplicates(RemoveAll(s, d))
  {
    if s != [] {
      assert NoDuplicates(s[1..]);
      RemoveAllKeepsNoDuplicates(s[1..], d);
      assert s[0] !in s[1..];
    }
  }

  /** De-duplicating after `removeAll` is `removeAll` after de-duplicating. */
  lemma {:induction false} DistinctRemoveAllCommute<T(!new)>(s: seq<T>, d: seq<T>)
    ensures Distinct(RemoveAll(s, d)) == RemoveAll(Distinct(s), d)
  {
    if s != [] {
      var n := |s| - 1;
      var init, y := s[..n], s[n];
      assert s == init + [y];
      DistinctRemoveAllCommute(init, d);
      RemoveAllSnoc(init, y, d);
      DistinctSnoc(init, y);
      var w, u := RemoveAll(init, d), Distinct(init);
      if y in d {
        assert RemoveAll(s, d) == w;
        if y !in init {
          RemoveAllSnoc(u, y, d);
        }
      } else {
        assert RemoveAll(s, d) == w + [y];
        DistinctSnoc(w, y);
        assert y in w <==> y in init;
        if y !in init {
          RemoveAllSnoc(u, y, d);
        }
      }
    }
  }

  /** Kotlin's `any { it == x }`: a scan of the list for `x`. */
  function AnyIs<T(==,!new)>(s: seq<T>, x: T): (r: bool)
    ensures r <==> x in s
  {
    if s == [] then false
    else
      assert forall y :: y in s <==> y == s[0] || y in s[1..];
      s[0] == x || AnyIs(s[1..], x)
  }

  /** `filterNot` keeps every copy of every other element. */
  lemma {:induction false} WithoutCounts<T(!new)>(s: seq<T>, x: T)
    ensures forall y :: multiset(Without(s, x))[y] == if y == x then 0 else multiset(s)[y]
  {
    if s != [] {
      WithoutCounts(s[1..], x);
      assert s == [s[0]] + s[1..];
    }
  }

  /** `removeAll` keeps every copy of every element it does not remove. */
  lemma {:induction false} RemoveAllCounts<T(!new)>(s: seq<T>, d: seq<T>)
    ensures forall y :: multiset(RemoveAll(s, d))[y] == if y in d then 0 else multiset(s)[y]
  {
    if s != [] {
      RemoveAllCounts(s[1..], d);
      assert s == [s[0]] + s[1..];
    }
  }

  /** `s` keeps its elements in their order inside `t` (what a filter produces). */
  predicate IsSubsequence<T(==,!new)>(s: seq<T>, t: seq<T>)
    decreases |t|
  {
    if s == [] then true
    else if t == [] then false
    else if s[0] == t[0] then IsSubsequence(s[1..], t[1..])
    else IsSubsequence(s, t[1..])
  }

  lemma {:induction false} WithoutIsSubsequence<T(!new)>(s: seq<T>, x: T)
    ensures IsSubsequence(Without(s, x), s)
  {
    if s != [] {
      WithoutIsSubsequence(s[1..], x);
      if s[0] != x {
        assert ([s[0]] + Without(s[1..], x))[1..] == Without(s[1..], x);
      } else {
        SubsequenceOfTail(Without(s[1..], x), s);
      }
    }
  }

  /** `removeAll` keeps the order of what it keeps. */
  lemma {:induction false} RemoveAllIsSubsequence<T(!new)>(s: seq<T>, d: seq<T>)
    ensures IsSubsequence(RemoveAll(s, d), s)
  {
    if s != [] {
      RemoveAllIsSubsequence(s[1..], d);
      if s[0] !in d {
        assert ([s[0]] + RemoveAll(s[1..], d))[1..] == RemoveAll(s[1..], d);
      } else {
        SubsequenceOfTail(RemoveAll(s[1..], d), s);
      }
    }
  }

  lemma {:induction false} SubsequenceOfTail<T(!new)>(s: seq<T>, t: seq<T>)
    requires t != [] && IsSubsequence(s, t[1..])
    ensures IsSubsequence(s, t)
    decreases |t|, 0
  {
    if s != [] && s[0] == t[0] {
      SubsequenceDropHead(s, t[1..]);
    }
  }

  lemma {:induction false} SubsequenceDropHead<T(!new)>(s: seq<T>, t: seq<T>)
    requires s != [] && IsSubsequence(s, t)
    ensures IsSubsequence(s[1..], t)
    decreases |t|, 1
  {
    if t != [] {
      if s[0] == t[0] {
        if s[1..] != [] {
          SubsequenceOfTail(s[1..], t);
        }
      } else {
        SubsequenceDropHead(s, t[1..]);
        SubsequenceOfTail(s[1..], t);
      }
    }
  }

  /** Kotlin's `filter`: the elements that pass, in order. */
  function Filter<T(!new)>(s: seq<T>, keep: T -> bool): (r: seq<T>)
    ensures forall x :: x in r <==> x in s && keep(x)
    ensures |r| <= |s|
    ensures (forall x :: x in s ==> keep(x)) ==> r == s
  {
    if s == [] then []
    else if keep(s[0]) then [s[0]] + Filter(s[1..], keep)
    else Filter(s[1..], keep)
  }

  lemma {:induction false} FilterIsSubsequence<T(!new)>(s: seq<T>, keep: T -> bool)
    ensures IsSubsequence(Filter(s, keep), s)
  {
    if s != [] {
      FilterIsSubsequence(s[1..], keep);
      if keep(s[0]) {
        assert ([s[0]] + Filter(s[1..], keep))[1..] == Filter(s[1..], keep);
      } else {
        SubsequenceOfTail(Filter(s[1..], keep), s);
      }
    }
  }

  /** `filter` keeps every copy of every element that passes. */
  lemma {:induction false} FilterCounts<T(!new)>(s: seq<T>, keep: T -> bool)
    ensures forall x :: multiset(Filter(s, keep))[x] == if keep(x) then multiset(s)[x] else 0
  {
    if s != [] {
      FilterCounts(s[1..], keep);
      assert s == [s[0]] + s[1..];
    }
  }

  /** Kotlin's `map { read(it) }.mapNotNull { it }`: the values that resolve, in order. */
  function MapNotNull<K, V>(ids: seq<K>, read: K -> Option<V>): (r: seq<V>)
    ensures |r| <= |ids|
    ensures forall i :: 0 <= i < |ids| && read(ids[i]).Some? ==> read(ids[i]).value in r
    ensures (forall i :: 0 <= i < |ids| ==> read(ids[i]).Some?) ==> |r| == |ids|
  {
    if ids == [] then []
    else
      var rest := MapNotNull(ids[1..], read);
      assert forall i :: 1 <= i < |ids| ==> ids[i] == ids[1..][i - 1];
      match read(ids[0])
      case None => rest
      case Some(v) => [v] + rest
  }

  /** Every value that `MapNotNull` keeps came from one of the ids. */
  lemma {:induction false} MapNotNullResolved<K, V>(ids: seq<K>, read: K -> Option<V>, v: V)
    requires v in MapNotNull(ids, read)
    ensures exists i :: 0 <= i < |ids| && read(ids[i]) == Some(v)
  {
    var rest := MapNotNull(ids[1..], read);
    if read(ids[0]) == Some(v) {
    } else {
      assert v in rest;
      MapNotNullResolved(ids[1..], read, v);
      var i :| 0 <= i < |ids[1..]| && read(ids[1..][i]) == Some(v);
      assert read(ids[i + 1]) == Some(v);
    }
  }

  /** `mapNotNull` of one id: its value when it resolves, nothing otherwise. */
  lemma MapNotNullSingle<K, V>(id: K, read: K -> Option<V>)
    ensures MapNotNull([id], read) == if read(id).Some? then [read(id).value] else []
  {
    assert [id][1..] == [];
  }

  /** `mapNotNull` works id by id: the values of a concatenation are the values of its parts, in order. */
  lemma {:induction false} MapNotNullAppend<K, V>(a: seq<K>, b: seq<K>, read: K -> Option<V>)
    ensures MapNotNull(a + b, read) == MapNotNull(a, read) + MapNotNull(b, read)
  {
    if a == [] {
      assert a + b == b;
    } else {
      assert (a + b)[0] == a[0] && (a + b)[1..] == a[1..] + b;
      MapNotNullAppend(a[1..], b, read);
    }
  }

  /** Dropping elements from a duplicate-free list leaves it duplicate-free. */
  lemma {:induction false} SubsequenceKeepsNoDuplicates<T(!new)>(s: seq<T>, t: seq<T>)
    requires IsSubsequence(s, t) && NoDuplicates(t)
    ensures NoDuplicates(s)
    decreases |t|
  {
    if s != [] && t != [] {
      assert NoDuplicates(t[1..]);
      if s[0] == t[0] {
        SubsequenceKeepsNoDuplicates(s[1..], t[1..]);
        SubsequenceMembers(s[1..], t[1..]);
        assert s[0] !in t[1..];
        assert forall j :: 1 <= j < |s| ==> s[j] == s[1..][j - 1];
      } else {
        SubsequenceKeepsNoDuplicates(s, t[1..]);
      }
    }
  }

  /** Every element of a subsequence occurs in the sequence. */
  lemma {:induction false} SubsequenceMembers<T(!new)>(s: seq<T>, t: seq<T>)
    requires IsSubsequence(s, t)
    ensures forall x :: x in s ==> x in t
    decreases |t|
  {
    if s != [] && t != [] {
      if s[0] == t[0] {
        SubsequenceMembers(s[1..], t[1..]);
        assert forall x :: x in s ==> x == s[0] || x in s[1..];
      } else {
        SubsequenceMembers(s, t[1..]);
      }
    }
  }
}
