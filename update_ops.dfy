/**
 * The two Mongo array update operators the server applies to role lists
 * and to membership lists: `$addToSet` and `$pull` with a plain value.
 */
module UpdateOps {
  import opened Seqs

  /** Mongo `$addToSet`: append `x` unless it is already present. */
  function AddToSet<T(==)>(s: seq<T>, x: T): (r: seq<T>)
    ensures x in r
    ensures s <= r
    ensures |r| == |s| + (if x in s then 0 else 1)
    ensures forall y :: y in r ==> y in s || y == x
    ensures NoDup(s) ==> NoDup(r)
  {
    if x in s then s else s + [x]
  }

  /** Grant idempotence: adding the same value a second time changes nothing. */
  lemma AddToSetIdempotent<T>(s: seq<T>, x: T)
    ensures AddToSet(AddToSet(s, x), x) == AddToSet(s, x)
  {
  }

  /** The predicate "differs from `x`", the condition `$pull` keeps. */
  function Other<T(==)>(x: T): T -> bool
  {
    y => y != x
  }

  /** Mongo `$pull` of a value: remove every occurrence of `x`, keep the rest in order. */
  function Pull<T(==)>(s: seq<T>, x: T): (r: seq<T>)
    ensures x !in r
    ensures forall y :: y in r ==> y in s
    ensures forall y :: y in s && y != x ==> y in r
    ensures |r| == |s| - multiset(s)[x]
    ensures x !in s ==> r == s
    ensures IsSubsequence(r, s)
    ensures NoDup(s) ==> NoDup(r)
  {
    PullFacts(s, x);
    Filter(s, Other(x))
  }

  lemma PullFacts<T>(s: seq<T>, x: T)
    ensures |Filter(s, Other(x))| == |s| - multiset(s)[x]
    ensures x !in s ==> Filter(s, Other(x)) == s
    ensures IsSubsequence(Filter(s, Other(x)), s)
    ensures NoDup(s) ==> NoDup(Filter(s, Other(x)))
  {
    FilterIsSubsequence(s, Other(x));
    FilterDropCount(s, Other(x), x);
    if x !in s { FilterAll(s, Other(x)); }
    if NoDup(s) { FilterNoDup(s, Other(x)); }
  }

  /** Pulling a value that was just appended to a list without it gives the list back. */
  lemma PullAppended<T>(s: seq<T>, x: T)
    requires x !in s
    ensures Pull(s + [x], x) == s
  {
    FilterAppend(s, [x], Other(x));
    FilterAll(s, Other(x));
    FilterFirst([x], Other(x));
    assert [x][1..] == [];
  }

  /**
   * In a duplicate-free list, pulling a member and adding it back gives the
   * same elements (the member moves to the end).
   */
  lemma {:induction false} AddBackPulled<T>(s: seq<T>, x: T)
    requires NoDup(s) && x in s
    ensures multiset(AddToSet(Pull(s, x), x)) == multiset(s)
  {
    var i :| 0 <= i < |s| && s[i] == x;
    var pre, post := s[..i], s[i + 1..];
    NoDupSplit(s, i);
    assert s == pre + ([x] + post);
    PullSplit(pre, x, post);
    var pulled := Pull(s, x);
    assert pulled == pre + post;
    assert AddToSet(pulled, x) == pulled + [x];
    MovedToEnd(pre, x, post);
  }

  /** Moving one element to the end keeps the multiset. */
  lemma MovedToEnd<T>(pre: seq<T>, x: T, post: seq<T>)
    ensures multiset(pre + post + [x]) == multiset(pre + ([x] + post))
  {
  }

  /** Pulling the one occurrence of `x` from `pre + [x] + post` leaves `pre + post`. */
  lemma PullSplit<T>(pre: seq<T>, x: T, post: seq<T>)
    requires x !in pre && x !in post
    ensures Filter(pre + ([x] + post), Other(x)) == pre + post
  {
    var o := Other(x);
    assert forall y :: o(y) == (y != x);
    FilterAll(pre, o);
    FilterAll(post, o);
    assert Filter([x], o) == [] by {
      FilterFirst([x], o);
      assert [x][1..] == [];
    }
    FilterAppend([x], post, o);
    assert Filter([x] + post, o) == post;
    FilterAppend(pre, [x] + post, o);
  }

  lemma NoDupSplit<T>(s: seq<T>, i: int)
    requires NoDup(s) && 0 <= i < |s|
    ensures s[i] !in s[..i] && s[i] !in s[i + 1..]
  {
    forall j | 0 <= j < i ensures s[..i][j] != s[i] {
    }
    forall j | i + 1 <= j < |s| ensures s[j] != s[i] {
    }
  }

  lemma {:induction false} FilterAppend<T>(a: seq<T>, b: seq<T>, p: T -> bool)
    ensures Filter(a + b, p) == Filter(a, p) + Filter(b, p)
    decreases |a|
  {
    if a == [] {
      assert a + b == b;
    } else {
      var ab := a + b;
      assert ab != [] && ab[0] == a[0];
      assert ab[1..] == a[1..] + b;
      FilterAppend(a[1..], b, p);
      var h := if p(a[0]) then [a[0]] else [];
      calc {
        Filter(ab, p);
        { FilterFirst(ab, p); }
        h + Filter(ab[1..], p);
        h + (Filter(a[1..], p) + Filter(b, p));
        (h + Filter(a[1..], p)) + Filter(b, p);
        { FilterFirst(a, p); }
        Filter(a, p) + Filter(b, p);
      }
    }
  }

  lemma {:induction false} FilterDropCount<T>(s: seq<T>, p: T -> bool, x: T)
    requires forall y :: p(y) <==> y != x
    ensures |Filter(s, p)| == |s| - multiset(s)[x]
    decreases |s|
  {
    if s != [] {
      var t := s[1..];
      assert s == [s[0]] + t;
      assert multiset(s) == multiset{s[0]} + multiset(t);
      FilterDropCount(t, p, x);
      FilterFirst(s, p);
      if s[0] == x {
        assert !p(s[0]) && multiset(s)[x] == multiset(t)[x] + 1;
      } else {
        assert p(s[0]) && multiset(s)[x] == multiset(t)[x];
      }
    }
  }

  lemma {:induction false} FilterNoDup<T>(s: seq<T>, p: T -> bool)
    requires NoDup(s)
    ensures NoDup(Filter(s, p))
    decreases |s|
  {
    if s != [] {
      assert NoDup(s[1..]) by {
        forall i, j | 0 <= i < j < |s[1..]| ensures s[1..][i] != s[1..][j] {
          assert s[1..][i] == s[i + 1] && s[1..][j] == s[j + 1];
        }
      }
      FilterNoDup(s[1..], p);
      FilterFirst(s, p);
      NoDupSplit(s, 0);
      var rest := Filter(s[1..], p);
      if p(s[0]) {
        var r := [s[0]] + rest;
        forall i, j | 0 <= i < j < |r| ensures r[i] != r[j] {
          if i == 0 {
            assert r[j] == rest[j - 1] && rest[j - 1] in rest;
          } else {
            assert r[i] == rest[i - 1] && r[j] == rest[j - 1];
          }
        }
      }
    }
  }
}
