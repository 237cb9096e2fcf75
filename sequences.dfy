/** Sequence operations used by the store and by the filter panel. */
module Sequences {

  /** `s.filter(v => v !== x)`: the elements of `s` other than `x`, in their original order. */
  function Remove<T(==)>(s: seq<T>, x: T): (r: seq<T>)
    ensures |r| <= |s|
  {
    if s == [] then [] else (if s[0] == x then [] else [s[0]]) + Remove(s[1..], x)
  }

  /** Removal keeps exactly the elements other than `x`. */
  lemma {:induction false} RemoveMembers<T>(s: seq<T>, x: T)
    ensures x !in Remove(s, x)
    ensures forall i :: 0 <= i < |Remove(s, x)| ==> Remove(s, x)[i] in s
    ensures forall i :: 0 <= i < |s| && s[i] != x ==> s[i] in Remove(s, x)
  {
    if s != [] {
      var tail := s[1..];
      RemoveMembers(tail, x);
      var head := if s[0] == x then [] else [s[0]];
      var r, rt := Remove(s, x), Remove(tail, x);
      assert r == head + rt;
      forall i | 0 <= i < |r| ensures r[i] in s {
        if i < |head| {
          assert r[i] == s[0];
        } else {
          assert r[i] == rt[i - |head|];
          var k :| 0 <= k < |tail| && tail[k] == rt[i - |head|];
          assert s[k + 1] == tail[k];
        }
      }
      forall i | 0 <= i < |s| && s[i] != x ensures s[i] in r {
        if i == 0 {
          assert r[0] == s[0];
        } else {
          assert s[i] == tail[i - 1];
          assert s[i] in rt;
        }
      }
    }
  }

  /** No element occurs twice. */
  ghost predicate NoDup<T>(s: seq<T>)
  {
    forall i, j :: 0 <= i < j < |s| ==> s[i] != s[j]
  }

  /** Removing a value that does not occur changes nothing. */
  lemma {:induction false} RemoveAbsent<T>(s: seq<T>, x: T)
    requires x !in s
    ensures Remove(s, x) == s
  {
    if s != [] {
      RemoveAbsent(s[1..], x);
    }
  }

  /** Removal distributes over concatenation, so it never reorders what it keeps. */
  lemma {:induction false} RemoveAppend<T>(a: seq<T>, b: seq<T>, x: T)
    ensures Remove(a + b, x) == Remove(a, x) + Remove(b, x)
  {
    if a == [] {
      assert a + b == b;
    } else {
      assert (a + b)[1..] == a[1..] + b;
      RemoveAppend(a[1..], b, x);
    }
  }

  /** A kept element stays after everything kept before it and before everything kept after it. */
  lemma {:induction false} RemoveKeepsOrder<T>(s: seq<T>, i: nat, x: T)
    requires i < |s| && s[i] != x
    ensures Remove(s, x) == Remove(s[..i], x) + [s[i]] + Remove(s[i + 1..], x)
  {
    var pre, post := s[..i], s[i + 1..];
    assert s == pre + ([s[i]] + post);
    RemoveAppend(pre, [s[i]] + post, x);
    RemoveCons(s[i], post, x);
    var a, b := Remove(pre, x), Remove(post, x);
    assert a + ([s[i]] + b) == a + [s[i]] + b;
  }

  lemma {:induction false} RemoveCons<T>(h: T, t: seq<T>, x: T)
    requires h != x
    ensures Remove([h] + t, x) == [h] + Remove(t, x)
  {
    assert ([h] + t)[0] == h && ([h] + t)[1..] == t;
  }

  /** Every occurrence of `x` goes, every other element keeps its multiplicity. */
  lemma {:induction false} RemoveCounts<T>(s: seq<T>, x: T)
    ensures multiset(Remove(s, x)) == multiset(s)[x := 0]
  {
    if s != [] {
      var head, tail := s[0], s[1..];
      RemoveCounts(tail, x);
      assert s == [head] + tail;
      if head == x {
        assert Remove(s, x) == Remove(tail, x);
        assert multiset(s) == multiset(tail)[x := multiset(tail)[x] + 1];
      } else {
        assert Remove(s, x) == [head] + Remove(tail, x);
        assert multiset(s)[x := 0] == multiset([head]) + multiset(tail)[x := 0];
      }
    }
  }

  /** Removal keeps a duplicate-free sequence duplicate-free. */
  lemma {:induction false} RemoveKeepsNoDup<T>(s: seq<T>, x: T)
    requires NoDup(s)
    ensures NoDup(Remove(s, x))
  {
    if s != [] {
      var tail := s[1..];
      assert NoDup(tail) by {
        forall i, j | 0 <= i < j < |tail| ensures tail[i] != tail[j] {
          assert tail[i] == s[i + 1] && tail[j] == s[j + 1];
        }
      }
      RemoveKeepsNoDup(tail, x);
      assert s[0] !in tail by {
        forall k | 0 <= k < |tail| ensures tail[k] != s[0] {
          assert tail[k] == s[k + 1];
        }
      }
      var r := Remove(tail, x);
      var head := if s[0] == x then [] else [s[0]];
      assert Remove(s, x) == head + r;
      RemoveMembers(tail, x);
      assert s[0] !in r;
      forall i, j | 0 <= i < j < |head + r| ensures (head + r)[i] != (head + r)[j] {
        if head != [] && i == 0 {
          assert (head + r)[j] == r[j - 1];
        }
      }
    }
  }
}
