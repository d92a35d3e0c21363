/**
 * Sequence helpers shared by the request handling: the elements of a list,
 * distinctness, an order-keeping filter (a list comprehension with an `if`)
 * and the key order of a dictionary filled from a list.
 */
module Seqs {

  function Elements<T(==)>(s: seq<T>): set<T> {
    set x | x in s
  }

  predicate NoDup<T(==)>(s: seq<T>) {
    forall i, j :: 0 <= i < j < |s| ==> s[i] != s[j]
  }

  /** A list has at most as many distinct elements as entries, and exactly as many when it has no duplicate. */
  lemma {:induction false} ElementsCount<T>(s: seq<T>)
    ensures |Elements(s)| <= |s|
    ensures |Elements(s)| == |s| <==> NoDup(s)
    decreases |s|
  {
    if |s| > 0 {
      var init := s[..|s| - 1];
      var x := s[|s| - 1];
      ElementsCount(init);
      assert s == init + [x];
      assert Elements(s) == Elements(init) + {x};
      if x in init {
        assert Elements(s) == Elements(init);
        var i :| 0 <= i < |init| && init[i] == x;
        assert s[i] == s[|s| - 1];
      } else {
        assert |Elements(s)| == |Elements(init)| + 1;
        if NoDup(init) {
          forall i, j | 0 <= i < j < |s|
            ensures s[i] != s[j]
          {
            if j < |s| - 1 {
              assert s[i] == init[i] && s[j] == init[j];
            } else {
              assert s[i] == init[i];
            }
          }
        } else {
          var i, j :| 0 <= i < j < |init| && init[i] == init[j];
          assert s[i] == s[j];
        }
      }
    }
  }

  /** The entries of `s` that satisfy `p`, in their order; duplicates are kept. */
  function Filter<T(==)>(s: seq<T>, p: T -> bool): (r: seq<T>)
    ensures |r| <= |s|
    ensures forall i :: 0 <= i < |r| ==> r[i] in s && p(r[i])
    ensures forall i :: 0 <= i < |s| && p(s[i]) ==> s[i] in r
    decreases |s|
  {
    if |s| == 0 then []
    else
      var init := s[..|s| - 1];
      assert s == init + [s[|s| - 1]];
      Filter(init, p) + (if p(s[|s| - 1]) then [s[|s| - 1]] else [])
  }

  /** Filtering distributes over concatenation, so the kept entries stay in their order. */
  lemma {:induction false} FilterConcat<T>(a: seq<T>, b: seq<T>, p: T -> bool)
    ensures Filter(a + b, p) == Filter(a, p) + Filter(b, p)
    decreases |b|
  {
    if |b| == 0 {
      assert a + b == a;
    } else {
      var init := b[..|b| - 1];
      assert (a + b)[..|a + b| - 1] == a + init;
      FilterConcat(a, init, p);
    }
  }

  /** Two tests that agree on every entry keep the same entries. */
  lemma {:induction false} FilterAgree<T>(s: seq<T>, p: T -> bool, q: T -> bool)
    requires forall i :: 0 <= i < |s| ==> p(s[i]) == q(s[i])
    ensures Filter(s, p) == Filter(s, q)
    decreases |s|
  {
    if |s| > 0 {
      var init := s[..|s| - 1];
      assert forall i :: 0 <= i < |init| ==> init[i] == s[i];
      FilterAgree(init, p, q);
    }
  }

  /** Filtering a list without duplicates gives a list without duplicates. */
  lemma {:induction false} FilterNoDup<T>(s: seq<T>, p: T -> bool)
    requires NoDup(s)
    ensures NoDup(Filter(s, p))
    decreases |s|
  {
    if |s| > 0 {
      var init := s[..|s| - 1];
      var x := s[|s| - 1];
      assert NoDup(init) by {
        forall i, j | 0 <= i < j < |init|
          ensures init[i] != init[j]
        {
          assert init[i] == s[i] && init[j] == s[j];
        }
      }
      FilterNoDup(init, p);
      var r := Filter(init, p);
      if p(x) {
        assert x !in r;
        var t := r + [x];
        forall i, j | 0 <= i < j < |t|
          ensures t[i] != t[j]
        {
          if j < |r| {
            assert t[i] == r[i] && t[j] == r[j];
          } else {
            assert t[i] == r[i] && r[i] in r;
          }
        }
      }
    }
  }

  /** Filtering keeps nothing exactly when no entry passes the test. */
  lemma {:induction false} FilterEmpty<T>(s: seq<T>, p: T -> bool)
    ensures Filter(s, p) == [] <==> forall i :: 0 <= i < |s| ==> !p(s[i])
    decreases |s|
  {
    if |s| > 0 {
      var init := s[..|s| - 1];
      FilterEmpty(init, p);
      assert forall i :: 0 <= i < |init| ==> init[i] == s[i];
    }
  }

  /** A test every entry passes keeps the whole list. */
  lemma {:induction false} FilterAll<T>(s: seq<T>, p: T -> bool)
    requires forall i :: 0 <= i < |s| ==> p(s[i])
    ensures Filter(s, p) == s
    decreases |s|
  {
    if |s| > 0 {
      var init := s[..|s| - 1];
      assert forall i :: 0 <= i < |init| ==> init[i] == s[i];
      FilterAll(init, p);
      assert s == init + [s[|s| - 1]];
    }
  }

  /**
   * The keys of a dictionary filled by assigning each entry of `s` in turn:
   * each distinct entry once, at the place of its first occurrence, since
   * assigning an existing key keeps its place.
   */
  function Dedup<T(==)>(s: seq<T>): (r: seq<T>)
    ensures NoDup(r)
    ensures Elements(r) == Elements(s)
    decreases |s|
  {
    if |s| == 0 then []
    else
      var init := s[..|s| - 1];
      var x := s[|s| - 1];
      assert s == init + [x];
      var d := Dedup(init);
      assert Elements(d) == Elements(init);
      if x in d then d
      else
        assert forall i, j :: 0 <= i < j < |d + [x]| ==> (d + [x])[i] != (d + [x])[j] by {
          forall i, j | 0 <= i < j < |d + [x]|
            ensures (d + [x])[i] != (d + [x])[j]
          {
            if j == |d| {
              assert (d + [x])[i] == d[i] && d[i] in d;
            }
          }
        }
        assert Elements(d + [x]) == Elements(d) + {x};
        assert Elements(s) == Elements(init) + {x};
        d + [x]
  }

  /** A list without duplicates fills the dictionary in its own order. */
  lemma {:induction false} DedupOfDistinct<T>(s: seq<T>)
    requires NoDup(s)
    ensures Dedup(s) == s
    decreases |s|
  {
    if |s| > 0 {
      var init := s[..|s| - 1];
      var x := s[|s| - 1];
      assert NoDup(init) by {
        forall i, j | 0 <= i < j < |init|
          ensures init[i] != init[j]
        {
          assert init[i] == s[i] && init[j] == s[j];
        }
      }
      DedupOfDistinct(init);
      forall i | 0 <= i < |init|
        ensures init[i] != x
      {
        assert init[i] == s[i];
      }
      assert s == init + [x];
    }
  }

  /** A list with a duplicate fills fewer keys than it has entries. */
  lemma DedupShorter<T>(s: seq<T>)
    requires !NoDup(s)
    ensures |Dedup(s)| == |Elements(s)| < |s|
  {
    ElementsCount(s);
    ElementsCount(Dedup(s));
  }
}
