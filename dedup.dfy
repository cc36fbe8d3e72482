/**
 * `deDup`: keep the first occurrence of every element, in input order.
 */
module Deduplication {

  /** No element occurs twice. */
  predicate NoDup<T(==)>(s: seq<T>) {
    forall i, j :: 0 <= i < j < |s| ==> s[i] != s[j]
  }

  /**
   * The first occurrences of `s`, built the way the loop builds them: an
   * element is appended unless it already occurred earlier.
   */
  function FirstOccurrences<T(==)>(s: seq<T>): seq<T> {
    if s == [] then []
    else
      var init, x := s[..|s| - 1], s[|s| - 1];
      FirstOccurrences(init) + (if x in init then [] else [x])
  }

  /** The position of the first occurrence of `x` in `s`. */
  function FirstIndex<T(==)>(s: seq<T>, x: T): (i: nat)
    requires x in s
    ensures i < |s| && s[i] == x && x !in s[..i]
  {
    if s[0] == x then 0
    else
      var i := 1 + FirstIndex(s[1..], x);
      assert s[..i] == [s[0]] + s[1..][..i - 1];
      i
  }

  /** Appending an element leaves the first occurrences of earlier elements where they were. */
  lemma {:induction false} FirstIndexExtend<T>(s: seq<T>, x: T, y: T)
    requires y in s
    ensures y in s + [x] && FirstIndex(s + [x], y) == FirstIndex(s, y)
  {
    if s[0] != y {
      assert (s + [x])[1..] == s[1..] + [x];
      FirstIndexExtend(s[1..], x, y);
    }
  }

  /** The first occurrences hold every element of the input exactly once. */
  lemma {:induction false} FirstOccurrencesElements<T>(s: seq<T>)
    ensures NoDup(FirstOccurrences(s)) && forall x :: x in FirstOccurrences(s) <==> x in s
  {
    if s != [] {
      var init, x := s[..|s| - 1], s[|s| - 1];
      assert s == init + [x];
      FirstOccurrencesElements(init);
    }
  }

  /**
   * The first occurrences keep the order in which the elements first occur:
   * element `r[k]` sits at position `FirstIndex(s, r[k])` of `s` and those
   * positions increase, so the result is a subsequence of the input.
   */
  lemma {:induction false} FirstOccurrencesOrder<T>(s: seq<T>)
    ensures forall x :: x in FirstOccurrences(s) ==> x in s
    ensures forall i, j :: 0 <= i < j < |FirstOccurrences(s)| ==>
      FirstIndex(s, FirstOccurrences(s)[i]) < FirstIndex(s, FirstOccurrences(s)[j])
  {
    FirstOccurrencesElements(s);
    if s != [] {
      var init, x := s[..|s| - 1], s[|s| - 1];
      assert s == init + [x];
      FirstOccurrencesOrder(init);
      FirstOccurrencesElements(init);
      var r' := FirstOccurrences(init);
      var r := FirstOccurrences(s);
      if x !in init {
        assert r == r' + [x];
        assert FirstIndex(s, x) == |init| by {
          assert s[..|init|] == init;
        }
        forall i, j | 0 <= i < j < |r|
          ensures FirstIndex(s, r[i]) < FirstIndex(s, r[j])
        {
          assert r[i] == r'[i] && r'[i] in r';
          FirstIndexExtend(init, x, r[i]);
          if j < |r'| {
            assert r[j] == r'[j] && r'[j] in r';
            FirstIndexExtend(init, x, r[j]);
            assert FirstIndex(init, r'[i]) < FirstIndex(init, r'[j]);
          }
        }
      } else {
        assert r == r';
        forall i, j | 0 <= i < j < |r|
          ensures FirstIndex(s, r[i]) < FirstIndex(s, r[j])
        {
          assert r'[i] in r' && r'[j] in r';
          FirstIndexExtend(init, x, r[i]);
          FirstIndexExtend(init, x, r[j]);
          assert FirstIndex(init, r'[i]) < FirstIndex(init, r'[j]);
        }
      }
    }
  }

  /** An input without repeats comes back unchanged. */
  lemma {:induction false} FirstOccurrencesOfDistinct<T>(s: seq<T>)
    requires NoDup(s)
    ensures FirstOccurrences(s) == s
  {
    if s != [] {
      var init, x := s[..|s| - 1], s[|s| - 1];
      assert s == init + [x];
      assert NoDup(init) by {
        forall i, j | 0 <= i < j < |init| ensures init[i] != init[j] {
          assert init[i] == s[i] && init[j] == s[j];
        }
      }
      FirstOccurrencesOfDistinct(init);
      assert x !in init by {
        forall k | 0 <= k < |init| ensures init[k] != x {
          assert init[k] == s[k];
        }
      }
    }
  }

  /** Deduplicating twice is deduplicating once. */
  lemma FirstOccurrencesIdempotent<T>(s: seq<T>)
    ensures FirstOccurrences(FirstOccurrences(s)) == FirstOccurrences(s)
  {
    FirstOccurrencesElements(s);
    FirstOccurrencesOfDistinct(FirstOccurrences(s));
  }

  /**
   * `deDup`'s loop: a result that grows by the elements not yet seen, and
   * the set of elements seen so far (a `map[string]bool` in the source).
   */
  method DeDup<T(==)>(s: seq<T>) returns (result: seq<T>)
    ensures result == FirstOccurrences(s)
    ensures NoDup(result) && forall x :: x in result <==> x in s
  {
    result := [];
    var seen: set<T> := {};
    for i := 0 to |s|
      invariant result == FirstOccurrences(s[..i])
      invariant forall x :: x in seen <==> x in s[..i]
    {
      var val := s[i];
      assert s[..i + 1][..i] == s[..i] && s[..i + 1][i] == val;
      if val !in seen {
        result := result + [val];
        seen := seen + {val};
      }
    }
    assert s[..|s|] == s;
    FirstOccurrencesElements(s);
  }
}
