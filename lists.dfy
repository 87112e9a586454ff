/**
 * The JavaScript array operations the stores are built from: `filter`
 * and an element-wise conditional `map`. Both are written by recursion on
 * the prefix of the list, the way a left-to-right loop sees it.
 */
module Lists {

  /** Number of elements of `s` that satisfy `p`. */
  function CountWhere<T>(s: seq<T>, p: T -> bool): (n: nat)
    ensures n <= |s|
  {
    if s == [] then 0
    else CountWhere(s[..|s| - 1], p) + (if p(s[|s| - 1]) then 1 else 0)
  }

  /** `s.filter(keep)`: only kept elements of `s` survive. */
  function Filter<T>(s: seq<T>, keep: T -> bool): (r: seq<T>)
    ensures |r| <= |s|
    ensures forall x :: x in r ==> x in s && keep(x)
  {
    if s == [] then []
    else Filter(s[..|s| - 1], keep) + (if keep(s[|s| - 1]) then [s[|s| - 1]] else [])
  }

  /**
   * What `Filter` computes, without recomputing it: one slot per kept
   * element, and the kept element at index i of `s` sits at slot "number
   * of kept elements before i", so the kept elements appear in their
   * original relative order and nothing else appears.
   */
  lemma {:induction false} FilterRanks<T>(s: seq<T>, keep: T -> bool)
    ensures |Filter(s, keep)| == CountWhere(s, keep)
    ensures forall i :: 0 <= i < |s| && keep(s[i]) ==>
              CountWhere(s[..i], keep) < |Filter(s, keep)| &&
              Filter(s, keep)[CountWhere(s[..i], keep)] == s[i]
  {
    if s != [] {
      var init := s[..|s| - 1];
      FilterRanks(init, keep);
      forall i | 0 <= i < |s| && keep(s[i])
        ensures CountWhere(s[..i], keep) < |Filter(s, keep)|
        ensures Filter(s, keep)[CountWhere(s[..i], keep)] == s[i]
      {
        if i < |s| - 1 {
          assert init[..i] == s[..i];
        } else {
          assert s[..i] == init;
        }
      }
    }
  }

  /** An element is in the filtered list exactly when it was in the list and is kept. */
  lemma FilterMembership<T>(s: seq<T>, keep: T -> bool)
    ensures forall x :: x in Filter(s, keep) <==> x in s && keep(x)
  {
    FilterRanks(s, keep);
    forall x | x in s && keep(x) ensures x in Filter(s, keep) {
      var i :| 0 <= i < |s| && s[i] == x;
      assert Filter(s, keep)[CountWhere(s[..i], keep)] == x;
    }
  }

  /** Filtering a list whose elements are all kept changes nothing. */
  lemma {:induction false} FilterAllKept<T>(s: seq<T>, keep: T -> bool)
    requires forall x :: x in s ==> keep(x)
    ensures Filter(s, keep) == s
  {
    if s != [] {
      FilterAllKept(s[..|s| - 1], keep);
      assert s[..|s| - 1] + [s[|s| - 1]] == s;
    }
  }

  /** `filter` is idempotent: filtering twice by the same test equals filtering once. */
  lemma FilterIdempotent<T>(s: seq<T>, keep: T -> bool)
    ensures Filter(Filter(s, keep), keep) == Filter(s, keep)
  {
    FilterAllKept(Filter(s, keep), keep);
  }

  /** Filtering distributes over concatenation. */
  lemma {:induction false} FilterAppend<T>(a: seq<T>, b: seq<T>, keep: T -> bool)
    ensures Filter(a + b, keep) == Filter(a, keep) + Filter(b, keep)
  {
    if b == [] {
      assert a + b == a;
    } else {
      var b', last := b[..|b| - 1], b[|b| - 1];
      var tail := if keep(last) then [last] else [];
      calc {
        Filter(a + b, keep);
        { assert (a + b)[..|a + b| - 1] == a + b' && (a + b)[|a + b| - 1] == last; }
        Filter(a + b', keep) + tail;
        { FilterAppend(a, b', keep); }
        (Filter(a, keep) + Filter(b', keep)) + tail;
        Filter(a, keep) + (Filter(b', keep) + tail);
      }
    }
  }

  /**
   * A `map` that changes only selected elements: every element is kept in place, the
   * selected ones are replaced by their image under `f`.
   */
  function MapWhere<T>(s: seq<T>, sel: T -> bool, f: T -> T): (r: seq<T>)
    ensures |r| == |s|
    ensures forall i :: 0 <= i < |s| ==> r[i] == (if sel(s[i]) then f(s[i]) else s[i])
  {
    if s == [] then []
    else MapWhere(s[..|s| - 1], sel, f) + [if sel(s[|s| - 1]) then f(s[|s| - 1]) else s[|s| - 1]]
  }

  /**
   * Filtering after a conditional map equals filtering before it, when
   * the filter drops every selected element both before and after its
   * update.
   */
  lemma {:induction false} FilterAfterMapWhere<T>(s: seq<T>, sel: T -> bool, f: T -> T, keep: T -> bool)
    requires forall x :: x in s && sel(x) ==> !keep(x) && !keep(f(x))
    ensures Filter(MapWhere(s, sel, f), keep) == Filter(s, keep)
  {
    if s != [] {
      FilterAfterMapWhere(s[..|s| - 1], sel, f, keep);
      assert MapWhere(s, sel, f)[..|s| - 1] == MapWhere(s[..|s| - 1], sel, f);
    }
  }

  /**
   * A conditional map whose update is idempotent on the selected elements
   * is itself idempotent: an element the update moves out of the
   * selection is left alone the second time, one still selected is
   * updated to itself.
   */
  lemma MapWhereIdempotent<T>(s: seq<T>, sel: T -> bool, f: T -> T)
    requires forall x :: x in s && sel(x) ==> f(f(x)) == f(x)
    ensures MapWhere(MapWhere(s, sel, f), sel, f) == MapWhere(s, sel, f)
  {
    var once := MapWhere(s, sel, f);
    forall i | 0 <= i < |s| ensures MapWhere(once, sel, f)[i] == once[i] {
      assert s[i] in s;
    }
  }
}
