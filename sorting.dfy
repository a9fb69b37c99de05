/** The two in-place `Array.prototype.sort` calls: `events.sort((a, b) => a.start - b.start)`
    (src/App.js:122) and the sort of `upcomingEvents` by date (src/App.js:59-63). Both compare by
    the difference of two keys, and a `NaN` difference is not greater than zero, so an element
    without a key never moves past another. The sort is modelled as a stable insertion sort;
    whenever every key is defined its result is the unique stable ascending order, which is what
    any conforming engine returns for a consistent comparator. */
module Sorting {
  import opened Wrappers
  import opened Calendar

  /** `compare(a, b) > 0` for `compare(a, b) = ka - kb`; `None` stands for `NaN`. */
  predicate After(ka: Option<int>, kb: Option<int>) {
    ka.Some? && kb.Some? && ka.value > kb.value
  }

  /** `x` put into `s` behind every element it does not have to pass: it moves left past the
      elements that compare after it. */
  function Insert(x: CalendarEvent, s: seq<CalendarEvent>, key: CalendarEvent -> Option<int>): seq<CalendarEvent> {
    if s == [] then [x]
    else if After(key(s[|s| - 1]), key(x)) then Insert(x, s[..|s| - 1], key) + [s[|s| - 1]]
    else s + [x]
  }

  /** The order the sort leaves: each element in turn inserted into the sorted prefix. */
  function SortSpec(s: seq<CalendarEvent>, key: CalendarEvent -> Option<int>): seq<CalendarEvent> {
    if s == [] then [] else Insert(s[|s| - 1], SortSpec(s[..|s| - 1], key), key)
  }

  /** Every element has a key (no comparison is `NaN`). */
  predicate Keyed(s: seq<CalendarEvent>, key: CalendarEvent -> Option<int>) {
    forall i :: 0 <= i < |s| ==> key(s[i]).Some?
  }

  /** No element compares after a later one: keys ascend. */
  predicate Ordered(s: seq<CalendarEvent>, key: CalendarEvent -> Option<int>) {
    forall i, j :: 0 <= i < j < |s| ==> !After(key(s[i]), key(s[j]))
  }

  /** The elements of `s` whose key is `k`, in their order in `s`. */
  function WithKey(s: seq<CalendarEvent>, key: CalendarEvent -> Option<int>, k: int): seq<CalendarEvent> {
    if s == [] then []
    else WithKey(s[..|s| - 1], key, k) + (if key(s[|s| - 1]) == Some(k) then [s[|s| - 1]] else [])
  }

  // ---------------------------------------------------------------------------------------
  // The sort permutes, whatever the keys

  lemma {:induction false} InsertPermutes(x: CalendarEvent, s: seq<CalendarEvent>, key: CalendarEvent -> Option<int>)
    ensures multiset(Insert(x, s, key)) == multiset(s) + multiset{x}
  {
    if s != [] && After(key(s[|s| - 1]), key(x)) {
      InsertPermutes(x, s[..|s| - 1], key);
      assert s == s[..|s| - 1] + [s[|s| - 1]];
    }
  }

  /** The result holds exactly the input's elements, as often as the input does. */
  lemma {:induction false} SortPermutes(s: seq<CalendarEvent>, key: CalendarEvent -> Option<int>)
    ensures multiset(SortSpec(s, key)) == multiset(s)
  {
    if s != [] {
      SortPermutes(s[..|s| - 1], key);
      InsertPermutes(s[|s| - 1], SortSpec(s[..|s| - 1], key), key);
      assert s == s[..|s| - 1] + [s[|s| - 1]];
    }
  }

  // ---------------------------------------------------------------------------------------
  // With every key defined, the sort orders by key and keeps ties in input order

  lemma {:induction false} InsertOrdered(x: CalendarEvent, s: seq<CalendarEvent>, key: CalendarEvent -> Option<int>)
    requires Keyed(s, key) && key(x).Some? && Ordered(s, key)
    ensures Ordered(Insert(x, s, key), key)
  {
    if s != [] && After(key(s[|s| - 1]), key(x)) {
      var p, last := s[..|s| - 1], s[|s| - 1];
      InsertOrdered(x, p, key);
      InsertPermutes(x, p, key);
      var r := Insert(x, p, key);
      forall i | 0 <= i < |r| ensures !After(key(r[i]), key(last)) {
        assert r[i] in multiset(p) + multiset{x};
        if r[i] != x {
          assert r[i] in p;
          var j :| 0 <= j < |p| && p[j] == r[i];
          assert s[j] == r[i];
        }
      }
    }
  }

  /** With every key defined, the result ascends by key. */
  lemma {:induction false} SortOrdered(s: seq<CalendarEvent>, key: CalendarEvent -> Option<int>)
    requires Keyed(s, key)
    ensures Ordered(SortSpec(s, key), key)
  {
    if s != [] {
      var p := s[..|s| - 1];
      SortOrdered(p, key);
      SortPermutes(p, key);
      var q := SortSpec(p, key);
      forall i | 0 <= i < |q| ensures key(q[i]).Some? {
        assert q[i] in multiset(p);
      }
      InsertOrdered(s[|s| - 1], q, key);
    }
  }

  lemma {:induction false} WithKeyAppend(a: seq<CalendarEvent>, b: seq<CalendarEvent>, key: CalendarEvent -> Option<int>, k: int)
    ensures WithKey(a + b, key, k) == WithKey(a, key, k) + WithKey(b, key, k)
  {
    if b == [] {
      assert a + b == a;
    } else {
      WithKeyAppend(a, b[..|b| - 1], key, k);
      assert (a + b)[..|a + b| - 1] == a + b[..|b| - 1];
    }
  }

  lemma {:induction false} InsertStable(x: CalendarEvent, s: seq<CalendarEvent>, key: CalendarEvent -> Option<int>, k: int)
    requires key(x).Some?
    ensures WithKey(Insert(x, s, key), key, k) == WithKey(s, key, k) + WithKey([x], key, k)
  {
    if s == [] {
      assert [x] == [] + [x];
    } else if After(key(s[|s| - 1]), key(x)) {
      var p, last := s[..|s| - 1], s[|s| - 1];
      InsertStable(x, p, key, k);
      assert Insert(x, s, key) == Insert(x, p, key) + [last];
      WithKeyAppend(Insert(x, p, key), [last], key, k);
      assert s == p + [last];
      WithKeyAppend(p, [last], key, k);
      assert key(last) != Some(k) || key(x) != Some(k);
    } else {
      WithKeyAppend(s, [x], key, k);
    }
  }

  /** With every key defined, elements with equal keys keep their input order: for each key,
      the elements carrying it come out in the order they went in. */
  lemma {:induction false} SortStable(s: seq<CalendarEvent>, key: CalendarEvent -> Option<int>, k: int)
    requires Keyed(s, key)
    ensures WithKey(SortSpec(s, key), key, k) == WithKey(s, key, k)
  {
    if s != [] {
      var p, x := s[..|s| - 1], s[|s| - 1];
      SortStable(p, key, k);
      InsertStable(x, SortSpec(p, key), key, k);
      assert [x] == [] + [x];
    }
  }

  // ---------------------------------------------------------------------------------------
  // The in-place sort

  /** Sorts `a` in place, moving each element left past the elements that compare after it. */
  method SortInPlace(a: array<CalendarEvent>, key: CalendarEvent -> Option<int>)
    modifies a
    ensures a[..] == SortSpec(old(a[..]), key)
  {
    ghost var orig := a[..];
    var i := 0;
    while i < a.Length
      invariant 0 <= i <= a.Length
      invariant a[..i] == SortSpec(orig[..i], key)
      invariant a[i..] == orig[i..]
    {
      ghost var before := a[..];
      assert before[i] == orig[i] by {
        assert before[i..][0] == orig[i..][0];
      }
      assert before[i + 1..] == orig[i + 1..] by {
        assert before[i + 1..] == before[i..][1..];
      }
      InsertInPlace(a, i, key);
      assert orig[..i + 1][..i] == orig[..i];
      assert SortSpec(orig[..i + 1], key) == Insert(orig[i], SortSpec(orig[..i], key), key);
      i := i + 1;
    }
    assert orig[..a.Length] == orig;
  }

  /** Moves `a[i]` left into the prefix `a[..i]`, past the elements that compare after it. */
  method InsertInPlace(a: array<CalendarEvent>, i: nat, key: CalendarEvent -> Option<int>)
    requires i < a.Length
    modifies a
    ensures a[..i + 1] == Insert(old(a[i]), old(a[..i]), key)
    ensures a[i + 1..] == old(a[i + 1..])
  {
    var x := a[i];
    ghost var prev := a[..i];
    ghost var tail := a[i + 1..];
    var j := i;
    while j > 0 && After(key(a[j - 1]), key(x))
      invariant 0 <= j <= i
      invariant a[..j] == prev[..j]
      invariant a[j + 1..i + 1] == prev[j..]
      invariant a[i + 1..] == tail
      invariant Insert(x, prev, key) == Insert(x, prev[..j], key) + prev[j..]
    {
      InsertPassing(x, prev, j, key);
      assert a[j - 1] == prev[j - 1];
      a[j] := a[j - 1];
      assert a[j + 1..i + 1] == prev[j..];
      assert a[j..i + 1] == [a[j]] + a[j + 1..i + 1];
      j := j - 1;
    }
    InsertStopping(x, prev, j, key);
    a[j] := x;
    assert a[..i + 1] == prev[..j] + [x] + prev[j..];
  }

  /** Passing one element that compares after `x`. */
  lemma InsertPassing(x: CalendarEvent, prev: seq<CalendarEvent>, j: nat, key: CalendarEvent -> Option<int>)
    requires 0 < j <= |prev| && After(key(prev[j - 1]), key(x))
    ensures Insert(x, prev[..j], key) + prev[j..] == Insert(x, prev[..j - 1], key) + prev[j - 1..]
  {
    assert prev[..j][..j - 1] == prev[..j - 1];
    assert prev[j - 1..] == [prev[j - 1]] + prev[j..];
  }

  /** Stopping in front of the first element that does not compare after `x`, or at the start. */
  lemma InsertStopping(x: CalendarEvent, prev: seq<CalendarEvent>, j: nat, key: CalendarEvent -> Option<int>)
    requires j <= |prev| && (j == 0 || !After(key(prev[j - 1]), key(x)))
    ensures Insert(x, prev[..j], key) == prev[..j] + [x]
  {
  }

}
