/**
 * Python's ordering of strings (code point by code point, a proper prefix
 * first) and `sorted(names, reverse=True)` as an insertion sort.
 */
module StringOrder {

  /** `a <= b` on Python strings. */
  predicate LessEq(a: string, b: string)
    decreases |a|
  {
    a == [] || (b != [] && (a[0] < b[0] || (a[0] == b[0] && LessEq(a[1..], b[1..]))))
  }

  lemma {:induction false} LessEqTotal(a: string, b: string)
    ensures LessEq(a, b) || LessEq(b, a)
    decreases |a|
  {
    if a != [] && b != [] && a[0] == b[0] {
      LessEqTotal(a[1..], b[1..]);
    }
  }

  lemma {:induction false} LessEqTransitive(a: string, b: string, c: string)
    requires LessEq(a, b) && LessEq(b, c)
    ensures LessEq(a, c)
    decreases |a|
  {
    if a != [] && a[0] == b[0] && b[0] == c[0] {
      LessEqTransitive(a[1..], b[1..], c[1..]);
    }
  }

  lemma {:induction false} LessEqAntisymmetric(a: string, b: string)
    requires LessEq(a, b) && LessEq(b, a)
    ensures a == b
    decreases |a|
  {
    if a != [] {
      LessEqAntisymmetric(a[1..], b[1..]);
      assert a == [a[0]] + a[1..] && b == [b[0]] + b[1..];
    }
  }

  /** Largest first. */
  predicate SortedDescending(s: seq<string>) {
    forall i, j :: 0 <= i < j < |s| ==> LessEq(s[j], s[i])
  }

  /** Put `x` into a descending list before the first element not above it. */
  function Insert(x: string, s: seq<string>): (r: seq<string>)
    requires SortedDescending(s)
    ensures SortedDescending(r)
    ensures multiset(r) == multiset(s) + multiset{x}
    decreases |s|
  {
    if s == [] then [x]
    else if LessEq(s[0], x) then
      InsertFront(x, s);
      [x] + s
    else
      LessEqTotal(s[0], x);
      var rest := Insert(x, s[1..]);
      assert s == [s[0]] + s[1..];
      InsertBehind(s[0], rest, x, s[1..]);
      [s[0]] + rest
  }

  /** `x` above the head of a descending list is above all of it. */
  lemma InsertFront(x: string, s: seq<string>)
    requires SortedDescending(s) && s != [] && LessEq(s[0], x)
    ensures SortedDescending([x] + s)
  {
    forall j | 0 <= j < |s| ensures LessEq(s[j], x) {
      if j > 0 {
        LessEqTransitive(s[j], s[0], x);
      }
    }
  }

  /** A head above every element of a descending tail keeps the list descending. */
  lemma InsertBehind(h: string, rest: seq<string>, x: string, tail: seq<string>)
    requires SortedDescending(rest) && SortedDescending([h] + tail)
    requires LessEq(x, h)
    requires multiset(rest) == multiset(tail) + multiset{x}
    ensures SortedDescending([h] + rest)
  {
    forall j | 0 <= j < |rest| ensures LessEq(rest[j], h) {
      assert rest[j] in multiset(rest);
      if rest[j] == x {
        assert LessEq(x, h);
      } else {
        assert rest[j] in multiset(tail);
        var k :| 0 <= k < |tail| && tail[k] == rest[j];
        var ht := [h] + tail;
        assert ht[0] == h && ht[k + 1] == tail[k];
        assert LessEq(ht[k + 1], ht[0]);
      }
    }
  }

  /** `sorted(names, reverse=True)`. */
  function SortDescending(s: seq<string>): (r: seq<string>)
    ensures SortedDescending(r)
    ensures multiset(r) == multiset(s)
    ensures |r| == |s|
  {
    if s == [] then []
    else
      var r := Insert(s[|s| - 1], SortDescending(s[..|s| - 1]));
      assert s == s[..|s| - 1] + [s[|s| - 1]];
      assert |r| == |multiset(r)|;
      r
  }
}
