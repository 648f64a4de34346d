/** Sorting by a strict order, and the order of strings. */
module Ordering {
  import opened Common

  /** `less` orders the elements of `s` strictly and totally. */
  ghost predicate OrderOn<T(!new)>(less: (T, T) -> bool, s: seq<T>) {
    && (forall x :: x in s ==> !less(x, x))
    && (forall x, y :: x in s && y in s && x != y ==> less(x, y) || less(y, x))
    && (forall x, y, z :: x in s && y in s && z in s && less(x, y) && less(y, z) ==> less(x, z))
  }

  ghost predicate Sorted<T(!new)>(less: (T, T) -> bool, s: seq<T>) {
    forall i, j :: 0 <= i < j < |s| ==> less(s[i], s[j])
  }

  function Insert<T(!new)>(less: (T, T) -> bool, x: T, s: seq<T>): (r: seq<T>)
    ensures forall y :: y in r <==> y == x || y in s
    ensures |r| == |s| + 1
  {
    if s == [] || less(x, s[0]) then [x] + s
    else
      assert s == [s[0]] + s[1..];
      [s[0]] + Insert(less, x, s[1..])
  }

  /** The sorted arrangement; for distinct elements under a strict total order
      there is only one, so it is what any sort yields. */
  function Sort<T(!new)>(less: (T, T) -> bool, s: seq<T>): (r: seq<T>)
    ensures forall y :: y in r <==> y in s
    ensures |r| == |s|
  {
    if s == [] then [] else
    assert s == [s[0]] + s[1..];
    Insert(less, s[0], Sort(less, s[1..]))
  }

  lemma {:induction false} InsertSorts<T(!new)>(less: (T, T) -> bool, x: T, s: seq<T>)
    requires Sorted(less, s) && OrderOn(less, [x] + s) && x !in s
    ensures Sorted(less, Insert(less, x, s))
  {
    if s != [] {
      var all := [x] + s;
      assert forall y :: y in s ==> y in all;
      assert x in all && s[0] in all;
      if less(x, s[0]) {
        forall j | 0 <= j < |s| ensures less(x, s[j]) {
          assert s[j] in all;
        }
      } else {
        assert s == [s[0]] + s[1..];
        forall y | y in [x] + s[1..] ensures y in all {
        }
        InsertSorts(less, x, s[1..]);
        var rest := Insert(less, x, s[1..]);
        forall j | 0 <= j < |rest| ensures less(s[0], rest[j]) {
          assert rest[j] in rest;
          if rest[j] != x {
            var k :| 0 <= k < |s[1..]| && s[1..][k] == rest[j];
            assert s[k + 1] == rest[j];
          }
        }
      }
    }
  }

  lemma {:induction false} SortSorts<T(!new)>(less: (T, T) -> bool, s: seq<T>)
    requires OrderOn(less, s) && NoDup(s)
    ensures Sorted(less, Sort(less, s))
  {
    if s != [] {
      assert s == [s[0]] + s[1..];
      SortSorts(less, s[1..]);
      var rest := Sort(less, s[1..]);
      assert forall y :: y in [s[0]] + rest ==> y in s;
      assert s[0] !in s[1..];
      InsertSorts(less, s[0], rest);
    }
  }

  /** Two sorted lists with the same elements are the same list. */
  lemma {:induction false} SortedUnique<T(!new)>(less: (T, T) -> bool, a: seq<T>, b: seq<T>)
    requires OrderOn(less, a) && Sorted(less, a) && Sorted(less, b)
    requires forall x :: x in a <==> x in b
    ensures a == b
  {
    assert b != [] ==> b[0] in b;
    if a != [] {
      assert a[0] in a && a[0] in b;
      assert b[0] in b && b[0] in a;
      var i :| 0 <= i < |a| && a[i] == b[0];
      var j :| 0 <= j < |b| && b[j] == a[0];
      assert a[0] == b[0];
      forall x ensures x in a[1..] <==> x in b[1..] {
        TailWithoutHead(less, a, x);
        TailWithoutHead(less, b, x);
      }
      assert forall x :: x in a[1..] ==> x in a;
      SortedUnique(less, a[1..], b[1..]);
      assert a == [a[0]] + a[1..] && b == [b[0]] + b[1..];
    }
  }

  lemma TailWithoutHead<T(!new)>(less: (T, T) -> bool, s: seq<T>, x: T)
    requires s != [] && Sorted(less, s) && !less(s[0], s[0])
    ensures x in s[1..] <==> x in s && x != s[0]
  {
  }

  lemma SortedNoDup<T(!new)>(less: (T, T) -> bool, s: seq<T>)
    requires Sorted(less, s) && forall x :: x in s ==> !less(x, x)
    ensures NoDup(s)
  {
  }

  // ---- Strings -------------------------------------------------------------

  predicate LexLess(a: string, b: string) {
    if a == "" then b != ""
    else b != "" && (a[0] < b[0] || (a[0] == b[0] && LexLess(a[1..], b[1..])))
  }

  lemma {:induction false} LexTotal(a: string, b: string)
    ensures a == b || LexLess(a, b) || LexLess(b, a)
    ensures !LexLess(a, a)
  {
    if a != "" {
      LexTotal(a[1..], if b == "" then "" else b[1..]);
      assert a == [a[0]] + a[1..];
      assert b != "" ==> b == [b[0]] + b[1..];
    }
  }

  lemma {:induction false} LexTransitive(a: string, b: string, c: string)
    requires LexLess(a, b) && LexLess(b, c)
    ensures LexLess(a, c)
  {
    if a != "" && a[0] == b[0] && b[0] == c[0] {
      LexTransitive(a[1..], b[1..], c[1..]);
    }
  }

  lemma LexOrders(s: seq<string>)
    ensures OrderOn(LexLess, s)
  {
    forall x, y ensures x == y || LexLess(x, y) || LexLess(y, x) {
      LexTotal(x, y);
    }
    forall x ensures !LexLess(x, x) {
      LexTotal(x, x);
    }
    forall x, y, z | LexLess(x, y) && LexLess(y, z) ensures LexLess(x, z) {
      LexTransitive(x, y, z);
    }
  }
}
