/** Option, Result and the list helpers shared by every module. */
module Common {
  datatype Option<+T> = None | Some(value: T) {
    function GetOr(default: T): T {
      match this case Some(v) => v case None => default
    }
  }

  datatype Result<+T, +E> = Ok(value: T) | Err(error: E)

  /** A value JavaScript reads as true: present and not the empty string. */
  predicate Truthy(s: Option<string>) {
    s.Some? && s.value != ""
  }

  ghost function Elems<T>(s: seq<T>): set<T> {
    set x | x in s
  }

  ghost predicate NoDup<T>(s: seq<T>) {
    forall i, j :: 0 <= i < j < |s| ==> s[i] != s[j]
  }

  function Filter<T(!new)>(p: T -> bool, s: seq<T>): (r: seq<T>)
    ensures forall x :: x in r <==> x in s && p(x)
    ensures |r| <= |s|
  {
    if s == [] then [] else
    var rest := Filter(p, s[1..]);
    assert s == [s[0]] + s[1..];
    if p(s[0]) then [s[0]] + rest else rest
  }

  lemma {:induction false} FilterConcat<T(!new)>(p: T -> bool, a: seq<T>, b: seq<T>)
    ensures Filter(p, a + b) == Filter(p, a) + Filter(p, b)
  {
    if a == [] {
      assert a + b == b;
    } else {
      assert (a + b)[1..] == a[1..] + b;
      FilterConcat(p, a[1..], b);
    }
  }

  lemma {:induction false} FilterSame<T(!new)>(p: T -> bool, q: T -> bool, s: seq<T>)
    requires forall x :: x in s ==> (p(x) <==> q(x))
    ensures Filter(p, s) == Filter(q, s)
  {
    if s != [] {
      assert s == [s[0]] + s[1..] && s[0] in s;
      FilterSame(p, q, s[1..]);
    }
  }

  /** Filtering a list keeps exactly the copies of the elements that pass. */
  lemma {:induction false} FilterMultiset<T(!new)>(p: T -> bool, s: seq<T>, x: T)
    ensures multiset(Filter(p, s))[x] == if p(x) then multiset(s)[x] else 0
  {
    if s != [] {
      assert s == [s[0]] + s[1..];
      FilterMultiset(p, s[1..], x);
    }
  }

  lemma FilterPermutation<T(!new)>(p: T -> bool, a: seq<T>, b: seq<T>)
    requires multiset(a) == multiset(b)
    ensures multiset(Filter(p, a)) == multiset(Filter(p, b))
    ensures |Filter(p, a)| == |Filter(p, b)|
  {
    forall x: T
      ensures multiset(Filter(p, a))[x] == multiset(Filter(p, b))[x]
    {
      FilterMultiset(p, a, x);
      FilterMultiset(p, b, x);
    }
    assert multiset(Filter(p, a)) == multiset(Filter(p, b));
    assert |multiset(Filter(p, a))| == |Filter(p, a)|;
  }

  lemma {:induction false} FilterNoDup<T(!new)>(p: T -> bool, s: seq<T>)
    requires NoDup(s)
    ensures NoDup(Filter(p, s))
  {
    if s != [] {
      FilterNoDup(p, s[1..]);
      assert s[0] !in s[1..];
    }
  }

  /** A JavaScript Set filled in order: new members go to the end. */
  function AddAll<T(==,!new)>(known: seq<T>, more: seq<T>): (r: seq<T>)
    ensures forall x :: x in r <==> x in known || x in more
    ensures NoDup(known) ==> NoDup(r)
    decreases more
  {
    if more == [] then known else
    assert more == [more[0]] + more[1..];
    AddAll(if more[0] in known then known else known + [more[0]], more[1..])
  }

  /** Adding members that are all new and distinct appends them as they are. */
  lemma {:induction false} AddAllNew<T(!new)>(known: seq<T>, more: seq<T>)
    requires NoDup(known + more)
    ensures AddAll(known, more) == known + more
    decreases more
  {
    if more != [] {
      assert (known + more)[|known|] == more[0];
      assert forall i :: 0 <= i < |known| ==> (known + more)[i] == known[i];
      assert more[0] !in known;
      assert (known + [more[0]]) + more[1..] == known + more;
      AddAllNew(known + [more[0]], more[1..]);
    } else {
      assert known + more == known;
    }
  }
}
