/** Following a keyset cursor through any listing that supports one. */
module Paging {

  function Take<T>(s: seq<T>, n: nat): seq<T> {
    if n <= |s| then s[..n] else s
  }

  /** `ask` serves prefixes of `whole`, and `next`, given one of its rows, moves to
      exactly what comes after that row. */
  ghost predicate Pageable<Q(!new), R>(ask: (Q, nat) -> seq<R>, next: (Q, R) -> Q, whole: Q -> seq<R>) {
    && (forall q, n :: ask(q, n) == Take(whole(q), n))
    && (forall q, k :: 0 <= k < |whole(q)| ==> whole(next(q, whole(q)[k])) == whole(q)[k + 1..])
  }

  /** Pages of n rows, each asked for from the last row of the one before, until one
      is empty. What is still to come gets shorter with every page. */
  function Pages<Q(!new), R>(ask: (Q, nat) -> seq<R>, next: (Q, R) -> Q, ghost whole: Q -> seq<R>,
                             n: nat, q: Q): seq<R>
    requires Pageable(ask, next, whole) && n >= 1
    decreases |whole(q)|
  {
    var page := ask(q, n);
    if page == [] then [] else
    var after := next(q, page[|page| - 1]);
    assert page[|page| - 1] == whole(q)[|page| - 1];
    page + Pages(ask, next, whole, n, after)
  }

  /** Asking for one row more than is shown tells whether another page follows. */
  function Walk<Q(!new), R>(ask: (Q, nat) -> seq<R>, next: (Q, R) -> Q, ghost whole: Q -> seq<R>,
                            n: nat, q: Q): seq<R>
    requires Pageable(ask, next, whole) && n >= 1
    decreases |whole(q)|
  {
    var got := ask(q, n + 1);
    if |got| <= n then got else
    var after := next(q, got[n - 1]);
    assert got[n - 1] == whole(q)[n - 1];
    got[..n] + Walk(ask, next, whole, n, after)
  }

  lemma Joined<R>(all: seq<R>, n: nat, page: seq<R>, rest: seq<R>)
    requires n <= |all| && page == all[..n] && rest == all[n..]
    ensures page + rest == all
  {
  }

  lemma {:induction false} PagesAreWhole<Q(!new), R>(ask: (Q, nat) -> seq<R>, next: (Q, R) -> Q,
                                                     whole: Q -> seq<R>, n: nat, q: Q)
    requires Pageable(ask, next, whole) && n >= 1
    ensures Pages(ask, next, whole, n, q) == whole(q)
    decreases |whole(q)|
  {
    var page := ask(q, n);
    if page != [] {
      assert page[|page| - 1] == whole(q)[|page| - 1];
      var after := next(q, page[|page| - 1]);
      PagesAreWhole(ask, next, whole, n, after);
      Joined(whole(q), |page|, page, Pages(ask, next, whole, n, after));
    }
  }

  lemma {:induction false} WalkIsWhole<Q(!new), R>(ask: (Q, nat) -> seq<R>, next: (Q, R) -> Q,
                                                   whole: Q -> seq<R>, n: nat, q: Q)
    requires Pageable(ask, next, whole) && n >= 1
    ensures Walk(ask, next, whole, n, q) == whole(q)
    decreases |whole(q)|
  {
    var got := ask(q, n + 1);
    if |got| > n {
      assert got[n - 1] == whole(q)[n - 1] && got[..n] == whole(q)[..n];
      var after := next(q, got[n - 1]);
      WalkIsWhole(ask, next, whole, n, after);
      Joined(whole(q), n, got[..n], Walk(ask, next, whole, n, after));
    }
  }
}
