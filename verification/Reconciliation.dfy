/** What storing a credential does to the ones active before it. */
module Reconciliation {
  import opened Common
  import opened Credentials
  import opened VcStore
  import opened VcLifecycle
  import opened VcInvariants

  const EMPTY := Retirements([], [])

  /** The lists gathered so far do not steer the loop. */
  lemma {:induction false} ListsDoNotSteer(cfg: Platform, s: Sys, ids: seq<VcId>, successor: Option<VcId>,
                                           d: Retirements, e: Retirements, now: int)
    ensures var a, b := RetireAll(cfg, s, ids, successor, d, now), RetireAll(cfg, s, ids, successor, e, now);
            a.sys == b.sys && (a.result.Ok? <==> b.result.Ok?)
    decreases ids
  {
    if ids != [] {
      var o := RetireStep(cfg, s, ids[0], successor, now);
      if o.result.Ok? {
        ListsDoNotSteer(cfg, o.sys, ids[1..], successor, Record(d, ids[0], o.result.value),
                        Record(e, ids[0], o.result.value), now);
      }
    }
  }

  /** The state in which the loop looks at ids[k]. */
  function StateAt(cfg: Platform, s: Sys, ids: seq<VcId>, k: nat, successor: Option<VcId>, now: int): Sys
    requires k <= |ids|
  {
    RetireAll(cfg, s, ids[..k], successor, EMPTY, now).sys
  }

  lemma StateAtNext(cfg: Platform, s: Sys, ids: seq<VcId>, k: nat, successor: Option<VcId>, now: int)
    requires 0 < k <= |ids|
    requires RetireStep(cfg, s, ids[0], successor, now).result.Ok?
    ensures StateAt(cfg, s, ids, k, successor, now)
         == StateAt(cfg, RetireStep(cfg, s, ids[0], successor, now).sys, ids[1..], k - 1, successor, now)
  {
    var o := RetireStep(cfg, s, ids[0], successor, now);
    assert ids[..k][1..] == ids[1..][..k - 1];
    ListsDoNotSteer(cfg, o.sys, ids[..k][1..], successor, Record(EMPTY, ids[0], o.result.value), EMPTY, now);
  }

  /** Active children hang off ids[k] when the loop considers it. */
  predicate HasChildAt(cfg: Platform, s: Sys, ids: seq<VcId>, k: nat, successor: Option<VcId>, now: int)
    requires k < |ids|
  {
    ActiveChildren(StateAt(cfg, s, ids, k, successor, now).store, ids[k], now) != []
  }

  predicate RevokedIn(st: Store, id: VcId) {
    id in st.vcs && st.vcs[id].revokedAt.Some?
  }

  /** Each row of a loop lands in exactly one list, the one its mark says. */
  lemma {:induction false} LoopLists(cfg: Platform, s: Sys, ids: seq<VcId>, successor: Option<VcId>,
                                     done: Retirements, now: int)
    requires NoDup(ids) && RetireAll(cfg, s, ids, successor, done, now).result.Ok?
    requires forall id :: id in ids ==> id in s.store.vcs && s.store.vcs[id].revokedAt.None?
    ensures var o := RetireAll(cfg, s, ids, successor, done, now);
            var r := o.result.value;
            && (forall id :: id in r.retired <==> id in done.retired || (id in ids && RevokedIn(o.sys.store, id)))
            && (forall id :: id in r.retained <==> id in done.retained || (id in ids && !RevokedIn(o.sys.store, id)))
            && |r.retired| + |r.retained| == |done.retired| + |done.retained| + |ids|
    decreases ids
  {
    if ids != [] {
      var o := RetireStep(cfg, s, ids[0], successor, now);
      var next := Record(done, ids[0], o.result.value);
      assert ids == [ids[0]] + ids[1..] && ids[0] !in ids[1..] && ids[0] in ids;
      StepEffect(cfg, s, ids[0], successor, now);
      LoopLists(cfg, o.sys, ids[1..], successor, next, now);
      RetireAllTouches(cfg, o.sys, ids[1..], successor, next, now);
    }
  }

  lemma FirstOfLoop(cfg: Platform, s: Sys, ids: seq<VcId>, successor: Option<VcId>, done: Retirements, now: int)
    requires ids != [] && ids[0] !in ids[1..] && RetireAll(cfg, s, ids, successor, done, now).result.Ok?
    requires ids[0] in s.store.vcs && s.store.vcs[ids[0]].revokedAt.None?
    ensures RevokedIn(RetireAll(cfg, s, ids, successor, done, now).sys.store, ids[0])
       <==> ActiveChildren(s.store, ids[0], now) == []
  {
    var o := RetireStep(cfg, s, ids[0], successor, now);
    StepEffect(cfg, s, ids[0], successor, now);
    RetireAllTouches(cfg, o.sys, ids[1..], successor, Record(done, ids[0], o.result.value), now);
  }

  /** A row is revoked by a loop unless active children hang off it in its turn. */
  lemma {:induction false} LoopChildren(cfg: Platform, s: Sys, ids: seq<VcId>, successor: Option<VcId>,
                                        done: Retirements, now: int, k: nat)
    requires NoDup(ids) && RetireAll(cfg, s, ids, successor, done, now).result.Ok?
    requires forall id :: id in ids ==> id in s.store.vcs && s.store.vcs[id].revokedAt.None?
    requires k < |ids|
    ensures RevokedIn(RetireAll(cfg, s, ids, successor, done, now).sys.store, ids[k])
       <==> !HasChildAt(cfg, s, ids, k, successor, now)
    decreases ids
  {
    var o := RetireStep(cfg, s, ids[0], successor, now);
    var next := Record(done, ids[0], o.result.value);
    assert ids == [ids[0]] + ids[1..] && ids[0] !in ids[1..] && ids[0] in ids;
    StepEffect(cfg, s, ids[0], successor, now);
    if k == 0 {
      FirstOfLoop(cfg, s, ids, successor, done, now);
      assert StateAt(cfg, s, ids, 0, successor, now) == s;
    } else {
      LoopChildren(cfg, o.sys, ids[1..], successor, next, now, k - 1);
      StateAtNext(cfg, s, ids, k, successor, now);
    }
  }

  lemma StepEffect(cfg: Platform, s: Sys, id: VcId, successor: Option<VcId>, now: int)
    requires RetireStep(cfg, s, id, successor, now).result.Ok? && id in s.store.vcs && s.store.vcs[id].revokedAt.None?
    ensures var o := RetireStep(cfg, s, id, successor, now);
            && o.sys.store.vcs.Keys == s.store.vcs.Keys
            && (forall x :: x in s.store.vcs && x != id ==> o.sys.store.vcs[x] == s.store.vcs[x])
            && o.sys.store.vcs[id].revokedAt == (if o.result.value then Some(now) else None)
            && o.sys.store.vcs[id].renewedBy == (if successor.Some? then successor else s.store.vcs[id].renewedBy)
            && SameButMarks(s.store.vcs[id], o.sys.store.vcs[id])
            && (o.result.value <==> ActiveChildren(s.store, id, now) == [])
  {
    if successor.Some? {
      ChildrenUnmarked(s.store, id, successor.value, now);
    }
  }

  lemma {:induction false} LoopMarks(cfg: Platform, s: Sys, ids: seq<VcId>, successor: Option<VcId>,
                                     done: Retirements, now: int)
    requires NoDup(ids) && RetireAll(cfg, s, ids, successor, done, now).result.Ok?
    requires forall id :: id in ids ==> id in s.store.vcs && s.store.vcs[id].revokedAt.None?
    ensures var o := RetireAll(cfg, s, ids, successor, done, now);
            && o.sys.store.vcs.Keys == s.store.vcs.Keys
            && (forall id :: id in ids ==>
                  && SameButMarks(s.store.vcs[id], o.sys.store.vcs[id])
                  && o.sys.store.vcs[id].revokedAt in {None, Some(now)}
                  && o.sys.store.vcs[id].renewedBy ==
                     if successor.Some? then successor else s.store.vcs[id].renewedBy)
    decreases ids
  {
    if ids != [] {
      var o := RetireStep(cfg, s, ids[0], successor, now);
      var next := Record(done, ids[0], o.result.value);
      assert ids == [ids[0]] + ids[1..] && ids[0] !in ids[1..] && ids[0] in ids;
      StepEffect(cfg, s, ids[0], successor, now);
      LoopMarks(cfg, o.sys, ids[1..], successor, next, now);
      RetireAllTouches(cfg, o.sys, ids[1..], successor, next, now);
    }
  }

  // ---- The rule as a whole -------------------------------------------------

  function Same(s: Sys, vc: Credential, now: int): seq<VcId> {
    Filter(id => SameScopes(s.store, id, vc), Siblings(s.store, vc, now))
  }

  function Others(s: Sys, vc: Credential, revokeExisting: bool, now: int): seq<VcId> {
    if revokeExisting then Filter(id => !SameScopes(s.store, id, vc), Siblings(s.store, vc, now)) else []
  }

  /** Every earlier credential the rule looks at. */
  ghost predicate Considered(s: Sys, vc: Credential, revokeExisting: bool, now: int, id: VcId) {
    && id in s.store.vcs && id != vc.body.id
    && IdentityOf(s.store.vcs[id]) == IdentityFor(vc)
    && IsActive(s.store.vcs[id], now)
    && (revokeExisting || SameScopes(s.store, id, vc))
  }

  lemma ConsideredAre(s: Sys, vc: Credential, revokeExisting: bool, now: int)
    requires WellKept(s.store)
    ensures NoDup(Same(s, vc, now)) && NoDup(Others(s, vc, revokeExisting, now))
    ensures forall id :: id in Same(s, vc, now) || id in Others(s, vc, revokeExisting, now)
              <==> Considered(s, vc, revokeExisting, now, id)
    ensures forall id :: id in Same(s, vc, now) <==>
              Considered(s, vc, revokeExisting, now, id) && SameScopes(s.store, id, vc)
  {
    var identity := IdentityFor(vc);
    var active := (r: VcRecord) => IdentityOf(r) == identity && IsActive(r, now);
    FilterNoDup(id => id in s.store.vcs && active(s.store.vcs[id]), s.store.order);
    assert ActiveByIdentity(s.store, identity, now) == Select(s.store, active);
    FilterNoDup(id => id != vc.body.id, ActiveByIdentity(s.store, identity, now));
    FilterNoDup(id => SameScopes(s.store, id, vc), Siblings(s.store, vc, now));
    FilterNoDup(id => !SameScopes(s.store, id, vc), Siblings(s.store, vc, now));
    forall id ensures id in Siblings(s.store, vc, now) <==> Considered(s, vc, true, now, id) {
    }
  }

  lemma TwoLoops(cfg: Platform, s: Sys, vc: Credential, revokeExisting: bool, now: int)
    requires HasIdentity(vc) && Reconcile(cfg, s, vc, revokeExisting, now).result.Ok?
    ensures var a := RetireAll(cfg, s, Same(s, vc, now), Some(vc.body.id), EMPTY, now);
            a.result.Ok?
            && var b := RetireAll(cfg, a.sys, Others(s, vc, revokeExisting, now), None,
                                  Retirements([], a.result.value.retained), now);
            b.result.Ok?
            && Reconcile(cfg, s, vc, revokeExisting, now) == Outcome(b.sys,
                 Ok(Reconciled(a.result.value.retired, b.result.value.retired, b.result.value.retained)))
  {
  }

  lemma OneLoop(cfg: Platform, s: Sys, ids: seq<VcId>, successor: Option<VcId>, done: Retirements, now: int)
    requires NoDup(ids) && RetireAll(cfg, s, ids, successor, done, now).result.Ok?
    requires forall id :: id in ids ==> id in s.store.vcs && s.store.vcs[id].revokedAt.None?
    ensures var o := RetireAll(cfg, s, ids, successor, done, now);
            var r, st, st' := o.result.value, s.store, o.sys.store;
            && st'.vcs.Keys == st.vcs.Keys
            && (forall id :: id in r.retired <==> id in done.retired || (id in ids && RevokedIn(st', id)))
            && (forall id :: id in r.retained <==> id in done.retained || (id in ids && !RevokedIn(st', id)))
            && (forall id :: id in st.vcs && id !in ids ==> st'.vcs[id] == st.vcs[id])
            && (forall id :: id in ids ==>
                  && SameButMarks(st.vcs[id], st'.vcs[id])
                  && st'.vcs[id].revokedAt in {None, Some(now)}
                  && st'.vcs[id].renewedBy == if successor.Some? then successor else st.vcs[id].renewedBy)
  {
    LoopLists(cfg, s, ids, successor, done, now);
    LoopMarks(cfg, s, ids, successor, done, now);
    RetireAllTouches(cfg, s, ids, successor, done, now);
  }

  /** After a stored credential is reconciled: every considered earlier credential
      is in exactly one of the three lists and nothing else is; it is active if
      and only if it is retained, and it was retained if and only if active
      children hung off it when it was looked at; the same-scope ones point at
      the new credential; the new credential and all other rows are untouched. */
  lemma ReconciledExactly(cfg: Platform, s: Sys, vc: Credential, revokeExisting: bool, now: int)
    requires WellKept(s.store) && HasIdentity(vc)
    requires Reconcile(cfg, s, vc, revokeExisting, now).result.Ok?
    ensures var o := Reconcile(cfg, s, vc, revokeExisting, now);
            var r, st, st' := o.result.value, s.store, o.sys.store;
            && st'.vcs.Keys == st.vcs.Keys
            && (forall id :: id in r.replaced <==>
                  Considered(s, vc, revokeExisting, now, id) && SameScopes(st, id, vc) && RevokedIn(st', id))
            && (forall id :: id in r.revoked <==>
                  Considered(s, vc, revokeExisting, now, id) && !SameScopes(st, id, vc) && RevokedIn(st', id))
            && (forall id :: id in r.retained <==>
                  Considered(s, vc, revokeExisting, now, id) && IsActive(st'.vcs[id], now))
            && (forall id :: id in st.vcs && !Considered(s, vc, revokeExisting, now, id) ==> st'.vcs[id] == st.vcs[id])
            && (forall id :: Considered(s, vc, revokeExisting, now, id) ==>
                  && st'.vcs[id].revokedAt in {None, Some(now)}
                  && st'.vcs[id].renewedBy == if SameScopes(st, id, vc) then Some(vc.body.id) else st.vcs[id].renewedBy)
  {
    var same, others := Same(s, vc, now), Others(s, vc, revokeExisting, now);
    ConsideredAre(s, vc, revokeExisting, now);
    TwoLoops(cfg, s, vc, revokeExisting, now);
    var a := RetireAll(cfg, s, same, Some(vc.body.id), EMPTY, now);
    OneLoop(cfg, s, same, Some(vc.body.id), EMPTY, now);
    OneLoop(cfg, a.sys, others, None, Retirements([], a.result.value.retained), now);
  }

  /** Why a credential was retained: when its turn came, active delegations hung
      off it; the retired ones had none. */
  lemma RetainedForChildren(cfg: Platform, s: Sys, vc: Credential, revokeExisting: bool, now: int)
    requires WellKept(s.store) && HasIdentity(vc)
    requires Reconcile(cfg, s, vc, revokeExisting, now).result.Ok?
    ensures var r := Reconcile(cfg, s, vc, revokeExisting, now).result.value;
            var same, others, next := Same(s, vc, now), Others(s, vc, revokeExisting, now), Some(vc.body.id);
            var middle := RetireAll(cfg, s, same, next, EMPTY, now).sys;
            && (forall k :: 0 <= k < |same| ==>
                  (same[k] in r.retained <==> HasChildAt(cfg, s, same, k, next, now)))
            && (forall k :: 0 <= k < |others| ==>
                  (others[k] in r.retained <==> HasChildAt(cfg, middle, others, k, None, now)))
            && |r.replaced| + |r.revoked| + |r.retained| == |same| + |others|
  {
    var same, others := Same(s, vc, now), Others(s, vc, revokeExisting, now);
    ConsideredAre(s, vc, revokeExisting, now);
    var a := RetireAll(cfg, s, same, Some(vc.body.id), EMPTY, now);
    var done := Retirements([], a.result.value.retained);
    LoopLists(cfg, s, same, Some(vc.body.id), EMPTY, now);
    RetireAllTouches(cfg, s, same, Some(vc.body.id), EMPTY, now);
    LoopLists(cfg, a.sys, others, None, done, now);
    var r := Reconcile(cfg, s, vc, revokeExisting, now).result.value;
    forall k | 0 <= k < |same|
      ensures same[k] in r.retained <==> HasChildAt(cfg, s, same, k, Some(vc.body.id), now)
    {
      assert same[k] in same && same[k] !in others;
      LoopChildren(cfg, s, same, Some(vc.body.id), EMPTY, now, k);
    }
    forall k | 0 <= k < |others|
      ensures others[k] in r.retained <==> HasChildAt(cfg, a.sys, others, k, None, now)
    {
      assert others[k] in others && others[k] !in same;
      LoopChildren(cfg, a.sys, others, None, done, now, k);
    }
  }

  /** Unrevoked, unexpired, and with the identity of `vc`. */
  predicate ActiveLike(st: Store, vc: Credential, id: VcId, now: int) {
    id in ActiveByIdentity(st, IdentityFor(vc), now)
  }

  /** Once a credential is stored, the active ones with its identity and scopes are
      just it and the retained ones; with `revokeExisting` so are all active ones
      with its identity. */
  lemma ActiveAfterStoring(cfg: Platform, s: Sys, row: VcRecord, revokeExisting: bool, now: int)
    requires Inv(cfg, s.store) && NewRow(cfg, s.store, row)
    requires IdentityOf(row) == IdentityFor(row.vc) && row.columns == LookupColumns(row.vc) && IsActive(row, now)
    requires HasIdentity(row.vc) && Register(cfg, s, row, revokeExisting, now).result.Ok?
    ensures var o := Register(cfg, s, row, revokeExisting, now);
            var st, retained := o.sys.store, o.result.value.retained;
            && row.vcId in st.vcs && st.vcs[row.vcId] == row
            && (forall id :: ActiveLike(st, row.vc, id, now) && (revokeExisting || SameScopes(st, id, row.vc)) <==>
                  id == row.vcId || (id in retained && (revokeExisting || SameScopes(st, id, row.vc))))
  {
    var stored := s.(store := WithRow(s.store, row));
    var o := Reconcile(cfg, stored, row.vc, revokeExisting, now);
    WithRowKeeps(cfg, s.store, row);
    ReconcileKeeps(cfg, stored, row.vc, revokeExisting, now);
    ReconciledExactly(cfg, stored, row.vc, revokeExisting, now);
    RegisterKeeps(cfg, s, row, revokeExisting, now);
    forall id
      ensures ActiveLike(o.sys.store, row.vc, id, now) && (revokeExisting || SameScopes(o.sys.store, id, row.vc))
         <==> id == row.vcId
              || (id in o.result.value.retained && (revokeExisting || SameScopes(o.sys.store, id, row.vc)))
    {
      ActiveOrRetained(stored, o.sys.store, row.vc, revokeExisting, now, id, o.result.value.retained);
    }
  }

  lemma ActiveOrRetained(s: Sys, st: Store, vc: Credential, revokeExisting: bool, now: int, id: VcId,
                         retained: seq<VcId>)
    requires WellKept(st) && SameRows(s.store, st) && vc.body.id in st.vcs
    requires IdentityOf(st.vcs[vc.body.id]) == IdentityFor(vc) && IsActive(st.vcs[vc.body.id], now)
    requires SameScopes(st, vc.body.id, vc)
    requires id in retained <==> Considered(s, vc, revokeExisting, now, id) && IsActive(st.vcs[id], now)
    ensures ActiveLike(st, vc, id, now) && (revokeExisting || SameScopes(st, id, vc))
       <==> id == vc.body.id || (id in retained && (revokeExisting || SameScopes(st, id, vc)))
  {
  }
}
