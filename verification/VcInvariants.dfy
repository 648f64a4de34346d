/** What every lifecycle step keeps: the rows and the bits of the default list
    agree, renewal links only point forward, nothing but revocation and renewal
    marks ever changes in a row. */
module VcInvariants {
  import opened Common
  import opened Credentials
  import opened VcStore
  import opened VcLifecycle
  import StatusList

  /** Rows are filed under their own id, each id once in insertion order. */
  ghost predicate WellKept(st: Store) {
    && NoDup(st.order)
    && (forall id :: id in st.order <==> id in st.vcs)
    && (forall id :: id in st.vcs ==> st.vcs[id].vcId == id && st.vcs[id].vc.body.id == id)
  }

  /** The record has an entry of its own on the default list. */
  predicate Listed(cfg: Platform, st: Store, id: VcId) {
    id in st.vcs && OnDefaultList(cfg, st.vcs[id].vc)
  }

  /** Listed rows own distinct claimed indexes, a row's bit is 1 exactly when the
      row is revoked, and a bit that is 1 belongs to some listed row. */
  ghost predicate RowsMatchBits(cfg: Platform, st: Store) {
    match st.list
    case None => forall id :: !Listed(cfg, st, id)
    case Some(l) =>
      && |l.bits| == StatusList.DEFAULT_BYTES
      && l.nextIndex <= StatusList.DEFAULT_BITS
      && (forall id :: Listed(cfg, st, id) ==>
            && 0 <= st.vcs[id].statusListIndex < l.nextIndex
            && st.vcs[id].vc.body.status.value.index == Some(st.vcs[id].statusListIndex)
            && (StatusList.Bit(l.bits, st.vcs[id].statusListIndex) <==> st.vcs[id].revokedAt.Some?))
      && (forall a, b :: Listed(cfg, st, a) && Listed(cfg, st, b) && a != b ==>
            st.vcs[a].statusListIndex != st.vcs[b].statusListIndex)
      && (forall i :: 0 <= i < StatusList.DEFAULT_BITS && StatusList.Bit(l.bits, i) ==>
            exists id :: Listed(cfg, st, id) && st.vcs[id].statusListIndex == i)
  }

  ghost predicate Before(order: seq<VcId>, a: VcId, b: VcId) {
    exists i, j :: 0 <= i < j < |order| && order[i] == a && order[j] == b
  }

  /** A renewal link points at a row created later. */
  ghost predicate LinksForward(st: Store) {
    forall id :: id in st.vcs && st.vcs[id].renewedBy.Some? ==> Before(st.order, id, st.vcs[id].renewedBy.value)
  }

  ghost predicate Inv(cfg: Platform, st: Store) {
    WellKept(st) && RowsMatchBits(cfg, st) && LinksForward(st)
  }

  // ---- How a step may change the rows --------------------------------------

  ghost predicate SameButMarks(a: VcRecord, b: VcRecord) {
    && b == a.(revokedAt := b.revokedAt, renewedBy := b.renewedBy)
    && (a.revokedAt.Some? ==> b.revokedAt.Some?)
  }

  /** No bit of the list is ever cleared, and claims only go up. */
  ghost predicate ListEvolves(a: Option<StatusEntry>, b: Option<StatusEntry>) {
    a.Some? ==>
      && b.Some?
      && a.value.nextIndex <= b.value.nextIndex
      && |b.value.bits| == |a.value.bits|
      && (forall i :: 0 <= i < 8 * |a.value.bits| && StatusList.Bit(a.value.bits, i) ==>
            StatusList.Bit(b.value.bits, i))
  }

  /** Rows are only added at the end; revocations stay; only marks change. */
  ghost predicate Evolves(a: Store, b: Store) {
    && a.order <= b.order
    && (forall id :: id in a.vcs ==> id in b.vcs && SameButMarks(a.vcs[id], b.vcs[id]))
    && ListEvolves(a.list, b.list)
  }

  lemma EvolvesTrans(a: Store, b: Store, c: Store)
    requires Evolves(a, b) && Evolves(b, c)
    ensures Evolves(a, c)
  {
  }

  /** Nothing but rows' marks and the list changed. */
  ghost predicate SameRows(a: Store, b: Store) {
    Evolves(a, b) && b.order == a.order && b.vcs.Keys == a.vcs.Keys
  }

  lemma SameRowsTrans(a: Store, b: Store, c: Store)
    requires SameRows(a, b) && SameRows(b, c)
    ensures SameRows(a, c)
  {
  }

  // ---- Revoking ------------------------------------------------------------

  lemma RevokeRowKeeps(cfg: Platform, s: Sys, id: VcId, now: int)
    requires Inv(cfg, s.store)
    ensures var o := RevokeRow(cfg, s, id, now);
            && Inv(cfg, o.sys.store) && SameRows(s.store, o.sys.store)
            && (forall x :: x in s.store.vcs && x != id ==> o.sys.store.vcs[x] == s.store.vcs[x])
            && (o.result.Ok? ==>
                  && id in s.store.vcs
                  && o.sys.store.vcs[id] == s.store.vcs[id].(revokedAt := Some(now)))
            && (id in s.store.vcs && s.store.list.Some? ==> o.result.Ok?)
            && (o.result.Err? ==> o.sys == s)
  {
    var st := s.store;
    if st.list.Some? && id in st.vcs {
      var bits, index := st.list.value.bits, st.vcs[id].statusListIndex;
      if OnDefaultList(cfg, st.vcs[id].vc) {
        assert Listed(cfg, st, id);
        BitsAfterFlip(bits, index);
        FlippedRowsMatch(cfg, st, id, now);
        RevokedEvolves(st, StatusList.Flipped(bits, index, true), id, now);
      } else {
        assert WithBits(st, bits) == st;
        UnlistedRowsMatch(cfg, st, id, now);
        RevokedEvolves(st, bits, id, now);
      }
    }
  }

  lemma BitsAfterFlip(bits: StatusList.Bits, index: int)
    requires 0 <= index < 8 * |bits|
    ensures var after := StatusList.Flipped(bits, index, true);
            && |after| == |bits|
            && forall j :: 0 <= j < 8 * |bits| ==>
                 (StatusList.Bit(after, j) <==> j == index || StatusList.Bit(bits, j))
  {
  }

  lemma RevokedEvolves(st: Store, bits: StatusList.Bits, id: VcId, now: int)
    requires WellKept(st) && LinksForward(st) && st.list.Some? && id in st.vcs
    requires |bits| == |st.list.value.bits|
    requires forall i :: 0 <= i < 8 * |bits| && StatusList.Bit(st.list.value.bits, i) ==> StatusList.Bit(bits, i)
    ensures var after := RowRevoked(WithBits(st, bits), id, now);
            WellKept(after) && LinksForward(after) && SameRows(st, after)
  {
  }

  lemma FlippedRowsMatch(cfg: Platform, st: Store, id: VcId, now: int)
    requires WellKept(st) && RowsMatchBits(cfg, st) && st.list.Some? && Listed(cfg, st, id)
    requires forall j :: 0 <= j < 8 * |st.list.value.bits| ==>
               (StatusList.Bit(StatusList.Flipped(st.list.value.bits, st.vcs[id].statusListIndex, true), j)
                <==> j == st.vcs[id].statusListIndex || StatusList.Bit(st.list.value.bits, j))
    ensures var bits := StatusList.Flipped(st.list.value.bits, st.vcs[id].statusListIndex, true);
            RowsMatchBits(cfg, RowRevoked(WithBits(st, bits), id, now))
  {
    var bits := StatusList.Flipped(st.list.value.bits, st.vcs[id].statusListIndex, true);
    var after := RowRevoked(WithBits(st, bits), id, now);
    assert forall x :: Listed(cfg, after, x) <==> Listed(cfg, st, x);
    assert forall x :: Listed(cfg, st, x) ==> after.vcs[x].statusListIndex == st.vcs[x].statusListIndex;
    forall i | 0 <= i < StatusList.DEFAULT_BITS && StatusList.Bit(bits, i)
      ensures exists x :: Listed(cfg, after, x) && after.vcs[x].statusListIndex == i
    {
      if i == st.vcs[id].statusListIndex {
        assert Listed(cfg, after, id);
      } else {
        var x :| Listed(cfg, st, x) && st.vcs[x].statusListIndex == i;
        assert Listed(cfg, after, x);
      }
    }
  }

  lemma UnlistedRowsMatch(cfg: Platform, st: Store, id: VcId, now: int)
    requires WellKept(st) && RowsMatchBits(cfg, st) && st.list.Some? && id in st.vcs && !Listed(cfg, st, id)
    ensures RowsMatchBits(cfg, RowRevoked(st, id, now))
  {
    var after := RowRevoked(st, id, now);
    assert forall x :: Listed(cfg, after, x) <==> Listed(cfg, st, x);
    assert forall x :: Listed(cfg, st, x) ==> after.vcs[x] == st.vcs[x];
  }

  lemma RenewedKeeps(cfg: Platform, st: Store, id: VcId, newId: VcId)
    requires Inv(cfg, st) && id in st.vcs && Before(st.order, id, newId)
    ensures Inv(cfg, RowRenewed(st, id, newId)) && SameRows(st, RowRenewed(st, id, newId))
  {
    var after := RowRenewed(st, id, newId);
    assert forall x :: Listed(cfg, after, x) <==> Listed(cfg, st, x);
    assert forall x :: x in st.vcs ==> after.vcs[x] == st.vcs[x].(renewedBy := after.vcs[x].renewedBy);
  }

  lemma RetireStepKeeps(cfg: Platform, s: Sys, id: VcId, successor: Option<VcId>, now: int)
    requires Inv(cfg, s.store) && id in s.store.vcs
    requires successor.Some? ==> Before(s.store.order, id, successor.value)
    ensures var o := RetireStep(cfg, s, id, successor, now);
            && Inv(cfg, o.sys.store) && SameRows(s.store, o.sys.store)
            && (forall x :: x in s.store.vcs && x != id ==> o.sys.store.vcs[x] == s.store.vcs[x])
            && (o.result.Ok? ==>
                  && o.sys.store.vcs[id].revokedAt == (if o.result.value then Some(now) else s.store.vcs[id].revokedAt)
                  && o.result.value == (ActiveChildren(s.store, id, now) == []))
            && (s.store.list.Some? ==> o.result.Ok?)
  {
    var marked := if successor.Some? then s.(store := RowRenewed(s.store, id, successor.value)) else s;
    if successor.Some? {
      RenewedKeeps(cfg, s.store, id, successor.value);
      ChildrenUnmarked(s.store, id, successor.value, now);
    }
    RevokeRowKeeps(cfg, marked, id, now);
    EvolvesTrans(s.store, marked.store, RetireStep(cfg, s, id, successor, now).sys.store);
  }

  /** A renewal mark changes nobody's active children. */
  lemma ChildrenUnmarked(st: Store, id: VcId, newId: VcId, now: int)
    requires id in st.vcs
    ensures ActiveChildren(RowRenewed(st, id, newId), id, now) == [] <==> ActiveChildren(st, id, now) == []
  {
    var after := RowRenewed(st, id, newId);
    forall x ensures x in ActiveChildren(after, id, now) <==> x in ActiveChildren(st, id, now) {
    }
    NonEmptyHasMember(ActiveChildren(after, id, now));
    NonEmptyHasMember(ActiveChildren(st, id, now));
  }

  lemma NonEmptyHasMember<T>(s: seq<T>)
    ensures s != [] <==> exists x :: x in s
  {
    if s != [] {
      assert s[0] in s;
    }
  }

  /** Whatever one turn of the loop keeps, the loop keeps. */
  lemma {:induction false} LoopKeeps(cfg: Platform, s: Sys, ids: seq<VcId>, successor: Option<VcId>,
                                     done: Retirements, now: int, good: Sys -> bool, total: bool)
    requires good(s)
    requires forall t, id :: good(t) && id in ids ==>
               && good(RetireStep(cfg, t, id, successor, now).sys)
               && (total ==> RetireStep(cfg, t, id, successor, now).result.Ok?)
    ensures good(RetireAll(cfg, s, ids, successor, done, now).sys)
    ensures total ==> RetireAll(cfg, s, ids, successor, done, now).result.Ok?
    decreases ids
  {
    if ids != [] {
      assert ids[0] in ids && forall x :: x in ids[1..] ==> x in ids;
      var o := RetireStep(cfg, s, ids[0], successor, now);
      if o.result.Ok? {
        LoopKeeps(cfg, o.sys, ids[1..], successor, Record(done, ids[0], o.result.value), now, good, total);
      }
    }
  }

  /** Whatever retiring one sibling keeps, reconciling keeps. */
  lemma ReconcileInduction(cfg: Platform, s: Sys, vc: Credential, revokeExisting: bool, now: int, good: Sys -> bool,
                           total: bool)
    requires good(s)
    requires forall t, id, next :: good(t) && id in Siblings(s.store, vc, now) && next in {None, Some(vc.body.id)} ==>
               && good(RetireStep(cfg, t, id, next, now).sys)
               && (total ==> RetireStep(cfg, t, id, next, now).result.Ok?)
    ensures good(Reconcile(cfg, s, vc, revokeExisting, now).sys)
    ensures total ==> Reconcile(cfg, s, vc, revokeExisting, now).result.Ok?
  {
    if HasIdentity(vc) {
      var siblings := Siblings(s.store, vc, now);
      var same := Filter(id => SameScopes(s.store, id, vc), siblings);
      var others := if revokeExisting then Filter(id => !SameScopes(s.store, id, vc), siblings) else [];
      LoopKeeps(cfg, s, same, Some(vc.body.id), Retirements([], []), now, good, total);
      var a := RetireAll(cfg, s, same, Some(vc.body.id), Retirements([], []), now);
      if a.result.Ok? {
        LoopKeeps(cfg, a.sys, others, None, Retirements([], a.result.value.retained), now, good, total);
      }
    }
  }

  lemma {:induction false} RetireAllTouches(cfg: Platform, s: Sys, ids: seq<VcId>, successor: Option<VcId>,
                                            done: Retirements, now: int)
    ensures var o := RetireAll(cfg, s, ids, successor, done, now);
            && o.sys.store.vcs.Keys == s.store.vcs.Keys
            && (forall id :: id in s.store.vcs && id !in ids ==> o.sys.store.vcs[id] == s.store.vcs[id])
    decreases ids
  {
    if ids != [] {
      assert ids == [ids[0]] + ids[1..];
      var o := RetireStep(cfg, s, ids[0], successor, now);
      if o.result.Ok? {
        RetireAllTouches(cfg, o.sys, ids[1..], successor, Record(done, ids[0], o.result.value), now);
      }
    }
  }

  // ---- New rows ------------------------------------------------------------

  /** The row's own index, if it has one, is claimed and no other row's, and its
      bit is still clear. */
  ghost predicate IndexFree(cfg: Platform, st: Store, r: VcRecord) {
    OnDefaultList(cfg, r.vc) ==>
      && st.list.Some?
      && 0 <= r.statusListIndex < st.list.value.nextIndex
      && r.vc.body.status.value.index == Some(r.statusListIndex)
      && (forall id :: Listed(cfg, st, id) ==> st.vcs[id].statusListIndex != r.statusListIndex)
  }

  ghost predicate NewRow(cfg: Platform, st: Store, r: VcRecord) {
    && r.vcId !in st.vcs && r.vc.body.id == r.vcId
    && r.revokedAt.None? && r.renewedBy.None?
    && IndexFree(cfg, st, r)
  }

  lemma NewRowMatchesBits(cfg: Platform, st: Store, r: VcRecord)
    requires WellKept(st) && RowsMatchBits(cfg, st) && NewRow(cfg, st, r)
    ensures RowsMatchBits(cfg, WithRow(st, r))
  {
    var after := WithRow(st, r);
    assert forall id :: id in st.vcs ==> after.vcs[id] == st.vcs[id];
    assert forall id :: Listed(cfg, st, id) ==> Listed(cfg, after, id);
    assert forall id :: Listed(cfg, after, id) ==> Listed(cfg, st, id) || id == r.vcId;
    if OnDefaultList(cfg, r.vc) {
      assert !StatusList.Bit(st.list.value.bits, r.statusListIndex);
    }
  }

  lemma NewRowInOrder(st: Store, r: VcRecord)
    requires WellKept(st) && LinksForward(st) && r.vcId !in st.vcs && r.vc.body.id == r.vcId && r.renewedBy.None?
    ensures WellKept(WithRow(st, r)) && LinksForward(WithRow(st, r))
    ensures forall id :: id in st.vcs ==> Before(WithRow(st, r).order, id, r.vcId)
  {
    var after := WithRow(st, r);
    assert after.order == st.order + [r.vcId];
    forall id | id in st.vcs ensures Before(after.order, id, r.vcId) {
      assert id in st.order;
      var i :| 0 <= i < |st.order| && st.order[i] == id;
      assert after.order[i] == id && after.order[|st.order|] == r.vcId;
    }
    forall id | id in st.vcs && st.vcs[id].renewedBy.Some?
      ensures Before(after.order, id, st.vcs[id].renewedBy.value)
    {
      var i, j :| 0 <= i < j < |st.order| && st.order[i] == id && st.order[j] == st.vcs[id].renewedBy.value;
      assert after.order[i] == id && after.order[j] == st.vcs[id].renewedBy.value;
    }
  }

  lemma WithRowKeeps(cfg: Platform, st: Store, r: VcRecord)
    requires Inv(cfg, st) && NewRow(cfg, st, r)
    ensures Inv(cfg, WithRow(st, r)) && Evolves(st, WithRow(st, r))
    ensures forall id :: id in st.vcs ==> Before(WithRow(st, r).order, id, r.vcId)
  {
    NewRowMatchesBits(cfg, st, r);
    NewRowInOrder(st, r);
  }

  ghost predicate KeptSince(cfg: Platform, a: Store, b: Store) {
    Inv(cfg, b) && SameRows(a, b)
  }

  lemma StepKeptSince(cfg: Platform, a: Store, t: Sys, id: VcId, next: Option<VcId>, newest: VcId, now: int)
    requires KeptSince(cfg, a, t.store) && id in a.vcs && newest in a.vcs
    requires Before(a.order, id, newest) && next in {None, Some(newest)}
    ensures KeptSince(cfg, a, RetireStep(cfg, t, id, next, now).sys.store)
    ensures a.list.Some? ==> RetireStep(cfg, t, id, next, now).result.Ok?
  {
    RetireStepKeeps(cfg, t, id, next, now);
    SameRowsTrans(a, t.store, RetireStep(cfg, t, id, next, now).sys.store);
  }

  lemma ReconcileKeeps(cfg: Platform, s: Sys, vc: Credential, revokeExisting: bool, now: int)
    requires Inv(cfg, s.store) && vc.body.id in s.store.vcs
    requires forall id :: id in s.store.vcs && id != vc.body.id ==> Before(s.store.order, id, vc.body.id)
    ensures var o := Reconcile(cfg, s, vc, revokeExisting, now);
            Inv(cfg, o.sys.store) && SameRows(s.store, o.sys.store) && (s.store.list.Some? ==> o.result.Ok?)
  {
    var good := (t: Sys) => KeptSince(cfg, s.store, t.store);
    forall t, id, next | good(t) && id in Siblings(s.store, vc, now) && next in {None, Some(vc.body.id)}
      ensures good(RetireStep(cfg, t, id, next, now).sys)
      ensures s.store.list.Some? ==> RetireStep(cfg, t, id, next, now).result.Ok?
    {
      StepKeptSince(cfg, s.store, t, id, next, vc.body.id, now);
    }
    ReconcileInduction(cfg, s, vc, revokeExisting, now, good, s.store.list.Some?);
  }

  lemma ReconcileTouches(cfg: Platform, s: Sys, vc: Credential, revokeExisting: bool, now: int)
    ensures var o := Reconcile(cfg, s, vc, revokeExisting, now);
            && o.sys.store.vcs.Keys == s.store.vcs.Keys
            && (forall id :: id in s.store.vcs && id !in Siblings(s.store, vc, now) ==>
                  o.sys.store.vcs[id] == s.store.vcs[id])
  {
    if HasIdentity(vc) {
      var siblings := Siblings(s.store, vc, now);
      var same := Filter(id => SameScopes(s.store, id, vc), siblings);
      var others := if revokeExisting then Filter(id => !SameScopes(s.store, id, vc), siblings) else [];
      RetireAllTouches(cfg, s, same, Some(vc.body.id), Retirements([], []), now);
      var a := RetireAll(cfg, s, same, Some(vc.body.id), Retirements([], []), now);
      if a.result.Ok? {
        RetireAllTouches(cfg, a.sys, others, None, Retirements([], a.result.value.retained), now);
      }
    }
  }

  lemma RegisterKeeps(cfg: Platform, s: Sys, row: VcRecord, revokeExisting: bool, now: int)
    requires Inv(cfg, s.store) && NewRow(cfg, s.store, row)
    ensures var o := Register(cfg, s, row, revokeExisting, now);
            Inv(cfg, o.sys.store) && Evolves(s.store, o.sys.store)
    ensures var o := Register(cfg, s, row, revokeExisting, now);
            && o.sys.store.order == s.store.order + [row.vcId]
            && o.sys.store.vcs.Keys == s.store.vcs.Keys + {row.vcId}
            && o.sys.store.vcs[row.vcId] == row
            && (s.store.list.Some? ==> o.result.Ok?)
  {
    var stored := s.(store := WithRow(s.store, row));
    WithRowKeeps(cfg, s.store, row);
    ReconcileKeeps(cfg, stored, row.vc, revokeExisting, now);
    ReconcileTouches(cfg, stored, row.vc, revokeExisting, now);
    EvolvesTrans(s.store, stored.store, Register(cfg, s, row, revokeExisting, now).sys.store);
  }

  // ---- Claims --------------------------------------------------------------

  lemma DefaultListKeeps(cfg: Platform, s: Sys, now: int)
    requires Inv(cfg, s.store)
    ensures var r := WithDefaultList(cfg, s, now);
            && Inv(cfg, r.store) && Evolves(s.store, r.store)
            && r.store.vcs == s.store.vcs && r.store.order == s.store.order
  {
    assert forall id :: Listed(cfg, WithDefaultList(cfg, s, now).store, id) <==> Listed(cfg, s.store, id);
  }

  lemma ClaimKeeps(cfg: Platform, st: Store)
    requires Inv(cfg, st) && st.list.Some? && st.list.value.nextIndex < StatusList.DEFAULT_BITS
    ensures Inv(cfg, Claimed(st)) && Evolves(st, Claimed(st))
    ensures forall id :: Listed(cfg, Claimed(st), id) ==>
              Claimed(st).vcs[id].statusListIndex != st.list.value.nextIndex
  {
  }

  /** Claiming gives an index below the list's length that no row has. */
  lemma ClaimEntryKeeps(cfg: Platform, s: Sys, now: int)
    requires Inv(cfg, s.store)
    ensures var o := ClaimStatusListEntry(cfg, s, now);
            && Inv(cfg, o.sys.store) && Evolves(s.store, o.sys.store)
            && o.sys.store.vcs == s.store.vcs && o.sys.store.order == s.store.order
            && (o.result.Ok? ==>
                  && o.sys.store.list.Some?
                  && o.result.value < o.sys.store.list.value.nextIndex <= StatusList.DEFAULT_BITS
                  && (forall id :: Listed(cfg, o.sys.store, id) ==>
                        o.sys.store.vcs[id].statusListIndex != o.result.value))
  {
    DefaultListKeeps(cfg, s, now);
    var ready := WithDefaultList(cfg, s, now);
    if ready.store.list.value.nextIndex < StatusList.DEFAULT_BITS {
      ClaimKeeps(cfg, ready.store);
      EvolvesTrans(s.store, ready.store, Claimed(ready.store));
    }
  }

  // ---- The service calls ---------------------------------------------------

  lemma IssueKeeps(cfg: Platform, s: Sys, p: IssueParams, known: bool, matches: bool, now: int, id: VcId)
    requires Inv(cfg, s.store) && id !in s.store.vcs
    ensures var o := IssueVC(cfg, s, p, known, matches, now, id);
            Inv(cfg, o.sys.store) && Evolves(s.store, o.sys.store)
    ensures var o := IssueVC(cfg, s, p, known, matches, now, id);
            o.result.Ok? ==>
              && o.sys.store.order == s.store.order + [id]
              && o.sys.store.vcs.Keys == s.store.vcs.Keys + {id}
              && o.sys.store.vcs[id] == IssuedRow(p, o.result.value.vc, o.result.value.statusListIndex)
              && o.result.value.vc == IssuedCredential(cfg, p, o.result.value.statusListIndex, now, id)
    ensures var o := IssueVC(cfg, s, p, known, matches, now, id);
            o.result.Err? ==> o.sys.store.vcs == s.store.vcs && o.sys.store.order == s.store.order
  {
    if IssueFault(p, known).None? {
      DefaultListKeeps(cfg, s, now);
      var ready := WithDefaultList(cfg, s, now);
      var index := ready.store.list.value.nextIndex;
      if index < StatusList.DEFAULT_BITS && matches {
        ClaimKeeps(cfg, ready.store);
        var vc := IssuedCredential(cfg, p, index, now, id);
        var claimed := ready.(store := Claimed(ready.store));
        RegisterKeeps(cfg, claimed, IssuedRow(p, vc, index), p.revokeExisting, now);
        EvolvesTrans(s.store, ready.store, claimed.store);
        EvolvesTrans(s.store, claimed.store, IssueVC(cfg, s, p, known, matches, now, id).sys.store);
      }
    }
  }

  lemma RenewKeeps(cfg: Platform, s: Sys, id: VcId, o: RenewOptions, known: bool, matches: bool, now: int, newId: VcId)
    requires Inv(cfg, s.store) && newId !in s.store.vcs
    ensures var r := RenewVC(cfg, s, id, o, known, matches, now, newId);
            Inv(cfg, r.sys.store) && Evolves(s.store, r.sys.store)
  {
    if id in s.store.vcs && s.store.vcs[id].revokedAt.None? {
      var issued := IssueVC(cfg, s, RenewParams(s.store.vcs[id], o), known, matches, now, newId);
      IssueKeeps(cfg, s, RenewParams(s.store.vcs[id], o), known, matches, now, newId);
      if issued.result.Ok? {
        assert id in s.store.order;
        var i :| 0 <= i < |s.store.order| && s.store.order[i] == id;
        assert issued.sys.store.order[i] == id && issued.sys.store.order[|s.store.order|] == newId;
        RenewedKeeps(cfg, issued.sys.store, id, newId);
        EvolvesTrans(s.store, issued.sys.store, RowRenewed(issued.sys.store, id, newId));
      }
    }
  }

  lemma RevokeKeeps(cfg: Platform, s: Sys, id: VcId, now: int)
    requires Inv(cfg, s.store)
    ensures var o := RevokeVC(cfg, s, id, now);
            && Inv(cfg, o.sys.store) && Evolves(s.store, o.sys.store)
            && (o.result.Ok? && Listed(cfg, s.store, id) ==>
                  && o.sys.store.list.Some?
                  && StatusList.GetBit(o.sys.store.list.value.bits, s.store.vcs[id].statusListIndex) == Some(true))
  {
    RevokeRowKeeps(cfg, s, id, now);
    var o := RevokeVC(cfg, s, id, now);
    if o.result.Ok? && Listed(cfg, s.store, id) {
      assert Listed(cfg, o.sys.store, id);
      StatusList.GetBitIsBit(o.sys.store.list.value.bits, s.store.vcs[id].statusListIndex);
    }
  }

  lemma ExternalKeeps(cfg: Platform, s: Sys, vc: Credential, check: ProofCheck, known: bool, revokeExisting: bool,
                      now: int)
    requires Inv(cfg, s.store) && !OnDefaultList(cfg, vc)
    ensures var o := RegisterExternalVC(cfg, s, vc, check, known, revokeExisting, now);
            Inv(cfg, o.sys.store) && Evolves(s.store, o.sys.store)
  {
    var o := RegisterExternalVC(cfg, s, vc, check, known, revokeExisting, now);
    if o.sys != s {
      assert o.sys == Register(cfg, s, ExternalRow(vc), revokeExisting, now).sys;
      RegisterKeeps(cfg, s, ExternalRow(vc), revokeExisting, now);
    }
  }

  lemma SignedKeeps(cfg: Platform, s: Sys, vc: Credential, revokeExisting: bool, now: int)
    requires Inv(cfg, s.store) && NewRow(cfg, s.store, SignedRow(cfg, vc))
    ensures var o := RegisterSignedVC(cfg, s, vc, revokeExisting, now);
            Inv(cfg, o.sys.store) && Evolves(s.store, o.sys.store)
  {
    RegisterKeeps(cfg, s, SignedRow(cfg, vc), revokeExisting, now);
  }

  // ---- Renewal links -------------------------------------------------------

  function Position(order: seq<VcId>, id: VcId): (i: nat)
    ensures i <= |order|
    ensures id in order ==> i < |order| && order[i] == id
  {
    if order == [] || order[0] == id then 0
    else
      assert order == [order[0]] + order[1..];
      1 + Position(order[1..], id)
  }

  lemma LinkAdvances(cfg: Platform, st: Store, id: VcId)
    requires Inv(cfg, st) && id in st.vcs && st.vcs[id].renewedBy.Some?
    ensures st.vcs[id].renewedBy.value in st.vcs
    ensures Position(st.order, id) < Position(st.order, st.vcs[id].renewedBy.value) < |st.order|
  {
  }

  /** Following renewal links from any record ends: at a record without one. */
  ghost function LastRenewal(cfg: Platform, st: Store, id: VcId): (last: VcId)
    requires Inv(cfg, st) && id in st.vcs
    ensures last in st.vcs && st.vcs[last].renewedBy.None?
    ensures Position(st.order, last) >= Position(st.order, id)
    decreases |st.order| - Position(st.order, id)
  {
    if st.vcs[id].renewedBy.None? then id
    else
      LinkAdvances(cfg, st, id);
      LastRenewal(cfg, st, st.vcs[id].renewedBy.value)
  }
}
