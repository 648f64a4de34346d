/** Which earlier credentials a new one replaces: told by their issuers, subjects, types, users
    and scopes, whatever columns they are found by. */
module Replacement {
  import opened Common
  import opened Credentials
  import opened VcStore
  import opened VcLifecycle
  import opened VcInvariants
  import opened Presentations
  import opened Reconciliation
  import opened LifecycleTerms
  import Scopes

  // ---- Told apart --------------------------------------------------------------------

  /** The first type that is not the base type. */
  ghost predicate OfType(types: seq<string>, t: string) {
    exists i :: 0 <= i < |types| && types[i] == t && t != "VerifiableCredential"
                && forall j :: 0 <= j < i ==> types[j] == "VerifiableCredential"
  }

  lemma {:induction false} OwnTypeMeans(types: seq<string>)
    ensures forall t :: OwnType(types) == Some(t) <==> OfType(types, t)
  {
    if types != [] {
      OwnTypeMeans(types[1..]);
      forall t ensures OfType(types, t) <==>
                         if types[0] == "VerifiableCredential" then OfType(types[1..], t) else t == types[0]
      {
        OfTypeTail(types, t);
      }
    }
  }

  lemma OfTypeTail(types: seq<string>, t: string)
    requires types != []
    ensures OfType(types, t) <==> if types[0] == "VerifiableCredential" then OfType(types[1..], t) else t == types[0]
  {
    if types[0] == "VerifiableCredential" {
      if i :| 0 <= i < |types| && types[i] == t && t != "VerifiableCredential"
              && forall j :: 0 <= j < i ==> types[j] == "VerifiableCredential" {
        assert types[1..][i - 1] == t;
        assert forall j :: 0 <= j < i - 1 ==> types[1..][j] == types[j + 1];
      }
      if i :| 0 <= i < |types[1..]| && types[1..][i] == t && t != "VerifiableCredential"
              && forall j :: 0 <= j < i ==> types[1..][j] == "VerifiableCredential" {
        assert types[i + 1] == t;
        assert forall j :: 0 < j < i + 1 ==> types[j] == types[1..][j - 1];
      }
    }
  }

  /** One issuer, one subject, one user if any, one type. */
  ghost predicate SameParties(a: Credential, b: Credential) {
    && a.body.issuer == b.body.issuer && a.body.subject.id == b.body.subject.id
    && a.body.subject.claims.userDid == b.body.subject.claims.userDid
    && forall t :: OfType(a.body.types, t) <==> OfType(b.body.types, t)
  }

  function ScopeList(c: Credential): Option<seq<Scope>> {
    if c.body.subject.claims.scopes.Some? then c.body.subject.claims.scopes else c.body.subject.privilegeScopes
  }

  ghost predicate SameScopeSet(a: Credential, b: Credential) {
    match (ScopeList(a), ScopeList(b))
    case (Some(x), Some(y)) => forall s :: s in x <==> s in y
    case (None, None) => true
    case _ => false
  }

  predicate WellScoped(c: Credential) {
    ScopeList(c).Some? ==> GoodScopes(ScopeList(c).value)
  }

  lemma PartiesMean(a: Credential, b: Credential)
    ensures SameParties(a, b) <==>
            && LookupColumns(a).vcType == LookupColumns(b).vcType
            && LookupColumns(a).issuerDid == LookupColumns(b).issuerDid
            && LookupColumns(a).userDid == LookupColumns(b).userDid && a.body.subject.id == b.body.subject.id
  {
    OwnTypeMeans(a.body.types);
    OwnTypeMeans(b.body.types);
    if SameParties(a, b) && OwnType(a.body.types).Some? {
      assert OfType(b.body.types, OwnType(a.body.types).value);
    }
  }

  lemma ScopeSetsMean(a: Credential, b: Credential)
    requires WellScoped(a) && WellScoped(b)
    ensures SameScopeSet(a, b) <==> LookupColumns(a).scopeKey == LookupColumns(b).scopeKey
  {
    if ScopeList(a).Some? && ScopeList(b).Some? {
      var x, y := ScopeList(a).value, ScopeList(b).value;
      GoodScopesAre(x);
      GoodScopesAre(y);
      Scopes.KeyDecidesSetEquality(x, y);
      SameElems(x, y);
    }
  }

  lemma SameElems(x: seq<Scope>, y: seq<Scope>)
    ensures Elems(x) == Elems(y) <==> forall s :: s in x <==> s in y
  {
    if Elems(x) == Elems(y) {
      forall s ensures s in x <==> s in y {
        assert s in x <==> s in Elems(x);
        assert s in y <==> s in Elems(y);
      }
    }
  }

  // ---- Rivals ------------------------------------------------------------------------------

  /** A live earlier credential of the same parties, with the same scopes or with any. */
  ghost predicate Rival(st: Store, c: Credential, anyScopes: bool, now: int, id: VcId) {
    && id in st.vcs && id != c.body.id && Live(st.vcs[id], now)
    && SameParties(st.vcs[id].vc, c) && (anyScopes || SameScopeSet(st.vcs[id].vc, c))
  }

  ghost predicate AllWellScoped(st: Store) {
    forall id :: id in st.vcs ==> WellScoped(st.vcs[id].vc)
  }

  /** It has a type of its own and an issuer. */
  ghost predicate Identified(c: Credential) {
    c.body.issuer != "" && exists t :: t != "" && OfType(c.body.types, t)
  }

  lemma IdentifiedMeans(c: Credential)
    ensures Identified(c) <==> HasIdentity(c)
  {
    OwnTypeMeans(c.body.types);
  }

  lemma RivalsAre(s: Sys, c: Credential, anyScopes: bool, now: int, id: VcId)
    requires Faithful(s.store) && AllWellScoped(s.store) && WellScoped(c)
    ensures Rival(s.store, c, anyScopes, now, id) <==> Considered(s, c, anyScopes, now, id)
    ensures id in s.store.vcs ==> (SameScopes(s.store, id, c) <==> SameScopeSet(s.store.vcs[id].vc, c))
  {
    if id in s.store.vcs {
      var vc := s.store.vcs[id].vc;
      assert FaithfulRow(s.store.vcs[id]);
      PartiesMean(vc, c);
      ScopeSetsMean(vc, c);
    }
  }

  // ---- Why a rival stays -----------------------------------------------------------------------

  /** A live credential has this one as its parent. */
  ghost predicate HasLiveChild(st: Store, id: VcId, now: int) {
    exists child :: child in st.vcs && st.vcs[child].parentVcId == Some(id) && Live(st.vcs[child], now)
  }

  lemma ChildrenMean(st: Store, id: VcId, now: int)
    requires WellKept(st)
    ensures ActiveChildren(st, id, now) != [] <==> HasLiveChild(st, id, now)
  {
    var ids := ActiveChildren(st, id, now);
    if ids != [] {
      assert ids[0] in ids;
    }
    if child :| child in st.vcs && st.vcs[child].parentVcId == Some(id) && Live(st.vcs[child], now) {
      assert child in ids;
    }
  }

  lemma FewerChildren(a: Store, b: Store, id: VcId, now: int)
    requires SameRows(a, b) && HasLiveChild(b, id, now)
    ensures HasLiveChild(a, id, now)
  {
    var child :| child in b.vcs && b.vcs[child].parentVcId == Some(id) && Live(b.vcs[child], now);
    assert child in a.vcs && SameButMarks(a.vcs[child], b.vcs[child]);
  }

  /** All of the ids are rows before `newest`, the one they may be chained to. */
  ghost predicate LoopOver(cfg: Platform, st: Store, ids: seq<VcId>, successor: Option<VcId>, newest: VcId) {
    && Inv(cfg, st) && newest in st.vcs && successor in {None, Some(newest)}
    && forall x :: x in ids ==> x in st.vcs && Before(st.order, x, newest)
  }

  lemma LoopSame(cfg: Platform, s: Sys, ids: seq<VcId>, successor: Option<VcId>, done: Retirements, now: int,
                 newest: VcId)
    requires LoopOver(cfg, s.store, ids, successor, newest)
    ensures KeptSince(cfg, s.store, RetireAll(cfg, s, ids, successor, done, now).sys.store)
  {
    var good := (t: Sys) => KeptSince(cfg, s.store, t.store);
    forall t, id | good(t) && id in ids ensures good(RetireStep(cfg, t, id, successor, now).sys) {
      StepKeptSince(cfg, s.store, t, id, successor, newest, now);
    }
    LoopKeeps(cfg, s, ids, successor, done, now, good, false);
  }

  /** Without a live child a row of the loop is revoked. */
  lemma {:induction false} ChildlessIsRevoked(cfg: Platform, s: Sys, ids: seq<VcId>, successor: Option<VcId>,
                                              done: Retirements, now: int, newest: VcId, id: VcId)
    requires LoopOver(cfg, s.store, ids, successor, newest) && RetireAll(cfg, s, ids, successor, done, now).result.Ok?
    requires id in ids && !HasLiveChild(s.store, id, now)
    ensures RevokedIn(RetireAll(cfg, s, ids, successor, done, now).sys.store, id)
    decreases ids
  {
    var o := RetireStep(cfg, s, ids[0], successor, now);
    var next := Record(done, ids[0], o.result.value);
    assert ids == [ids[0]] + ids[1..] && ids[0] in ids;
    RetireStepKeeps(cfg, s, ids[0], successor, now);
    if id == ids[0] {
      ChildrenMean(s.store, id, now);
      LoopSame(cfg, o.sys, ids[1..], successor, next, now, newest);
    } else {
      if HasLiveChild(o.sys.store, id, now) {
        FewerChildren(s.store, o.sys.store, id, now);
      }
      ChildlessIsRevoked(cfg, o.sys, ids[1..], successor, next, now, newest, id);
    }
  }

  /** Whatever was revoked since `a` has no live child. */
  ghost predicate RevokedAreChildless(a: Store, b: Store, now: int) {
    forall x :: x in a.vcs && x in b.vcs && a.vcs[x].revokedAt.None? && b.vcs[x].revokedAt.Some? ==>
      !HasLiveChild(b, x, now)
  }

  lemma StepRevokes(cfg: Platform, t: Sys, id: VcId, next: Option<VcId>, now: int, x: VcId)
    requires Inv(cfg, t.store) && id in t.store.vcs && x in t.store.vcs && t.store.vcs[x].revokedAt.None?
    requires next.Some? ==> Before(t.store.order, id, next.value)
    ensures var after := RetireStep(cfg, t, id, next, now).sys.store;
            SameRows(t.store, after) && (after.vcs[x].revokedAt.Some? ==> !HasLiveChild(t.store, x, now))
  {
    RetireStepKeeps(cfg, t, id, next, now);
    ChildrenMean(t.store, id, now);
  }

  lemma StepChildless(cfg: Platform, a: Store, t: Sys, id: VcId, next: Option<VcId>, newest: VcId, now: int)
    requires KeptSince(cfg, a, t.store) && RevokedAreChildless(a, t.store, now)
    requires id in a.vcs && newest in a.vcs && Before(a.order, id, newest) && next in {None, Some(newest)}
    ensures RevokedAreChildless(a, RetireStep(cfg, t, id, next, now).sys.store, now)
  {
    var after := RetireStep(cfg, t, id, next, now).sys.store;
    RetireStepKeeps(cfg, t, id, next, now);
    forall x | x in a.vcs && x in after.vcs && a.vcs[x].revokedAt.None? && after.vcs[x].revokedAt.Some?
      ensures !HasLiveChild(after, x, now)
    {
      if t.store.vcs[x].revokedAt.None? {
        StepRevokes(cfg, t, id, next, now, x);
      }
      if HasLiveChild(after, x, now) {
        FewerChildren(t.store, after, x, now);
      }
    }
  }

  // ---- The rule ------------------------------------------------------------------------------------

  lemma ReconcileChildless(cfg: Platform, s: Sys, vc: Credential, anyScopes: bool, now: int)
    requires Inv(cfg, s.store) && vc.body.id in s.store.vcs
    requires forall id :: id in s.store.vcs && id != vc.body.id ==> Before(s.store.order, id, vc.body.id)
    ensures var o := Reconcile(cfg, s, vc, anyScopes, now);
            KeptSince(cfg, s.store, o.sys.store) && RevokedAreChildless(s.store, o.sys.store, now)
  {
    var good := (t: Sys) => KeptSince(cfg, s.store, t.store) && RevokedAreChildless(s.store, t.store, now);
    forall t, id, next | good(t) && id in Siblings(s.store, vc, now) && next in {None, Some(vc.body.id)}
      ensures good(RetireStep(cfg, t, id, next, now).sys)
    {
      StepKeptSince(cfg, s.store, t, id, next, vc.body.id, now);
      StepChildless(cfg, s.store, t, id, next, vc.body.id, now);
    }
    ReconcileInduction(cfg, s, vc, anyScopes, now, good, false);
  }

  /** A rival without a live child is revoked. */
  lemma ReconcileRevokes(cfg: Platform, s: Sys, vc: Credential, anyScopes: bool, now: int, id: VcId)
    requires Inv(cfg, s.store) && vc.body.id in s.store.vcs
    requires forall x :: x in s.store.vcs && x != vc.body.id ==> Before(s.store.order, x, vc.body.id)
    requires HasIdentity(vc) && Reconcile(cfg, s, vc, anyScopes, now).result.Ok?
    requires Considered(s, vc, anyScopes, now, id) && !HasLiveChild(s.store, id, now)
    ensures RevokedIn(Reconcile(cfg, s, vc, anyScopes, now).sys.store, id)
  {
    var same, others := Same(s, vc, now), Others(s, vc, anyScopes, now);
    ConsideredAre(s, vc, anyScopes, now);
    TwoLoops(cfg, s, vc, anyScopes, now);
    var a := RetireAll(cfg, s, same, Some(vc.body.id), EMPTY, now);
    var done := Retirements([], a.result.value.retained);
    LoopSame(cfg, s, same, Some(vc.body.id), EMPTY, now, vc.body.id);
    if id in same {
      ChildlessIsRevoked(cfg, s, same, Some(vc.body.id), EMPTY, now, vc.body.id, id);
      LoopSame(cfg, a.sys, others, None, done, now, vc.body.id);
    } else {
      if HasLiveChild(a.sys.store, id, now) {
        FewerChildren(s.store, a.sys.store, id, now);
      }
      ChildlessIsRevoked(cfg, a.sys, others, None, done, now, vc.body.id, id);
    }
  }

  /** What becomes of a rival: its scopes being the same it is chained to the new credential;
      with no live child it is revoked and listed as replaced, or as revoked if its scopes
      are others; otherwise it may stay, and is listed as retained. */
  ghost predicate RivalTreated(st: Store, after: Store, r: Reconciled, c: Credential, now: int, id: VcId)
    requires id in st.vcs && id in after.vcs
  {
    var same, gone := SameScopeSet(st.vcs[id].vc, c), after.vcs[id].revokedAt.Some?;
    && SameButMarks(st.vcs[id], after.vcs[id]) && after.vcs[id].revokedAt in {None, Some(now)}
    && after.vcs[id].renewedBy == (if same then Some(c.body.id) else st.vcs[id].renewedBy)
    && (id in r.replaced <==> gone && same) && (id in r.revoked <==> gone && !same) && (id in r.retained <==> !gone)
    && (gone ==> !HasLiveChild(after, id, now)) && (!gone ==> HasLiveChild(st, id, now))
  }

  lemma RivalIsTreated(cfg: Platform, s: Sys, c: Credential, anyScopes: bool, now: int, id: VcId)
    requires Inv(cfg, s.store) && Faithful(s.store) && AllWellScoped(s.store) && WellScoped(c)
    requires c.body.id in s.store.vcs && HasIdentity(c) && Reconcile(cfg, s, c, anyScopes, now).result.Ok?
    requires forall x :: x in s.store.vcs && x != c.body.id ==> Before(s.store.order, x, c.body.id)
    requires Rival(s.store, c, anyScopes, now, id)
    ensures var o := Reconcile(cfg, s, c, anyScopes, now);
            id in o.sys.store.vcs && RivalTreated(s.store, o.sys.store, o.result.value, c, now, id)
  {
    RivalsAre(s, c, anyScopes, now, id);
    ReconciledExactly(cfg, s, c, anyScopes, now);
    ReconcileChildless(cfg, s, c, anyScopes, now);
    if !HasLiveChild(s.store, id, now) {
      ReconcileRevokes(cfg, s, c, anyScopes, now, id);
    }
  }

  lemma OthersUntreated(cfg: Platform, s: Sys, c: Credential, anyScopes: bool, now: int, id: VcId)
    requires WellKept(s.store) && Faithful(s.store) && AllWellScoped(s.store) && WellScoped(c)
    requires Reconcile(cfg, s, c, anyScopes, now).result.Ok?
    requires id in s.store.vcs && !(Identified(c) && Rival(s.store, c, anyScopes, now, id))
    ensures var o := Reconcile(cfg, s, c, anyScopes, now);
            && id in o.sys.store.vcs && o.sys.store.vcs[id] == s.store.vcs[id]
            && id !in o.result.value.replaced && id !in o.result.value.revoked && id !in o.result.value.retained
  {
    IdentifiedMeans(c);
    if HasIdentity(c) {
      RivalsAre(s, c, anyScopes, now, id);
      ReconciledExactly(cfg, s, c, anyScopes, now);
    }
  }

  /** The rows with the new one among them. */
  function Joined(st: Store, row: VcRecord): Store {
    Store(st.vcs[row.vcId := row], st.order + [row.vcId], st.list)
  }

  lemma JoinedKeeps(cfg: Platform, st: Store, row: VcRecord)
    requires Inv(cfg, st) && Faithful(st) && AllWellScoped(st) && NewRow(cfg, st, row)
    requires FaithfulRow(row) && WellScoped(row.vc)
    ensures var joined := Joined(st, row);
            && joined == WithRow(st, row) && Inv(cfg, joined) && Faithful(joined) && AllWellScoped(joined)
            && forall x :: x in joined.vcs && x != row.vcId ==> Before(joined.order, x, row.vcId)
  {
    WithRowKeeps(cfg, st, row);
  }

  /** Storing a credential settles its rivals and leaves every other row as it was. */
  lemma StoringReplaces(cfg: Platform, s: Sys, row: VcRecord, anyScopes: bool, now: int)
    requires Inv(cfg, s.store) && Faithful(s.store) && AllWellScoped(s.store) && NewRow(cfg, s.store, row)
    requires FaithfulRow(row) && WellScoped(row.vc) && Register(cfg, s, row, anyScopes, now).result.Ok?
    ensures var o, st := Register(cfg, s, row, anyScopes, now), s.store;
            var after, r := o.sys.store, o.result.value;
            && after.vcs.Keys == st.vcs.Keys + {row.vcId} && after.vcs[row.vcId] == row
            && forall id :: id in st.vcs ==>
                 if Identified(row.vc) && Rival(st, row.vc, anyScopes, now, id)
                 then RivalTreated(Joined(st, row), after, r, row.vc, now, id)
                 else after.vcs[id] == st.vcs[id] && id !in r.replaced && id !in r.revoked && id !in r.retained
  {
    var joined := s.(store := Joined(s.store, row));
    JoinedKeeps(cfg, s.store, row);
    RegisterKeeps(cfg, s, row, anyScopes, now);
    IdentifiedMeans(row.vc);
    forall id | id in s.store.vcs
      ensures var o := Register(cfg, s, row, anyScopes, now);
              id in o.sys.store.vcs
              && if Identified(row.vc) && Rival(s.store, row.vc, anyScopes, now, id)
                 then RivalTreated(joined.store, o.sys.store, o.result.value, row.vc, now, id)
                 else && o.sys.store.vcs[id] == s.store.vcs[id]
                      && id !in o.result.value.replaced && id !in o.result.value.revoked
                      && id !in o.result.value.retained
    {
      if Identified(row.vc) && Rival(s.store, row.vc, anyScopes, now, id) {
        RivalIsTreated(cfg, joined, row.vc, anyScopes, now, id);
      } else {
        OthersUntreated(cfg, joined, row.vc, anyScopes, now, id);
      }
    }
  }

  /** So the live credentials of its parties and scopes, or with `anyScopes` of its parties,
      are from then on itself and the retained ones, which all have delegations to carry. */
  lemma OneLeftStanding(cfg: Platform, s: Sys, row: VcRecord, anyScopes: bool, now: int)
    requires Inv(cfg, s.store) && Faithful(s.store) && AllWellScoped(s.store) && NewRow(cfg, s.store, row)
    requires FaithfulRow(row) && WellScoped(row.vc) && Register(cfg, s, row, anyScopes, now).result.Ok?
    requires Identified(row.vc) && Live(row, now)
    ensures var o, c := Register(cfg, s, row, anyScopes, now), row.vc;
            var after := o.sys.store;
            && (forall id :: id in after.vcs && Live(after.vcs[id], now) && SameParties(after.vcs[id].vc, c)
                             && (anyScopes || SameScopeSet(after.vcs[id].vc, c)) <==>
                  id == row.vcId || id in o.result.value.retained)
            && (forall id :: id in o.result.value.retained ==> HasLiveChild(Joined(s.store, row), id, now))
  {
    var o, st, c := Register(cfg, s, row, anyScopes, now), s.store, row.vc;
    StoringReplaces(cfg, s, row, anyScopes, now);
    RetainedAreRows(cfg, s, row, anyScopes, now);
    forall id
      ensures id in o.sys.store.vcs && Live(o.sys.store.vcs[id], now) && SameParties(o.sys.store.vcs[id].vc, c)
              && (anyScopes || SameScopeSet(o.sys.store.vcs[id].vc, c)) <==>
              id == row.vcId || id in o.result.value.retained
      ensures id in o.result.value.retained ==> HasLiveChild(Joined(st, row), id, now)
    {
      if id in st.vcs {
        assert Rival(st, c, anyScopes, now, id) ==>
            RivalTreated(Joined(st, row), o.sys.store, o.result.value, c, now, id);
      }
    }
  }

  lemma RetainedAreRows(cfg: Platform, s: Sys, row: VcRecord, anyScopes: bool, now: int)
    requires Inv(cfg, s.store) && Faithful(s.store) && AllWellScoped(s.store) && NewRow(cfg, s.store, row)
    requires FaithfulRow(row) && WellScoped(row.vc) && Register(cfg, s, row, anyScopes, now).result.Ok?
    ensures forall id :: id in Register(cfg, s, row, anyScopes, now).result.value.retained ==> id in s.store.vcs
  {
    var joined := s.(store := Joined(s.store, row));
    JoinedKeeps(cfg, s.store, row);
    if HasIdentity(row.vc) {
      ReconciledExactly(cfg, joined, row.vc, anyScopes, now);
    }
  }

  // ---- registerExternalVC --------------------------------------------------------------------------

  /** Before there is a status list nothing can be revoked: storing then fails on the first
      rival that ought to be. */
  lemma {:induction false} LoopWithoutList(cfg: Platform, s: Sys, ids: seq<VcId>, successor: Option<VcId>,
                                           done: Retirements, now: int, newest: VcId)
    requires LoopOver(cfg, s.store, ids, successor, newest) && s.store.list.None?
    ensures var o := RetireAll(cfg, s, ids, successor, done, now);
            && (o.result.Ok? <==> forall id :: id in ids ==> HasLiveChild(s.store, id, now))
            && (o.result.Err? ==> o.result.error == StatusListMissing)
            && (o.result.Ok? ==> o.sys.store.list.None? && Inv(cfg, o.sys.store) && SameRows(s.store, o.sys.store)
                                 && forall id :: HasLiveChild(o.sys.store, id, now) <==> HasLiveChild(s.store, id, now))
    decreases ids
  {
    if ids != [] {
      var o := RetireStep(cfg, s, ids[0], successor, now);
      assert ids == [ids[0]] + ids[1..] && ids[0] in ids;
      RetireStepKeeps(cfg, s, ids[0], successor, now);
      StepWithoutList(cfg, s, ids[0], successor, now);
      if o.result.Ok? {
        LoopWithoutList(cfg, o.sys, ids[1..], successor, Record(done, ids[0], o.result.value), now, newest);
      }
    }
  }

  lemma StepWithoutList(cfg: Platform, s: Sys, id: VcId, successor: Option<VcId>, now: int)
    requires Inv(cfg, s.store) && id in s.store.vcs && s.store.list.None?
    ensures var o := RetireStep(cfg, s, id, successor, now);
            && o.sys.store.list.None?
            && (o.result.Ok? <==> HasLiveChild(s.store, id, now))
            && (o.result.Err? ==> o.result.error == StatusListMissing)
            && forall x :: HasLiveChild(o.sys.store, x, now) <==> HasLiveChild(s.store, x, now)
  {
    var marked := if successor.Some? then RowRenewed(s.store, id, successor.value) else s.store;
    ChildrenMean(s.store, id, now);
    if successor.Some? {
      ChildrenUnmarked(s.store, id, successor.value, now);
    }
    forall x ensures HasLiveChild(marked, x, now) <==> HasLiveChild(s.store, x, now) {
      MarkKeepsChildren(s.store, marked, x, now);
    }
  }

  lemma MarkKeepsChildren(a: Store, b: Store, id: VcId, now: int)
    requires a.vcs.Keys == b.vcs.Keys
    requires forall x :: x in a.vcs ==> b.vcs[x] == a.vcs[x].(renewedBy := b.vcs[x].renewedBy)
    ensures HasLiveChild(b, id, now) <==> HasLiveChild(a, id, now)
  {
    if child :| child in a.vcs && a.vcs[child].parentVcId == Some(id) && Live(a.vcs[child], now) {
      assert child in b.vcs && b.vcs[child].parentVcId == Some(id) && Live(b.vcs[child], now);
    }
    if child :| child in b.vcs && b.vcs[child].parentVcId == Some(id) && Live(b.vcs[child], now) {
      assert child in a.vcs && a.vcs[child].parentVcId == Some(id) && Live(a.vcs[child], now);
    }
  }

  /** Nothing can be revoked yet and some rival would have to be. */
  ghost predicate Stuck(st: Store, c: Credential, anyScopes: bool, now: int) {
    && st.list.None? && Identified(c)
    && exists id :: Rival(st, c, anyScopes, now, id) && !HasLiveChild(st, id, now)
  }

  lemma ReconcileWithoutList(cfg: Platform, s: Sys, c: Credential, anyScopes: bool, now: int)
    requires Inv(cfg, s.store) && Faithful(s.store) && AllWellScoped(s.store) && WellScoped(c)
    requires s.store.list.None? && c.body.id in s.store.vcs
    requires forall x :: x in s.store.vcs && x != c.body.id ==> Before(s.store.order, x, c.body.id)
    ensures var r := Reconcile(cfg, s, c, anyScopes, now).result;
            && (r.Err? <==> Stuck(s.store, c, anyScopes, now)) && (r.Err? ==> r.error == StatusListMissing)
  {
    IdentifiedMeans(c);
    if HasIdentity(c) {
      var same, others := Same(s, c, now), Others(s, c, anyScopes, now);
      ConsideredAre(s, c, anyScopes, now);
      LoopWithoutList(cfg, s, same, Some(c.body.id), EMPTY, now, c.body.id);
      var a := RetireAll(cfg, s, same, Some(c.body.id), EMPTY, now);
      if a.result.Ok? {
        LoopWithoutList(cfg, a.sys, others, None, Retirements([], a.result.value.retained), now, c.body.id);
      }
      forall id ensures Rival(s.store, c, anyScopes, now, id) <==> id in same || id in others {
        RivalsAre(s, c, anyScopes, now, id);
      }
    }
  }

  lemma ChildlessJoined(st: Store, row: VcRecord, id: VcId, now: int)
    requires row.vcId !in st.vcs && row.parentVcId.None?
    ensures HasLiveChild(Joined(st, row), id, now) <==> HasLiveChild(st, id, now)
  {
    if child :| child in st.vcs && st.vcs[child].parentVcId == Some(id) && Live(st.vcs[child], now) {
      assert Joined(st, row).vcs[child] == st.vcs[child];
    }
  }

  lemma StuckJoined(st: Store, row: VcRecord, anyScopes: bool, now: int)
    requires row.vcId !in st.vcs && row.parentVcId.None? && row.vc.body.id == row.vcId
    ensures Stuck(Joined(st, row), row.vc, anyScopes, now) <==> Stuck(st, row.vc, anyScopes, now)
  {
    forall id
      ensures Rival(Joined(st, row), row.vc, anyScopes, now, id) <==> Rival(st, row.vc, anyScopes, now, id)
      ensures HasLiveChild(Joined(st, row), id, now) <==> HasLiveChild(st, id, now)
    {
      ChildlessJoined(st, row, id, now);
    }
  }

  lemma StoringSticks(cfg: Platform, s: Sys, row: VcRecord, anyScopes: bool, now: int)
    requires Inv(cfg, s.store) && Faithful(s.store) && AllWellScoped(s.store) && NewRow(cfg, s.store, row)
    requires FaithfulRow(row) && WellScoped(row.vc) && row.parentVcId.None?
    ensures var r := Register(cfg, s, row, anyScopes, now).result;
            && (r.Err? <==> Stuck(s.store, row.vc, anyScopes, now)) && (r.Err? ==> r.error == StatusListMissing)
  {
    JoinedKeeps(cfg, s.store, row);
    RegisterKeeps(cfg, s, row, anyScopes, now);
    if s.store.list.None? {
      ReconcileWithoutList(cfg, s.(store := Joined(s.store, row)), row.vc, anyScopes, now);
      StuckJoined(s.store, row, anyScopes, now);
    }
  }

  /** The row of a credential signed elsewhere: no index of its own, no parent. */
  predicate StoredAsExternal(r: VcRecord, c: Credential) {
    && StoredAs(r, c, 0) && r.parentVcId.None? && FaithfulRow(r)
    && r.privilegeScopes == (if c.body.subject.privilegeScopes.Some? then c.body.subject.privilegeScopes
                             else c.body.subject.claims.scopes)
  }

  /** What registering a credential signed elsewhere comes to, the first that applies. One
      already there changes nothing; one that is in order is stored, even where settling its
      rivals then fails for want of a list. */
  lemma ExternalTerms(cfg: Platform, s: Sys, c: Credential, check: ProofCheck, known: bool, anyScopes: bool, now: int)
    requires Inv(cfg, s.store) && Faithful(s.store) && AllWellScoped(s.store) && WellScoped(c)
    requires !OnDefaultList(cfg, c)
    ensures var o, st := RegisterExternalVC(cfg, s, c, check, known, anyScopes, now), s.store;
            var until := c.body.validUntil;
            if c.body.id in st.vcs then o.sys == s && o.result == Ok(AlreadyRegistered)
            else if check.NoProof? then o.sys == s && o.result == Err(ValidationError)
            else if check.IssuerUnresolved? then o.sys == s && o.result == Err(VcIssuerNotFound)
            else if check.Forged? then o.sys == s && o.result == Err(VcSignatureInvalid)
            else if c.body.untilUnreadable then o.sys == s && o.result == Err(ValidationError)
            else if until.Some? && until.value <= now then o.sys == s && o.result == Err(VcExpired)
            else if !known then o.sys == s && o.result == Err(VcSubjectDidNotFound)
            else
              && o.sys.store.vcs.Keys == st.vcs.Keys + {c.body.id}
              && StoredAsExternal(o.sys.store.vcs[c.body.id], c)
              && if Stuck(st, c, anyScopes, now) then o.result == Err(StatusListMissing)
                 else o.result.Ok? && o.result.value.NewlyRegistered?
  {
    if c.body.id !in s.store.vcs {
      StoringSticks(cfg, s, ExternalRow(c), anyScopes, now);
      RegisterKeeps(cfg, s, ExternalRow(c), anyScopes, now);
    }
  }
}
