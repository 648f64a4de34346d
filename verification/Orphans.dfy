/** What orphans a delegation: revoking, by hand, a credential it hangs off, or issuing
    one under a parent that is revoked or missing. Reconciliation never does. */
module Orphans {
  import opened Common
  import opened Credentials
  import opened Delegation
  import opened VcStore
  import opened VcLifecycle
  import opened VcInvariants
  import opened AgentFlows
  import opened ServiceFlows
  import opened Presentations
  import opened Runs
  import opened Rows

  /** An unrevoked and unexpired delegation hangs off an unrevoked credential. */
  ghost predicate NoOrphans(st: Store, now: int) {
    forall id :: id in st.vcs && IsActive(st.vcs[id], now) && st.vcs[id].parentVcId.Some? ==>
      Unrevoked(st, st.vcs[id].parentVcId.value)
  }

  predicate Unrevoked(st: Store, parent: VcId) {
    parent in st.vcs && st.vcs[parent].revokedAt.None?
  }

  /** The clock does not go back. */
  predicate Forward(events: seq<Event>, now: int)
    decreases events
  {
    events != [] ==>
      var before, last := events[..|events| - 1], events[|events| - 1];
      Forward(before, last.at) && last.at <= now
  }

  /** Whatever is revoked by hand has no active delegation when it is, and a parent
      named to issueVC is there and unrevoked. */
  ghost predicate GentleRun(cfg: Platform, dir: Directory, events: seq<Event>, shared: bool)
    decreases events
  {
    events != [] ==>
      var before, last := events[..|events| - 1], events[|events| - 1];
      && GentleRun(cfg, dir, before, shared)
      && Gentle(Run(cfg, dir, Start(shared), before), last.call, last.at)
  }

  predicate Gentle(s: Sys, call: Call, now: int) {
    match call
    case Revoke(vcId) => ActiveChildren(s.store, vcId, now) == []
    case Issue(p, _, _, _) => p.parentVcId.Some? ==> Unrevoked(s.store, p.parentVcId.value)
    case _ => true
  }

  // ---- What registering a row keeps ----------------------------------------

  lemma ChildrenAre(st: Store, id: VcId, now: int)
    requires WellKept(st)
    ensures forall x :: x in ActiveChildren(st, id, now) <==>
              x in st.vcs && st.vcs[x].parentVcId == Some(id) && IsActive(st.vcs[x], now)
  {
  }

  lemma MarkedNoOrphans(st: Store, id: VcId, next: VcId, now: int)
    requires WellKept(st) && NoOrphans(st, now) && id in st.vcs
    ensures WellKept(RowRenewed(st, id, next)) && NoOrphans(RowRenewed(st, id, next), now)
  {
  }

  lemma RevokedNoOrphans(st: Store, after: Store, id: VcId, now: int)
    requires WellKept(st) && NoOrphans(st, now) && id in st.vcs && ActiveChildren(st, id, now) == []
    requires after.order == st.order && after.vcs == st.vcs[id := st.vcs[id].(revokedAt := Some(now))]
    ensures WellKept(after) && NoOrphans(after, now)
  {
  }

  lemma RetireStepNoOrphans(cfg: Platform, s: Sys, id: VcId, next: Option<VcId>, now: int)
    requires WellKept(s.store) && NoOrphans(s.store, now) && id in s.store.vcs
    ensures var st := RetireStep(cfg, s, id, next, now).sys.store;
            NoOrphans(st, now) && WellKept(st) && st.vcs.Keys == s.store.vcs.Keys
  {
    var marked := s;
    if next.Some? {
      marked := s.(store := RowRenewed(s.store, id, next.value));
      MarkedNoOrphans(s.store, id, next.value, now);
    }
    var after := Retire(cfg, marked, id, now).sys.store;
    if after != marked.store {
      RevokedNoOrphans(marked.store, after, id, now);
    }
  }

  lemma ReconcileNoOrphans(cfg: Platform, s: Sys, vc: Credential, revokeExisting: bool, now: int)
    requires WellKept(s.store) && NoOrphans(s.store, now)
    ensures NoOrphans(Reconcile(cfg, s, vc, revokeExisting, now).sys.store, now)
  {
    var good := (t: Sys) => WellKept(t.store) && t.store.vcs.Keys == s.store.vcs.Keys && NoOrphans(t.store, now);
    forall t, id, next | good(t) && id in Siblings(s.store, vc, now) && next in {None, Some(vc.body.id)}
      ensures good(RetireStep(cfg, t, id, next, now).sys)
    {
      RetireStepNoOrphans(cfg, t, id, next, now);
    }
    ReconcileInduction(cfg, s, vc, revokeExisting, now, good, false);
  }

  lemma RegisterNoOrphans(cfg: Platform, s: Sys, row: VcRecord, revokeExisting: bool, now: int)
    requires Inv(cfg, s.store) && NewRow(cfg, s.store, row) && NoOrphans(s.store, now)
    requires row.parentVcId.Some? ==> Unrevoked(s.store, row.parentVcId.value)
    ensures NoOrphans(Register(cfg, s, row, revokeExisting, now).sys.store, now)
  {
    NewRowInOrder(s.store, row);
    ReconcileNoOrphans(cfg, s.(store := WithRow(s.store, row)), row.vc, revokeExisting, now);
  }

  // ---- The calls -----------------------------------------------------------

  lemma SameVcsNoOrphans(a: Store, b: Store, now: int)
    requires NoOrphans(a, now) && b.vcs == a.vcs
    ensures NoOrphans(b, now)
  {
  }

  lemma IssueNoOrphans(cfg: Platform, s: Sys, p: IssueParams, known: bool, matches: bool, now: int, id: VcId)
    requires Inv(cfg, s.store) && NoOrphans(s.store, now) && id !in s.store.vcs
    requires p.parentVcId.Some? ==> Unrevoked(s.store, p.parentVcId.value)
    ensures NoOrphans(IssueVC(cfg, s, p, known, matches, now, id).sys.store, now)
  {
    IssueIsClaim(cfg, s, p, known, matches, now, id);
    if IssueVC(cfg, s, p, known, matches, now, id).sys.store.vcs != s.store.vcs {
      var entry, row := ClaimStatusListEntry(cfg, s, now), IssuedHere(cfg, s, p, now, id);
      ClaimedRoom(cfg, s, now);
      ClaimedRowIsNew(cfg, entry.sys.store, row, entry.result.value);
      RegisterNoOrphans(cfg, entry.sys, row, p.revokeExisting, now);
    }
  }

  lemma RenewNoOrphans(cfg: Platform, s: Sys, oldId: VcId, o: RenewOptions, known: bool, matches: bool, now: int,
                       id: VcId)
    requires Inv(cfg, s.store) && NoOrphans(s.store, now) && id !in s.store.vcs
    ensures NoOrphans(RenewVC(cfg, s, oldId, o, known, matches, now, id).sys.store, now)
  {
    if oldId in s.store.vcs && s.store.vcs[oldId].revokedAt.None? {
      var p := RenewParams(s.store.vcs[oldId], o);
      var issued := IssueVC(cfg, s, p, known, matches, now, id);
      IssueNoOrphans(cfg, s, p, known, matches, now, id);
      IssueKeeps(cfg, s, p, known, matches, now, id);
      if oldId in issued.sys.store.vcs {
        MarkedNoOrphans(issued.sys.store, oldId, id, now);
      }
    }
  }

  /** What is delegated from is stored, active and about the delegator. */
  lemma SourceIsStored(st: Store, input: DelegateInput, now: int, from: Credential)
    requires WellKept(st) && DelegationSource(st, input, now) == Ok(Some(from))
    ensures exists id :: StoredActive(st, id, from, now) && st.vcs[id].subjectDid == input.did && IsAgentType(from)
  {
    if Truthy(input.vcId) {
      assert StoredActive(st, input.vcId.value, from, now);
    } else {
      var candidates := ActiveAgentVCs(st, input.did, now);
      var eligible := Filter(vc => Eligible(vc, input.scopes), candidates);
      assert eligible[0] in eligible;
      AgentVCsAre(st, input.did, now, from);
    }
  }

  lemma DelegateFromNoOrphans(cfg: Platform, dir: Directory, s: Sys, input: DelegateInput, from: Credential, now: int,
                              id: VcId)
    requires Inv(cfg, s.store) && NoOrphans(s.store, now) && id !in s.store.vcs && input.did in dir.keys
    requires Unrevoked(s.store, from.body.id)
    ensures NoOrphans(DelegateFrom(cfg, dir, s, input, from, now, id).sys.store, now)
  {
    var entry := ClaimStatusListEntry(cfg, s, now);
    ClaimedRoom(cfg, s, now);
    DelegateFromIs(cfg, dir, s, input, from, now, id);
    if DelegateFrom(cfg, dir, s, input, from, now, id).sys != entry.sys {
      var status := Some(EntryOnDefaultList(cfg, entry.result.value));
      var o := DelegateOptions(input.to, input.scopes, input.expiresIn, from, status);
      var vc := Built(cfg, dir, s, input, from, now, id).value;
      BuiltEntry(o, WalletOf(dir, input.did), now, id);
      ClaimedRowIsNew(cfg, entry.sys.store, SignedRow(cfg, vc), entry.result.value);
      RegisterNoOrphans(cfg, entry.sys, SignedRow(cfg, vc), input.revokeExisting, now);
    }
  }

  lemma DelegateNoOrphans(cfg: Platform, dir: Directory, s: Sys, input: DelegateInput, now: int, id: VcId)
    requires Inv(cfg, s.store) && NoOrphans(s.store, now) && id !in s.store.vcs
    ensures NoOrphans(DelegateOutcome(cfg, dir, s, input, now, id).sys.store, now)
  {
    if DelegateOutcome(cfg, dir, s, input, now, id).sys != s {
      var from := DelegationSource(s.store, input, now).value.value;
      SourceIsStored(s.store, input, now, from);
      DelegateFromNoOrphans(cfg, dir, s, input, from, now, id);
    }
  }

  lemma ConsentNoOrphans(cfg: Platform, dir: Directory, s: Sys, input: GrantInput, known: bool, now: int, id: VcId)
    requires Inv(cfg, s.store) && NoOrphans(s.store, now) && id !in s.store.vcs
    ensures NoOrphans(ConsentOutcome(cfg, dir, s, input, known, now, id).sys.store, now)
  {
    if ConsentOutcome(cfg, dir, s, input, known, now, id).sys != s {
      var scopes := GrantScopes(dir, s.store, input, now).value;
      var entry := ClaimStatusListEntry(cfg, s, now);
      ClaimedRoom(cfg, s, now);
      if entry.result.Ok? && known {
        var vc := GrantCredential(cfg, input, scopes, WalletOf(dir, input.serviceDid), entry.result.value, now, id);
        ClaimedRowIsNew(cfg, entry.sys.store, GrantRow(vc), entry.result.value);
        RegisterNoOrphans(cfg, entry.sys, GrantRow(vc), input.revokeExisting, now);
      }
    }
  }

  lemma ExternalNoOrphans(cfg: Platform, s: Sys, vc: Credential, check: ProofCheck, known: bool, re: bool, now: int)
    requires Inv(cfg, s.store) && NoOrphans(s.store, now) && !OnDefaultList(cfg, vc)
    ensures NoOrphans(RegisterExternalVC(cfg, s, vc, check, known, re, now).sys.store, now)
  {
    var o := RegisterExternalVC(cfg, s, vc, check, known, re, now);
    if o.sys != s {
      assert o.sys == Register(cfg, s, ExternalRow(vc), re, now).sys;
      RegisterNoOrphans(cfg, s, ExternalRow(vc), re, now);
    }
  }

  lemma RevokeNoOrphans(cfg: Platform, s: Sys, id: VcId, now: int)
    requires Inv(cfg, s.store) && NoOrphans(s.store, now) && ActiveChildren(s.store, id, now) == []
    ensures NoOrphans(RevokeVC(cfg, s, id, now).sys.store, now)
  {
    var o := RevokeVC(cfg, s, id, now);
    if o.sys != s {
      assert o == RevokeRow(cfg, s, id, now);
      RevokeRowKeeps(cfg, s, id, now);
      RevokedNoOrphans(s.store, o.sys.store, id, now);
    }
  }

  lemma ApplyNoOrphans(cfg: Platform, dir: Directory, s: Sys, call: Call, now: int)
    requires Inv(cfg, s.store) && NoOrphans(s.store, now) && Allowed(cfg, s, call) && Gentle(s, call, now)
    ensures NoOrphans(Apply(cfg, dir, s, call, now).store, now)
  {
    match call
    case Issue(p, known, matches, id) => IssueNoOrphans(cfg, s, p, known, matches, now, id);
    case Delegate(input, id) => DelegateNoOrphans(cfg, dir, s, input, now, id);
    case Consent(grant, known, id) => ConsentNoOrphans(cfg, dir, s, grant, known, now, id);
    case External(vc, check, known, re) => ExternalNoOrphans(cfg, s, vc, check, known, re, now);
    case Renew(vcId, o, known, matches, id) => RenewNoOrphans(cfg, s, vcId, o, known, matches, now, id);
    case Revoke(vcId) => RevokeNoOrphans(cfg, s, vcId, now);
    case Claim =>
      ClaimedRoom(cfg, s, now);
      SameVcsNoOrphans(s.store, ClaimStatusListEntry(cfg, s, now).sys.store, now);
    case ReadList =>
  }

  /** With a forward clock, no gentle run orphans a delegation. */
  lemma {:induction false} NoOrphansReachable(cfg: Platform, dir: Directory, events: seq<Event>, shared: bool, now: int)
    requires Legal(cfg, dir, Start(shared), events) && Forward(events, now) && GentleRun(cfg, dir, events, shared)
    ensures NoOrphans(Run(cfg, dir, Start(shared), events).store, now)
    decreases events
  {
    if events != [] {
      var before, last := events[..|events| - 1], events[|events| - 1];
      NoOrphansReachable(cfg, dir, before, shared, last.at);
      ReachableInv(cfg, dir, before, shared);
      ApplyNoOrphans(cfg, dir, Run(cfg, dir, Start(shared), before), last.call, last.at);
    }
  }

  /** Reconciliation never orphans a delegation: in a gentle run no revoked record has
      an unrevoked and unexpired child. */
  lemma NeverOrphaned(cfg: Platform, dir: Directory, events: seq<Event>, shared: bool, now: int, parent: VcId,
                      child: VcId)
    requires Legal(cfg, dir, Start(shared), events) && Forward(events, now) && GentleRun(cfg, dir, events, shared)
    requires var st := Run(cfg, dir, Start(shared), events).store;
             && parent in st.vcs && st.vcs[parent].revokedAt.Some?
             && child in st.vcs && st.vcs[child].parentVcId == Some(parent)
    ensures !IsActive(Run(cfg, dir, Start(shared), events).store.vcs[child], now)
  {
    NoOrphansReachable(cfg, dir, events, shared, now);
  }

  /** Revoking by hand orphans nothing exactly when nothing else that is active hangs
      off the credential. */
  lemma RevokeOrphansIff(cfg: Platform, s: Sys, id: VcId, now: int)
    requires WellKept(s.store) && NoOrphans(s.store, now) && RevokeVC(cfg, s, id, now).result.Ok?
    ensures NoOrphans(RevokeVC(cfg, s, id, now).sys.store, now) <==>
            forall child :: child in ActiveChildren(s.store, id, now) ==> child == id
  {
    var after := RevokeVC(cfg, s, id, now).sys.store;
    ChildrenAre(s.store, id, now);
    assert after.vcs == s.store.vcs[id := s.store.vcs[id].(revokedAt := Some(now))];
    if child :| child in ActiveChildren(s.store, id, now) && child != id {
      assert after.vcs[child] == s.store.vcs[child];
    }
  }
}
