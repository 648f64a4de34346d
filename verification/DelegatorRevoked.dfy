/** A delegator's credential is revoked by hand while what it delegated is active: what
    rests on it is refused, but a delegation renewed before no longer rests on it. */
module DelegatorRevoked {
  import opened Common
  import opened Credentials
  import opened Delegation
  import opened Verifier
  import opened VcStore
  import opened VcLifecycle
  import opened VcInvariants
  import opened AgentFlows
  import opened Presentations
  import opened Acceptance
  import opened Runs
  import opened Rows
  import opened Orphans
  import opened EndToEnd
  import opened Failures
  import Scopes
  import StatusList

  // ---- In any run --------------------------------------------------------------------

  /** The agent's active credentials all walk over `c`. */
  ghost predicate AllRestOn(st: Store, did: Did, now: int, c: Credential) {
    forall e :: e in ActiveAgentVCs(st, did, now) ==> c in WalkOf(e)
  }

  lemma NothingStandsOn(e: Credential, c: Credential, judge: Judge)
    requires c in WalkOf(e) && judge(c).Some?
    ensures !ChainStands(e, judge)
  {
  }

  lemma ChosenAreActive(st: Store, did: Did, target: string, user: Option<string>, now: int)
    requires Chosen(st, did, target, user, now).Ok?
    ensures forall e :: e in Chosen(st, did, target, user, now).value.agentCredentials ==>
              e in ActiveAgentVCs(st, did, now)
  {
  }

  lemma RevokedIsJudged(cfg: Platform, st: Store, seen: World, opts: VerifyOptions, c: Credential)
    requires StoredAs(st, c) && OnDefaultList(cfg, c) && !Unrevoked(st, c.body.id)
    ensures StoreJudge(cfg, st, seen, opts)(c).Some?
  {
    assert !StillGood(cfg, st, seen, c);
    assert RowFault(cfg, st, seen, opts, c).Some?;
  }

  /** Over all runs: whatever is signed where all the agent's credentials rest on one that
      is revoked here, no verifier that sees the list accepts, with or without a user. */
  lemma RestingOnRevokedIsRefused(cfg: Platform, dir: Directory, w: World, events: seq<Event>, shared: bool, did: Did,
                                  target: string, user: Option<string>, now: int, id: string, opts: VerifyOptions,
                                  seen: World, c: Credential)
    requires HonestRun(cfg, dir, w, events, shared) && KeysGenuine(cfg, dir, w)
    requires SignVp(dir, Run(cfg, dir, Start(shared), events).store, did, target, user, now, id).Ok?
    requires SeesStore(cfg, w, seen, Run(cfg, dir, Start(shared), events).store)
    requires GenuineHolder(WalletOf(dir, did), seen) && seen.now < now + VP_LIFETIME
    requires Truthy(opts.expectedTargetService) ==> opts.expectedTargetService == Some(target)
    requires var st := Run(cfg, dir, Start(shared), events).store;
             StoredAs(st, c) && OnDefaultList(cfg, c) && !Unrevoked(st, c.body.id) && AllRestOn(st, did, now, c)
    ensures var st := Run(cfg, dir, Start(shared), events).store;
            VpResult(SignVp(dir, st, did, target, user, now, id).value, opts, seen).Err?
  {
    var st := Run(cfg, dir, Start(shared), events).store;
    var judge := StoreJudge(cfg, st, seen, opts);
    assert events + [] == events;
    PresentationsAcceptedIff(cfg, dir, w, events, [], shared, did, target, user, now, id, opts, seen);
    ChosenAreActive(st, did, target, user, now);
    RevokedIsJudged(cfg, st, seen, opts, c);
    forall e | e in Chosen(st, did, target, user, now).value.agentCredentials ensures !ChainStands(e, judge) {
      NothingStandsOn(e, c, judge);
    }
  }

  /** Over all runs: one credential of the agent that stands alone is enough, the others
      being in order or dropped, and all its scopes may then be used. */
  lemma StandingAloneIsAccepted(cfg: Platform, dir: Directory, w: World, events: seq<Event>, shared: bool, did: Did,
                                target: string, now: int, id: string, opts: VerifyOptions, seen: World,
                                vc: Credential)
    requires HonestRun(cfg, dir, w, events, shared) && KeysGenuine(cfg, dir, w)
    requires SignVp(dir, Run(cfg, dir, Start(shared), events).store, did, target, None, now, id).Ok?
    requires SeesStore(cfg, w, seen, Run(cfg, dir, Start(shared), events).store)
    requires GenuineHolder(WalletOf(dir, did), seen) && seen.now < now + VP_LIFETIME
    requires Truthy(opts.expectedTargetService) ==> opts.expectedTargetService == Some(target)
    requires var st := Run(cfg, dir, Start(shared), events).store;
             var judge := StoreJudge(cfg, st, seen, opts);
             && vc in ActiveAgentVCs(st, did, now) && ChainStands(vc, judge)
             && forall e :: e in ActiveAgentVCs(st, did, now) ==> FitsEntry(e, target) && !ChainSinks(e, judge)
    ensures var st := Run(cfg, dir, Start(shared), events).store;
            var r := VpResult(SignVp(dir, st, did, target, None, now, id).value, opts, seen);
            r.Ok? && forall s :: s in ScopesOf(vc) ==> s in r.value.effectiveScopes
  {
    var st := Run(cfg, dir, Start(shared), events).store;
    var judge := StoreJudge(cfg, st, seen, opts);
    var c := Inherited(ActiveAgentVCs(st, did, now), []);
    UpheldReachable(cfg, dir, w, events, shared);
    UpheldIsFaithful(cfg, w, st);
    assert events + [] == events && c.grants == [];
    PresentationsAcceptedIff(cfg, dir, w, events, [], shared, did, target, None, now, id, opts, seen);
    assert ChosenPass(c, did, target, judge);
    StoreJudgesAll(cfg, w, seen, st, opts);
    SameChain(vc, judge, JudgedBy(opts, seen));
    SignedVpWorth(dir, st, did, target, None, now, id, opts, seen);
  }

  // ---- What the calls of a story leave ---------------------------------------------------

  predicate Onboards(p: IssueParams) {
    && IssueFault(p, true).None? && p.subjectType.AgentSubject?
    && !Truthy(p.delegatedFrom) && p.parentVcId.None? && p.delegationDepth.None?
  }

  /** A root credential issued by the platform, as its row has it. */
  predicate RootRow(cfg: Platform, p: IssueParams, at: int, id: VcId, r: VcRecord) {
    var vc := r.vc;
    && r.vcId == id && vc.body.id == id && r.subjectDid == vc.body.subject.id == p.subjectDid
    && IsAgentType(vc) && OneKind(vc) && !Delegated(vc) && vc.body.chain == []
    && vc.body.issuer == cfg.issuer.did && vc.proof.Some? && vc.body.targetService.None?
    && vc.body.subject.privilegeScopes == p.privilegeScopes && p.privilegeScopes.Some?
    && DepthOf(vc) == 0 && MaxDepthOf(vc) == p.maxDelegationDepth.GetOr(0)
    && vc.body.validFrom == Some(at) && vc.body.validUntil == ExpiresAt(p.expiry, at) == r.expiresAt
    && OnDefaultList(cfg, vc) && r.parentVcId.None? && r.revokedAt.None?
    && r.columns.issuerDid == Some(cfg.issuer.did)
  }

  lemma IssuedIsRoot(cfg: Platform, p: IssueParams, index: nat, at: int, id: VcId)
    requires Onboards(p)
    ensures RootRow(cfg, p, at, id, IssuedRow(p, IssuedCredential(cfg, p, index, at, id), index))
    ensures IdentityFor(IssuedCredential(cfg, p, index, at, id)).subjectDid == p.subjectDid
    ensures IdentityFor(IssuedCredential(cfg, p, index, at, id)).issuerDid == Some(cfg.issuer.did)
  {
  }

  /** A store with a list that has given out `n` indexes. */
  predicate Claims(st: Store, n: nat) {
    st.list.Some? && st.list.value.nextIndex == n < StatusList.DEFAULT_BITS
  }

  /** No active row is the issuer's about that subject. */
  predicate NobodyYet(cfg: Platform, st: Store, did: Did, at: int) {
    forall x :: x in st.vcs ==>
      st.vcs[x].subjectDid != did || st.vcs[x].columns.issuerDid != Some(cfg.issuer.did) || !IsActive(st.vcs[x], at)
  }

  lemma NobodyIsSibling(cfg: Platform, st: Store, p: IssueParams, index: nat, at: int, id: VcId)
    requires Onboards(p) && NobodyYet(cfg, st, p.subjectDid, at)
    ensures NoSibling(st, IssuedCredential(cfg, p, index, at, id), at)
  {
    IssuedIsRoot(cfg, p, index, at, id);
  }

  lemma Onboarded(cfg: Platform, s: Sys, p: IssueParams, at: int, id: VcId, n: nat) returns (r: VcRecord)
    requires Onboards(p) && Claims(s.store, n) && id !in s.store.vcs && NobodyYet(cfg, s.store, p.subjectDid, at)
    ensures RootRow(cfg, p, at, id, r)
    ensures var st := IssueVC(cfg, s, p, true, true, at, id).sys.store;
            && st.vcs == s.store.vcs[id := r] && st.order == s.store.order + [id]
            && st.list.Some? && st.list.value.nextIndex == n + 1
  {
    r := IssuedRow(p, IssuedCredential(cfg, p, n, at, id), n);
    IssuedIsRoot(cfg, p, n, at, id);
    NobodyIsSibling(cfg, s.store, p, n, at, id);
    IssueAlone(cfg, s, s, p, at, id, n);
    RowAdded(s.store, r);
  }

  lemma RowAdded(st: Store, r: VcRecord)
    requires st.list.Some? && r.vcId !in st.vcs
    ensures var after := WithRow(Claimed(st), r);
            && after.vcs == st.vcs[r.vcId := r] && after.order == st.order + [r.vcId]
            && after.list.Some? && after.list.value.nextIndex == st.list.value.nextIndex + 1
  {
  }

  lemma FirstOnboarded(cfg: Platform, dir: Directory, p: IssueParams, at: int, id: VcId) returns (r: VcRecord)
    requires Onboards(p)
    ensures RootRow(cfg, p, at, id, r)
    ensures var st := Run(cfg, dir, Start(false), [Event(Issue(p, true, true, id), at)]).store;
            st.vcs == map[id := r] && st.order == [id] && st.list.Some? && st.list.value.nextIndex == 1
  {
    r := IssuedRow(p, IssuedCredential(cfg, p, 0, at, id), 0);
    IssuedIsRoot(cfg, p, 0, at, id);
    FirstIssued(cfg, dir, p, at, id);
  }

  /** A delegation built here, as its row has it. */
  predicate DelegationRow(input: DelegateInput, from: Credential, now: int, id: VcId, r: VcRecord) {
    var vc := r.vc;
    && r.vcId == id && vc.body.id == id && r.subjectDid == vc.body.subject.id == input.to
    && IsAgentType(vc) && OneKind(vc) && vc.body.subject.delegatedFrom == Some(input.did)
    && vc.body.chain == ChainOf(from) && vc.body.issuer == input.did && vc.proof.Some? && vc.body.targetService.None?
    && vc.body.subject.privilegeScopes == Some(input.scopes) == r.privilegeScopes
    && vc.body.subject.agentName == Some(input.to) && r.subjectType.AgentSubject?
    && vc.body.validUntil == Some(now + input.expiresIn * 1000) == r.expiresAt
    && r.parentVcId == Some(from.body.id) && r.revokedAt.None? && r.columns.issuerDid == Some(input.did)
  }

  lemma BuiltIsDelegation(cfg: Platform, wallet: Wallet, input: DelegateInput, from: Credential, index: nat, now: int,
                          id: VcId)
    requires wallet.did == input.did != input.to && from.body.subject.privilegeScopes.Some?
    requires (forall x :: x in input.scopes ==> x in ScopesOf(from)) && DepthOf(from) + 1 <= MaxDepthOf(from)
    ensures var status := Some(EntryOnDefaultList(cfg, index));
            var o := DelegateOptions(input.to, input.scopes, input.expiresIn, from, status);
            var built := BuildDelegationVC(o, wallet, now, id);
            && built.Ok? && DelegationRow(input, from, now, id, SignedRow(cfg, built.value))
            && IdentityFor(built.value).issuerDid == Some(input.did)
  {
  }

  lemma Delegating(cfg: Platform, dir: Directory, s: Sys, input: DelegateInput, from: Credential, now: int, id: VcId,
                   n: nat)
    returns (r: VcRecord)
    requires Claims(s.store, n) && id !in s.store.vcs && input.did in dir.keys && input.did != input.to
    requires DelegationSource(s.store, input, now) == Ok(Some(from)) && DelegateeActive(dir, s.store, input.to, now)
    requires from.body.subject.privilegeScopes.Some? && DepthOf(from) + 1 <= MaxDepthOf(from)
    requires forall x :: x in input.scopes ==> x in ScopesOf(from)
    requires forall x :: x in s.store.vcs ==> s.store.vcs[x].columns.issuerDid != Some(input.did)
    ensures DelegationRow(input, from, now, id, r)
    ensures var st := DelegateOutcome(cfg, dir, s, input, now, id).sys.store;
            && st.vcs == s.store.vcs[id := r] && st.order == s.store.order + [id]
            && st.list.Some? && st.list.value.nextIndex == n + 1
  {
    var status := Some(EntryOnDefaultList(cfg, n));
    var o := DelegateOptions(input.to, input.scopes, input.expiresIn, from, status);
    BuiltIsDelegation(cfg, WalletOf(dir, input.did), input, from, n, now, id);
    var vc := BuildDelegationVC(o, WalletOf(dir, input.did), now, id).value;
    r := SignedRow(cfg, vc);
    assert NoSibling(s.store, vc, now);
    DelegateAlone(cfg, dir, s, input, vc, o, now, id, n);
    RowAdded(s.store, r);
  }

  lemma DelegateAlone(cfg: Platform, dir: Directory, s: Sys, input: DelegateInput, vc: Credential, o: DelegateOptions,
                      now: int, id: VcId, n: nat)
    requires Claims(s.store, n) && vc.body.id !in s.store.vcs && NoSibling(s.store, vc, now)
    requires input.did in dir.keys && DelegateeActive(dir, s.store, input.to, now)
    requires DelegationSource(s.store, input, now) == Ok(Some(o.from))
    requires o == DelegateOptions(input.to, input.scopes, input.expiresIn, o.from, Some(EntryOnDefaultList(cfg, n)))
    requires BuildDelegationVC(o, WalletOf(dir, input.did), now, id) == Ok(vc)
    ensures DelegateOutcome(cfg, dir, s, input, now, id).sys
            == s.(store := WithRow(Claimed(s.store), SignedRow(cfg, vc)))
  {
    var claimed := s.(store := Claimed(s.store));
    assert ClaimStatusListEntry(cfg, s, now) == VcLifecycle.Outcome(claimed, Ok(n));
    RegisterAlone(cfg, claimed, SignedRow(cfg, vc), input.revokeExisting, now);
  }

  const AS_BEFORE := RenewOptions(None, None)

  lemma RenewedOnboards(r: VcRecord)
    requires r.subjectType.AgentSubject? && r.privilegeScopes.Some? && Truthy(r.vc.body.subject.agentName)
    requires Scopes.ScopeProblemOf(r.privilegeScopes.value).None?
    ensures Onboards(RenewParams(r, AS_BEFORE))
  {
  }

  /** Renewing a delegation issues a root to its holder beside it. */
  lemma Renewing(cfg: Platform, s: Sys, vcId: VcId, now: int, id: VcId, n: nat) returns (r: VcRecord)
    requires vcId in s.store.vcs && s.store.vcs[vcId].revokedAt.None? && id !in s.store.vcs && Claims(s.store, n)
    requires var p := RenewParams(s.store.vcs[vcId], AS_BEFORE);
             Onboards(p) && NobodyYet(cfg, s.store, p.subjectDid, now)
    ensures RootRow(cfg, RenewParams(s.store.vcs[vcId], AS_BEFORE), now, id, r)
    ensures var st := RenewVC(cfg, s, vcId, AS_BEFORE, true, true, now, id).sys.store;
            && st.vcs == s.store.vcs[id := r][vcId := s.store.vcs[vcId].(renewedBy := Some(id))]
            && st.list.Some?
  {
    var p := RenewParams(s.store.vcs[vcId], AS_BEFORE);
    r := Onboarded(cfg, s, p, now, id, n);
    IssuedOk(cfg, s, p, now, id, n);
    MarkedRow(IssueVC(cfg, s, p, true, true, now, id).sys.store, vcId, id);
  }

  lemma IssuedOk(cfg: Platform, s: Sys, p: IssueParams, at: int, id: VcId, n: nat)
    requires Onboards(p) && Claims(s.store, n) && id !in s.store.vcs && NobodyYet(cfg, s.store, p.subjectDid, at)
    ensures IssueVC(cfg, s, p, true, true, at, id).result.Ok?
  {
    NobodyIsSibling(cfg, s.store, p, n, at, id);
    IssueIs(cfg, s, p, at, id);
    RegisterAlone(cfg, s.(store := Claimed(s.store)), IssuedRow(p, IssuedCredential(cfg, p, n, at, id), n),
                  p.revokeExisting, at);
  }

  lemma MarkedRow(st: Store, id: VcId, next: VcId)
    requires id in st.vcs
    ensures RowRenewed(st, id, next).vcs == st.vcs[id := st.vcs[id].(renewedBy := Some(next))]
    ensures RowRenewed(st, id, next).list == st.list
  {
  }

  // ---- A story told twice ------------------------------------------------------------------

  const ALICE_PARAMS := IssueParams(ALICE, AgentSubject, Some(["read"]), Some("A"), None, Never, None, None, Some(1),
                                    None, false)
  const BOB_PARAMS := IssueParams(BOB, AgentSubject, Some([]), Some("B"), None, At(10), None, None, None, None, false)
  const HANDED := DelegateInput(ALICE, BOB, ["read"], 100, Some("a"), false)

  const ALICE_COMES := Event(Issue(ALICE_PARAMS, true, true, "a"), 0)
  const BOB_COMES := Event(Issue(BOB_PARAMS, true, true, "b"), 0)
  const HANDING := Event(Delegate(HANDED, "c"), 1)
  const RENEWAL := Event(Renew("c", AS_BEFORE, true, true, "d"), 15)
  const REVOCATION := Event(Revoke("a"), 20)

  /** Alice and Bob are onboarded, and she delegates to him before his own runs out. */
  const OPENING := [ALICE_COMES] + [BOB_COMES] + [HANDING]
  /** Then her credential is revoked by hand. */
  const ORPHANING := OPENING + [REVOCATION]
  /** Or only once he had his delegation renewed. */
  const RENEWING := OPENING + [RENEWAL]
  const OUTLIVING := RENEWING + [REVOCATION]

  function After(events: seq<Event>): Sys {
    Run(CFG, DIR, Start(false), events)
  }

  lemma OneMore(before: seq<Event>, e: Event)
    ensures After(before + [e]) == Apply(CFG, DIR, After(before), e.call, e.at)
  {
    assert (before + [e])[..|before|] == before;
  }

  lemma HonestMore(w: World, before: seq<Event>, e: Event)
    requires HonestRun(CFG, DIR, w, before, false) && Allowed(CFG, After(before), e.call) && !e.call.External?
    ensures HonestRun(CFG, DIR, w, before + [e], false)
  {
    assert (before + [e])[..|before|] == before;
  }

  lemma ForwardMore(before: seq<Event>, e: Event, now: int)
    requires Forward(before, e.at) && e.at <= now
    ensures Forward(before + [e], now)
  {
    assert (before + [e])[..|before|] == before;
  }

  lemma TheyOnboard()
    ensures Onboards(ALICE_PARAMS) && Onboards(BOB_PARAMS)
  {
    assert Scopes.ScopeProblemOf(["read"]).None? && Scopes.ScopeProblemOf([]).None?;
  }

  predicate AlicesRow(a: VcRecord) {
    RootRow(CFG, ALICE_PARAMS, 0, "a", a)
  }

  predicate BobsRow(b: VcRecord) {
    RootRow(CFG, BOB_PARAMS, 0, "b", b)
  }

  predicate HandedRow(a: VcRecord, c: VcRecord) {
    DelegationRow(HANDED, a.vc, 1, "c", c)
  }

  lemma BobOnboarded(s: Sys, a: VcRecord) returns (b: VcRecord)
    requires s.store.vcs == map["a" := a] && s.store.order == ["a"] && Claims(s.store, 1) && AlicesRow(a)
    ensures BobsRow(b)
    ensures var st := Apply(CFG, DIR, s, BOB_COMES.call, 0).store;
            st.vcs == map["a" := a, "b" := b] && st.order == ["a", "b"] && Claims(st, 2)
  {
    TheyOnboard();
    b := Onboarded(CFG, s, BOB_PARAMS, 0, "b", 1);
  }

  lemma BobActive(st: Store, a: VcRecord, b: VcRecord)
    requires st.vcs == map["a" := a, "b" := b] && st.order == ["a", "b"] && AlicesRow(a) && BobsRow(b)
    ensures DelegateeActive(DIR, st, BOB, 1)
    ensures DelegationSource(st, HANDED, 1) == Ok(Some(a.vc))
  {
    assert "b" in ActiveBySubject(st, BOB, AGENT_TYPE, 1);
  }

  lemma AliceHands(s: Sys, a: VcRecord, b: VcRecord) returns (c: VcRecord)
    requires s.store.vcs == map["a" := a, "b" := b] && s.store.order == ["a", "b"] && Claims(s.store, 2)
    requires AlicesRow(a) && BobsRow(b)
    ensures HandedRow(a, c)
    ensures var st := Apply(CFG, DIR, s, HANDING.call, 1).store;
            st.vcs == map["a" := a, "b" := b, "c" := c] && st.order == ["a", "b", "c"] && Claims(st, 3)
  {
    BobActive(s.store, a, b);
    c := Delegating(CFG, DIR, s, HANDED, a.vc, 1, "c", 2);
  }

  /** The opening after `before`, whatever that was. */
  lemma BobComes(before: seq<Event>, w: World, a: VcRecord) returns (b: VcRecord)
    requires HonestRun(CFG, DIR, w, before, false) && AlicesRow(a)
    requires var st := After(before).store; st.vcs == map["a" := a] && st.order == ["a"] && Claims(st, 1)
    ensures BobsRow(b) && HonestRun(CFG, DIR, w, before + [BOB_COMES], false)
    ensures var st := After(before + [BOB_COMES]).store;
            st.vcs == map["a" := a, "b" := b] && st.order == ["a", "b"] && Claims(st, 2)
  {
    OneMore(before, BOB_COMES);
    HonestMore(w, before, BOB_COMES);
    b := BobOnboarded(After(before), a);
  }

  lemma HandedOver(before: seq<Event>, w: World, a: VcRecord, b: VcRecord) returns (c: VcRecord)
    requires HonestRun(CFG, DIR, w, before, false) && AlicesRow(a) && BobsRow(b)
    requires var st := After(before).store;
             st.vcs == map["a" := a, "b" := b] && st.order == ["a", "b"] && Claims(st, 2)
    ensures HandedRow(a, c) && HonestRun(CFG, DIR, w, before + [HANDING], false)
    ensures var st := After(before + [HANDING]).store;
            st.vcs == map["a" := a, "b" := b, "c" := c] && Claims(st, 3)
  {
    OneMore(before, HANDING);
    HonestMore(w, before, HANDING);
    c := AliceHands(After(before), a, b);
  }

  lemma AliceComes(w: World) returns (a: VcRecord)
    ensures AlicesRow(a) && HonestRun(CFG, DIR, w, [ALICE_COMES], false)
    ensures var st := After([ALICE_COMES]).store; st.vcs == map["a" := a] && st.order == ["a"] && Claims(st, 1)
  {
    TheyOnboard();
    a := FirstOnboarded(CFG, DIR, ALICE_PARAMS, 0, "a");
    assert [] + [ALICE_COMES] == [ALICE_COMES];
    HonestMore(w, [], ALICE_COMES);
  }

  lemma Opened(w: World) returns (a: VcRecord, b: VcRecord, c: VcRecord)
    ensures AlicesRow(a) && BobsRow(b) && HandedRow(a, c) && HonestRun(CFG, DIR, w, OPENING, false)
    ensures After(OPENING).store.vcs == map["a" := a, "b" := b, "c" := c] && Claims(After(OPENING).store, 3)
  {
    a := AliceComes(w);
    b := BobComes([ALICE_COMES], w, a);
    c := HandedOver([ALICE_COMES] + [BOB_COMES], w, a, b);
  }

  lemma OpeningForward(now: int)
    requires 1 <= now
    ensures Forward(OPENING, now)
  {
    assert [] + [ALICE_COMES] == [ALICE_COMES];
    ForwardMore([], ALICE_COMES, 0);
    ForwardMore([ALICE_COMES], BOB_COMES, 1);
    ForwardMore([ALICE_COMES] + [BOB_COMES], HANDING, now);
  }

  lemma RevokedRow(s: Sys, id: VcId, now: int)
    requires Inv(CFG, s.store) && id in s.store.vcs && s.store.vcs[id].revokedAt.None? && s.store.list.Some?
    ensures RevokeVC(CFG, s, id, now).sys.store.vcs == s.store.vcs[id := s.store.vcs[id].(revokedAt := Some(now))]
  {
    RevokeRowKeeps(CFG, s, id, now);
  }

  /** Revoking last of all marks Alice's row and no other. */
  lemma RevokedLast(before: seq<Event>, w: World)
    requires HonestRun(CFG, DIR, w, before, false)
    requires var st := After(before).store; "a" in st.vcs && st.vcs["a"].revokedAt.None? && st.list.Some?
    ensures HonestRun(CFG, DIR, w, before + [REVOCATION], false)
    ensures var rows := After(before).store.vcs;
            After(before + [REVOCATION]).store.vcs == rows["a" := rows["a"].(revokedAt := Some(20))]
  {
    ReachableInv(CFG, DIR, before, false);
    OneMore(before, REVOCATION);
    HonestMore(w, before, REVOCATION);
    RevokedRow(After(before), "a", 20);
  }

  lemma OrphanedBetween(before: Store, after: Store, a: VcRecord, b: VcRecord, c: VcRecord)
    requires AlicesRow(a) && BobsRow(b) && HandedRow(a, c)
    requires before.vcs == map["a" := a, "b" := b, "c" := c]
    requires after.vcs == map["a" := a.(revokedAt := Some(20)), "b" := b, "c" := c]
    ensures NoOrphans(before, 20) && !NoOrphans(after, 20)
  {
    assert after.vcs["c"] == c && !Unrevoked(after, "a");
  }

  /** What Bob has at the end: the delegation, and with it what it was renewed to. */
  lemma BobHas(st: Store, vc: Credential)
    requires WellKept(st) && {"a", "b", "c"} <= st.vcs.Keys && IsAgentType(vc)
    requires st.vcs["a"].subjectDid != BOB && !IsActive(st.vcs["b"], 20)
    requires StoredActive(st, "c", vc, 20) && st.vcs["c"].subjectDid == BOB
    ensures vc in ActiveAgentVCs(st, BOB, 20)
    ensures forall e :: e in ActiveAgentVCs(st, BOB, 20) ==>
              e == vc || exists id :: id in st.vcs && id !in {"a", "b", "c"} && StoredActive(st, id, e, 20)
  {
    AgentVCsAre(st, BOB, 20, vc);
    forall e | e in ActiveAgentVCs(st, BOB, 20) && e != vc
      ensures exists id :: id in st.vcs && id !in {"a", "b", "c"} && StoredActive(st, id, e, 20)
    {
      AgentVCsAre(st, BOB, 20, e);
      var id :| StoredActive(st, id, e, 20) && st.vcs[id].subjectDid == BOB;
      assert id !in {"a", "b", "c"};
    }
  }

  lemma TheyAre(a: VcRecord, b: VcRecord, c: VcRecord)
    requires AlicesRow(a) && BobsRow(b) && HandedRow(a, c)
    ensures a.subjectDid != BOB && !IsActive(b, 20)
    ensures c.subjectDid == BOB && IsActive(c, 20) && IsAgentType(c.vc)
    ensures a.vc.body.id == "a" && a.revokedAt.None?
  {
  }

  /** An agent with some credential, none passing for a grant, can sign for no user. */
  lemma SignsForNobody(st: Store)
    requires Faithful(st) && ActiveAgentVCs(st, BOB, 20) != []
    requires forall e :: e in ActiveAgentVCs(st, BOB, 20) ==> OneKind(e)
    ensures SignVp(DIR, st, BOB, SERVICE, None, 20, "vp").Ok?
  {
    SignSucceedsIff(DIR, st, BOB, SERVICE, None, 20, "vp");
  }

  lemma FaithfulAfter(events: seq<Event>, w: World)
    requires HonestRun(CFG, DIR, w, events, false) && KeysGenuine(CFG, DIR, w)
    ensures Faithful(After(events).store)
  {
    UpheldReachable(CFG, DIR, w, events, false);
    UpheldIsFaithful(CFG, w, After(events).store);
  }

  /** With only the delegation left, Bob's credentials all rest on Alice's. */
  lemma OnlyTheDelegation(st: Store, a: VcRecord, b: VcRecord, c: VcRecord)
    requires Faithful(st) && AlicesRow(a) && BobsRow(b) && HandedRow(a, c)
    requires st.vcs == map["a" := a.(revokedAt := Some(20)), "b" := b, "c" := c]
    ensures ActiveAgentVCs(st, BOB, 20) != []
    ensures forall e :: e in ActiveAgentVCs(st, BOB, 20) ==> e == c.vc
    ensures StoredAs(st, a.vc) && !Unrevoked(st, a.vc.body.id)
  {
    TheyAre(a, b, c);
    BobHas(st, c.vc);
  }

  lemma HandedRests(a: VcRecord, c: VcRecord)
    requires AlicesRow(a) && HandedRow(a, c)
    ensures a.vc in WalkOf(c.vc) && OneKind(c.vc) && OnDefaultList(CFG, a.vc)
  {
    assert ChainOf(a.vc) == [a.vc];
  }

  /** After any events that end like that, Bob can sign and is refused. */
  lemma OrphanRefused(events: seq<Event>, w: World, a: VcRecord, b: VcRecord, c: VcRecord)
    requires HonestRun(CFG, DIR, w, events, false) && KeysGenuine(CFG, DIR, w) && w == Seeing(EMPTY_STORE, 0)
    requires AlicesRow(a) && BobsRow(b) && HandedRow(a, c)
    requires After(events).store.vcs == map["a" := a.(revokedAt := Some(20)), "b" := b, "c" := c]
    ensures var st := After(events).store;
            var vp := SignVp(DIR, st, BOB, SERVICE, None, 20, "vp");
            vp.Ok? && VpResult(vp.value, OPTS, Seeing(st, 20)).Err?
  {
    var st := After(events).store;
    FaithfulAfter(events, w);
    OnlyTheDelegation(st, a, b, c);
    HandedRests(a, c);
    SignsForNobody(st);
    RestingOnRevokedIsRefused(CFG, DIR, w, events, false, BOB, SERVICE, None, 20, "vp", OPTS, Seeing(st, 20), a.vc);
  }

  lemma FirstMarked(a: VcRecord, b: VcRecord, c: VcRecord)
    ensures map["a" := a, "b" := b, "c" := c]["a" := a.(revokedAt := Some(20))]
         == map["a" := a.(revokedAt := Some(20)), "b" := b, "c" := c]
  {
  }

  lemma OrphanedAfter(before: seq<Event>, w: World, a: VcRecord, b: VcRecord, c: VcRecord)
    requires HonestRun(CFG, DIR, w, before, false) && KeysGenuine(CFG, DIR, w) && w == Seeing(EMPTY_STORE, 0)
    requires AlicesRow(a) && BobsRow(b) && HandedRow(a, c)
    requires After(before).store.vcs == map["a" := a, "b" := b, "c" := c] && Claims(After(before).store, 3)
    ensures HonestRun(CFG, DIR, w, before + [REVOCATION], false)
    ensures var st := After(before + [REVOCATION]).store;
            var vp := SignVp(DIR, st, BOB, SERVICE, None, 20, "vp");
            && NoOrphans(After(before).store, 20) && !NoOrphans(st, 20)
            && vp.Ok? && VpResult(vp.value, OPTS, Seeing(st, 20)).Err?
  {
    RevokedLast(before, w);
    FirstMarked(a, b, c);
    OrphanedBetween(After(before).store, After(before + [REVOCATION]).store, a, b, c);
    OrphanRefused(before + [REVOCATION], w, a, b, c);
  }

  lemma TheirKeys()
    ensures KeysGenuine(CFG, DIR, Seeing(EMPTY_STORE, 0))
  {
  }

  /** Told once: one revocation by hand, which orphans Bob's delegation; he can still
      sign, and what he signs is refused. */
  lemma RevokedUnderDelegation()
    ensures HonestRun(CFG, DIR, Seeing(EMPTY_STORE, 0), ORPHANING, false) && Forward(ORPHANING, 20)
    ensures NoOrphans(After(OPENING).store, 20) && !NoOrphans(After(ORPHANING).store, 20)
    ensures var st := After(ORPHANING).store;
            var vp := SignVp(DIR, st, BOB, SERVICE, None, 20, "vp");
            vp.Ok? && VpResult(vp.value, OPTS, Seeing(st, 20)).Err?
  {
    var w := Seeing(EMPTY_STORE, 0);
    var a, b, c := Opened(w);
    TheirKeys();
    OpeningForward(20);
    ForwardMore(OPENING, REVOCATION, 20);
    OrphanedAfter(OPENING, w, a, b, c);
  }

  // ---- Told again, with a renewal --------------------------------------------------------------

  predicate RenewedRow(c: VcRecord, d: VcRecord) {
    RootRow(CFG, RenewParams(c, AS_BEFORE), 15, "d", d)
  }

  predicate Renewable(st: Store, c: VcRecord) {
    && "c" in st.vcs && st.vcs["c"] == c && c.revokedAt.None? && "d" !in st.vcs
    && Onboards(RenewParams(c, AS_BEFORE)) && RenewParams(c, AS_BEFORE).subjectDid == BOB
    && NobodyYet(CFG, st, BOB, 15)
  }

  lemma CanRenew(st: Store, a: VcRecord, b: VcRecord, c: VcRecord)
    requires AlicesRow(a) && BobsRow(b) && HandedRow(a, c) && st.vcs == map["a" := a, "b" := b, "c" := c]
    ensures Renewable(st, c)
  {
    HandedRenews(a, c);
    NobodyLeft(st, a, b, c);
  }

  lemma CRenewed(s: Sys, c: VcRecord) returns (d: VcRecord)
    requires Claims(s.store, 3) && Renewable(s.store, c)
    ensures RootRow(CFG, RenewParams(c, AS_BEFORE), 15, "d", d)
    ensures var st := RenewVC(CFG, s, "c", AS_BEFORE, true, true, 15, "d").sys.store;
            st.vcs == s.store.vcs["d" := d]["c" := c.(renewedBy := Some("d"))] && st.list.Some?
  {
    d := Renewing(CFG, s, "c", 15, "d", 3);
  }

  lemma RenewalIs(s: Sys)
    ensures Apply(CFG, DIR, s, RENEWAL.call, 15) == RenewVC(CFG, s, "c", AS_BEFORE, true, true, 15, "d").sys
  {
  }

  lemma HandedRenews(a: VcRecord, c: VcRecord)
    requires HandedRow(a, c)
    ensures Onboards(RenewParams(c, AS_BEFORE)) && RenewParams(c, AS_BEFORE).subjectDid == BOB && c.revokedAt.None?
  {
    assert Scopes.ScopeProblemOf(["read"]).None?;
    RenewedOnboards(c);
  }

  lemma BobExpired(b: VcRecord)
    requires BobsRow(b)
    ensures !IsActive(b, 15)
  {
  }

  lemma NobodyLeft(st: Store, a: VcRecord, b: VcRecord, c: VcRecord)
    requires st.vcs == map["a" := a, "b" := b, "c" := c]
    requires AlicesRow(a) && BobsRow(b) && HandedRow(a, c)
    ensures NobodyYet(CFG, st, BOB, 15)
  {
    BobExpired(b);
    assert a.subjectDid == ALICE && c.columns.issuerDid == Some(ALICE);
  }

  lemma LastRows(a: VcRecord, b: VcRecord, c: VcRecord, d: VcRecord)
    ensures map["a" := a, "b" := b, "c" := c]["d" := d]["c" := c.(renewedBy := Some("d"))]
              ["a" := a.(revokedAt := Some(20))]
         == map["a" := a.(revokedAt := Some(20)), "b" := b, "c" := c.(renewedBy := Some("d")), "d" := d]
  {
  }

  lemma OutlivedAfter(before: seq<Event>, w: World, a: VcRecord, b: VcRecord, c: VcRecord) returns (d: VcRecord)
    requires HonestRun(CFG, DIR, w, before, false) && AlicesRow(a) && BobsRow(b) && HandedRow(a, c)
    requires After(before).store.vcs == map["a" := a, "b" := b, "c" := c] && Claims(After(before).store, 3)
    ensures HonestRun(CFG, DIR, w, before + [RENEWAL] + [REVOCATION], false)
    ensures EndsWith(After(before + [RENEWAL] + [REVOCATION]).store, a, b, c, d)
  {
    CanRenew(After(before).store, a, b, c);
    d := CRenewed(After(before), c);
    RenewalIs(After(before));
    OneMore(before, RENEWAL);
    HonestMore(w, before, RENEWAL);
    BeforeLast(a, b, c, d);
    RevokedLast(before + [RENEWAL], w);
    LastRows(a, b, c, d);
  }

  lemma BeforeLast(a: VcRecord, b: VcRecord, c: VcRecord, d: VcRecord)
    requires AlicesRow(a)
    ensures var rows := map["a" := a, "b" := b, "c" := c]["d" := d]["c" := c.(renewedBy := Some("d"))];
            "a" in rows && rows["a"] == a && a.revokedAt.None?
  {
  }

  /** A delegation whose root is revoked here is dropped. */
  lemma RootRevoked(st: Store, seen: World, e: Credential, root: Credential)
    requires e.body.chain == [root] && StoredAs(st, root) && !Unrevoked(st, root.body.id)
    requires OnDefaultList(CFG, root) && !SelfSigned(root) && ValidityFault(root, seen.now).None? && Delegated(e)
    ensures !ChainSinks(e, StoreJudge(CFG, st, seen, OPTS))
  {
    var judge := StoreJudge(CFG, st, seen, OPTS);
    assert RowFault(CFG, st, seen, OPTS, root) == Some(VcRevoked);
    assert WalkOf(e) == [root] + [e] && WalkOf(e)[0] == root;
    assert FirstFault(WalkOf(e), judge) == Some(VcRevoked);
  }

  lemma RootStands(st: Store, seen: World, e: Credential)
    requires !Delegated(e) && StoredAs(st, e) && Unrevoked(st, e.body.id) && e.body.subject.privilegeScopes.Some?
    requires OnDefaultList(CFG, e) && !SelfSigned(e) && ValidityFault(e, seen.now).None?
    ensures ChainStands(e, StoreJudge(CFG, st, seen, OPTS)) && !ChainSinks(e, StoreJudge(CFG, st, seen, OPTS))
  {
    var judge := StoreJudge(CFG, st, seen, OPTS);
    assert RowFault(CFG, st, seen, OPTS, e).None? && judge(e).None?;
    FirstFaultFree(WalkOf(e), judge);
  }

  ghost predicate EndsWith(st: Store, a: VcRecord, b: VcRecord, c: VcRecord, d: VcRecord) {
    && AlicesRow(a) && BobsRow(b) && HandedRow(a, c) && RenewedRow(c, d)
    && st.vcs == map["a" := a.(revokedAt := Some(20)), "b" := b, "c" := c.(renewedBy := Some("d")), "d" := d]
  }

  lemma RenewedIs(c: VcRecord, d: VcRecord, a: VcRecord)
    requires HandedRow(a, c) && RenewedRow(c, d)
    ensures d.subjectDid == BOB && IsActive(d, 20) && IsAgentType(d.vc) && OneKind(d.vc) && FitsEntry(d.vc, SERVICE)
    ensures ScopesOf(d.vc) == ["read"] && d.vc.body.id == "d" && !Delegated(d.vc) && !SelfSigned(d.vc)
    ensures ValidityFault(d.vc, 20).None? && OnDefaultList(CFG, d.vc) && d.revokedAt.None?
    ensures OneKind(c.vc) && FitsEntry(c.vc, SERVICE)
  {
  }

  lemma BobHasBoth(st: Store, a: VcRecord, b: VcRecord, c: VcRecord, d: VcRecord)
    requires Faithful(st) && EndsWith(st, a, b, c, d)
    ensures forall e :: e in ActiveAgentVCs(st, BOB, 20) ==> e == c.vc || e == d.vc
    ensures d.vc in ActiveAgentVCs(st, BOB, 20)
  {
    TheyAre(a, b, c);
    RenewedActive(c, d, a);
    BobHas(st, c.vc);
    AlsoD(st, d);
  }

  lemma RenewedReads(c: VcRecord, d: VcRecord, a: VcRecord)
    requires HandedRow(a, c) && RenewedRow(c, d)
    ensures "read" in ScopesOf(d.vc)
  {
  }

  lemma RenewedActive(c: VcRecord, d: VcRecord, a: VcRecord)
    requires HandedRow(a, c) && RenewedRow(c, d)
    ensures d.subjectDid == BOB && IsActive(d, 20) && IsAgentType(d.vc)
  {
  }

  lemma AlsoD(st: Store, d: VcRecord)
    requires WellKept(st) && st.vcs.Keys == {"a", "b", "c", "d"} && st.vcs["d"] == d
    requires d.subjectDid == BOB && IsActive(d, 20) && IsAgentType(d.vc)
    ensures d.vc in ActiveAgentVCs(st, BOB, 20)
    ensures forall id, e :: id in st.vcs && id !in {"a", "b", "c"} && StoredActive(st, id, e, 20) ==> e == d.vc
  {
    assert StoredActive(st, "d", d.vc, 20);
    AgentVCsAre(st, BOB, 20, d.vc);
  }

  lemma BothJudged(st: Store, a: VcRecord, b: VcRecord, c: VcRecord, d: VcRecord)
    requires EndsWith(st, a, b, c, d)
    ensures var judge := StoreJudge(CFG, st, Seeing(st, 20), OPTS);
            !ChainSinks(c.vc, judge) && !ChainSinks(d.vc, judge) && ChainStands(d.vc, judge)
  {
    RenewedIs(c, d, a);
    RootRevoked(st, Seeing(st, 20), c.vc, a.vc);
    RootStands(st, Seeing(st, 20), d.vc);
  }

  lemma BobsAre(st: Store, a: VcRecord, b: VcRecord, c: VcRecord, d: VcRecord)
    requires Faithful(st) && EndsWith(st, a, b, c, d)
    ensures var judge := StoreJudge(CFG, st, Seeing(st, 20), OPTS);
            && d.vc in ActiveAgentVCs(st, BOB, 20) && ChainStands(d.vc, judge)
            && forall e :: e in ActiveAgentVCs(st, BOB, 20) ==>
                 OneKind(e) && FitsEntry(e, SERVICE) && !ChainSinks(e, judge)
  {
    BobHasBoth(st, a, b, c, d);
    RenewedIs(c, d, a);
    BothJudged(st, a, b, c, d);
    Both(ActiveAgentVCs(st, BOB, 20), c.vc, d.vc, StoreJudge(CFG, st, Seeing(st, 20), OPTS));
  }

  lemma BobReads(st: Store, a: VcRecord, b: VcRecord, c: VcRecord, d: VcRecord)
    requires Faithful(st) && EndsWith(st, a, b, c, d)
    ensures var judge := StoreJudge(CFG, st, Seeing(st, 20), OPTS);
            && d.vc in ActiveAgentVCs(st, BOB, 20) && ChainStands(d.vc, judge) && "read" in ScopesOf(d.vc)
            && forall e :: e in ActiveAgentVCs(st, BOB, 20) ==>
                 OneKind(e) && FitsEntry(e, SERVICE) && !ChainSinks(e, judge)
  {
    BobsAre(st, a, b, c, d);
    RenewedReads(c, d, a);
  }

  lemma Both(own: seq<Credential>, x: Credential, y: Credential, judge: Judge)
    requires forall e :: e in own ==> e == x || e == y
    requires OneKind(x) && FitsEntry(x, SERVICE) && !ChainSinks(x, judge)
    requires OneKind(y) && FitsEntry(y, SERVICE) && !ChainSinks(y, judge)
    ensures forall e :: e in own ==> OneKind(e) && FitsEntry(e, SERVICE) && !ChainSinks(e, judge)
  {
  }

  ghost predicate BobStands(st: Store, vc: Credential) {
    var judge := StoreJudge(CFG, st, Seeing(st, 20), OPTS);
    && vc in ActiveAgentVCs(st, BOB, 20) && ChainStands(vc, judge) && "read" in ScopesOf(vc)
    && forall e :: e in ActiveAgentVCs(st, BOB, 20) ==> OneKind(e) && FitsEntry(e, SERVICE) && !ChainSinks(e, judge)
  }

  lemma BobAccepted(events: seq<Event>, w: World, vc: Credential)
    requires HonestRun(CFG, DIR, w, events, false) && KeysGenuine(CFG, DIR, w) && w == Seeing(EMPTY_STORE, 0)
    requires BobStands(After(events).store, vc)
    ensures var st := After(events).store;
            var vp := SignVp(DIR, st, BOB, SERVICE, None, 20, "vp");
            && vp.Ok? && VpResult(vp.value, OPTS, Seeing(st, 20)).Ok?
            && "read" in VpResult(vp.value, OPTS, Seeing(st, 20)).value.effectiveScopes
  {
    FaithfulAfter(events, w);
    SignsForNobody(After(events).store);
    StandingAloneIsAccepted(CFG, DIR, w, events, false, BOB, SERVICE, 20, "vp", OPTS, Seeing(After(events).store, 20),
                            vc);
  }

  /** Events that end like that leave Bob with a credential that stands. */
  lemma RenewedEnds(events: seq<Event>, w: World, a: VcRecord, b: VcRecord, c: VcRecord, d: VcRecord)
    requires HonestRun(CFG, DIR, w, events, false) && KeysGenuine(CFG, DIR, w)
    requires EndsWith(After(events).store, a, b, c, d)
    ensures BobStands(After(events).store, d.vc)
  {
    FaithfulAfter(events, w);
    BobReads(After(events).store, a, b, c, d);
  }

  lemma EndsRevoked(st: Store, a: VcRecord, b: VcRecord, c: VcRecord, d: VcRecord)
    requires EndsWith(st, a, b, c, d)
    ensures "a" in st.vcs && st.vcs["a"].revokedAt.Some?
  {
  }

  /** Told again: the delegation is renewed first, and what Bob signs after the very same
      revocation is accepted and worth all that Alice had delegated. */
  lemma RenewedBeforeRevocation()
    ensures HonestRun(CFG, DIR, Seeing(EMPTY_STORE, 0), OUTLIVING, false)
    ensures var st := After(OUTLIVING).store;
            var vp := SignVp(DIR, st, BOB, SERVICE, None, 20, "vp");
            && "a" in st.vcs && st.vcs["a"].revokedAt.Some?
            && vp.Ok? && VpResult(vp.value, OPTS, Seeing(st, 20)).Ok?
            && "read" in VpResult(vp.value, OPTS, Seeing(st, 20)).value.effectiveScopes
  {
    var w := Seeing(EMPTY_STORE, 0);
    var a, b, c := Opened(w);
    TheirKeys();
    var d := OutlivedAfter(OPENING, w, a, b, c);
    EndsRevoked(After(OUTLIVING).store, a, b, c, d);
    RenewedEnds(OUTLIVING, w, a, b, c, d);
    BobAccepted(OUTLIVING, w, d.vc);
  }
}
