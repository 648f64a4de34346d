/** Consent once given can be used at once, in any state the platform reaches. */
module Consents {
  import opened Common
  import opened Credentials
  import opened Delegation
  import opened Verifier
  import opened VerifierFormula
  import opened VcStore
  import opened VcLifecycle
  import opened VcInvariants
  import opened AgentFlows
  import opened ServiceFlows
  import opened Presentations
  import opened Acceptance
  import opened Runs
  import opened Rows
  import opened Success
  import DelegationTerms
  import LifecycleTerms
  import Scopes

  // ---- What storing a grant leaves ----------------------------------------------

  /** Storing a credential leaves rows of another identity as they are. */
  lemma OtherIdentityUntouched(cfg: Platform, s: Sys, row: VcRecord, revokeExisting: bool, now: int, at: VcId)
    requires row.vcId !in s.store.vcs && at in s.store.vcs
    requires IdentityOf(s.store.vcs[at]) != IdentityFor(row.vc)
    ensures var after := Register(cfg, s, row, revokeExisting, now).sys.store;
            at in after.vcs && after.vcs[at] == s.store.vcs[at]
  {
    var stored := s.(store := WithRow(s.store, row));
    ReconcileTouches(cfg, stored, row.vc, revokeExisting, now);
  }

  lemma RowIsNoGrant(r: VcRecord)
    requires FaithfulRow(r) && !IsGrantType(r.vc)
    ensures IdentityOf(r).vcType != Some(GRANT_TYPE)
  {
    OwnTypeIsType(r.vc.body.types);
  }

  /** Whatever does not pass for a grant outlives the storing of a grant. */
  lemma GrantLeavesOthers(cfg: Platform, s: Sys, grant: Credential, revokeExisting: bool, now: int)
    requires Faithful(s.store) && GrantRow(grant).vcId !in s.store.vcs
    requires OwnType(grant.body.types) == Some(GRANT_TYPE)
    ensures var after := Register(cfg, s, GrantRow(grant), revokeExisting, now).sys.store;
            forall at :: at in s.store.vcs && !IsGrantType(s.store.vcs[at].vc) ==>
              at in after.vcs && after.vcs[at] == s.store.vcs[at]
  {
    forall at | at in s.store.vcs && !IsGrantType(s.store.vcs[at].vc)
      ensures var after := Register(cfg, s, GrantRow(grant), revokeExisting, now).sys.store;
              at in after.vcs && after.vcs[at] == s.store.vcs[at]
    {
      RowIsNoGrant(s.store.vcs[at]);
      OtherIdentityUntouched(cfg, s, GrantRow(grant), revokeExisting, now, at);
    }
  }

  ghost predicate GrantMade(input: GrantInput, grant: Credential) {
    && OwnType(grant.body.types) == Some(GRANT_TYPE) && !IsAgentType(grant)
    && grant.body.issuer == input.serviceDid && grant.body.subject.id == input.agentDid
    && grant.body.subject.claims.userDid == Some(input.userDid)
    && ConsentOf(grant).Some? && ConsentOf(grant).value.scopes == Scopes.NormalizeScopes(input.scopes)
  }

  lemma GrantIsMade(cfg: Platform, input: GrantInput, scopes: seq<Scope>, wallet: Wallet, index: nat, now: int,
                    id: VcId)
    requires scopes == Scopes.NormalizeScopes(input.scopes) && wallet.did == input.serviceDid
    ensures var grant := GrantCredential(cfg, input, scopes, wallet, index, now, id);
            GrantMade(input, grant) && grant.body.id == id
            && grant.body.validUntil.Some? && grant.body.validUntil.value > now
  {
    assert OwnType([GRANT_TYPE]) == Some(GRANT_TYPE) by {
      assert |BASE_TYPE| != |GRANT_TYPE|;
    }
    assert [BASE_TYPE, GRANT_TYPE][1..] == [GRANT_TYPE];
  }

  /** What a successful issueDelegationGrant leaves behind: the grant, active, and
      whatever is not a grant as it was. */
  lemma GrantStored(cfg: Platform, dir: Directory, s: Sys, input: GrantInput, scopes: seq<Scope>, known: bool,
                    now: int, id: VcId)
    requires Inv(cfg, s.store) && Faithful(s.store) && id !in s.store.vcs && input.serviceDid in dir.keys
    requires scopes == Scopes.NormalizeScopes(input.scopes)
    requires GrantFrom(cfg, dir, s, input, scopes, known, now, id).result.Ok?
    ensures var o := GrantFrom(cfg, dir, s, input, scopes, known, now, id);
            && StoredActive(o.sys.store, id, o.result.value.grant, now)
            && GrantMade(input, o.result.value.grant)
            && (forall at :: at in s.store.vcs && !IsGrantType(s.store.vcs[at].vc) ==>
                  at in o.sys.store.vcs && o.sys.store.vcs[at] == s.store.vcs[at])
  {
    var entry := ClaimStatusListEntry(cfg, s, now);
    ClaimedRoom(cfg, s, now);
    var wallet, index := WalletOf(dir, input.serviceDid), entry.result.value;
    var grant := GrantCredential(cfg, input, scopes, wallet, index, now, id);
    GrantIsMade(cfg, input, scopes, wallet, index, now, id);
    ClaimedRowIsNew(cfg, entry.sys.store, GrantRow(grant), index);
    RegisterKeeps(cfg, entry.sys, GrantRow(grant), input.revokeExisting, now);
    GrantLeavesOthers(cfg, entry.sys, grant, input.revokeExisting, now);
  }

  /** The scopes consented to, the terms aside, are scopes of an own credential. */
  lemma ConsentedAreHeld(dir: Directory, st: Store, input: GrantInput, now: int, s: Scope)
    requires GrantScopes(dir, st, input, now).Ok? && s in input.scopes && s != ACCEPT_TERMS
    ensures exists vc :: vc in ActiveAgentVCs(st, input.agentDid, now) && !Delegated(vc) && s in ScopesOf(vc)
  {
    var held := AgentScopes(dir, st, input.agentDid, now).value;
    var scopes := Scopes.NormalizeScopes(input.scopes);
    assert s in Filter(x => x != ACCEPT_TERMS && x !in held, scopes) <==> s !in held;
    var vc :| vc in OwnVCs(st, input.agentDid, now) && s in ScopesOf(vc);
  }

  lemma ConsentIsGrant(cfg: Platform, dir: Directory, s: Sys, input: GrantInput, known: bool, now: int, id: VcId)
    requires ConsentOutcome(cfg, dir, s, input, known, now, id).result.Ok?
    ensures GrantFault(dir, input).None? && input.serviceDid in dir.keys
    ensures GrantScopes(dir, s.store, input, now) == Ok(Scopes.NormalizeScopes(input.scopes))
    ensures ConsentOutcome(cfg, dir, s, input, known, now, id)
         == GrantFrom(cfg, dir, s, input, Scopes.NormalizeScopes(input.scopes), known, now, id)
  {
  }

  predicate PlainGrantRow(r: VcRecord) {
    FaithfulRow(r) && !IsAgentType(r.vc)
  }

  lemma GrantRowIsPlain(cfg: Platform, input: GrantInput, scopes: seq<Scope>, wallet: Wallet, index: nat, now: int,
                        id: VcId)
    ensures PlainGrantRow(GrantRow(GrantCredential(cfg, input, scopes, wallet, index, now, id)))
  {
  }

  /** The only row a consent adds is its grant. */
  lemma ConsentAdds(cfg: Platform, dir: Directory, s: Sys, input: GrantInput, known: bool, now: int, id: VcId)
    requires Inv(cfg, s.store) && id !in s.store.vcs
    ensures AddsOnly(s.store, ConsentOutcome(cfg, dir, s, input, known, now, id).sys.store, PlainGrantRow)
  {
    if GrantScopes(dir, s.store, input, now).Ok? {
      var scopes := GrantScopes(dir, s.store, input, now).value;
      var index := WithDefaultList(cfg, s, now).store.list.value.nextIndex;
      GrantRowIsPlain(cfg, input, scopes, WalletOf(dir, input.serviceDid), index, now, id);
      GrantFromAdds(cfg, dir, s, input, scopes, known, now, id, PlainGrantRow);
    }
  }

  lemma ConsentFaithful(cfg: Platform, dir: Directory, s: Sys, input: GrantInput, known: bool, now: int, id: VcId)
    requires Inv(cfg, s.store) && Faithful(s.store) && id !in s.store.vcs
    ensures var after := ConsentOutcome(cfg, dir, s, input, known, now, id).sys.store;
            Faithful(after) && Evolves(s.store, after) && AddsOnly(s.store, after, PlainGrantRow)
  {
    ConsentOutcomeKeeps(cfg, dir, s, input, known, now, id);
    ConsentAdds(cfg, dir, s, input, known, now, id);
    FaithfulStep(cfg, s.store, ConsentOutcome(cfg, dir, s, input, known, now, id).sys.store, PlainGrantRow);
  }

  // ---- The agent's credentials before and after ----------------------------------

  lemma OthersStay(a: Store, b: Store, did: Did, now: int)
    requires WellKept(a) && WellKept(b)
    requires forall at :: at in a.vcs && !IsGrantType(a.vcs[at].vc) ==> at in b.vcs && b.vcs[at] == a.vcs[at]
    ensures forall vc :: vc in ActiveAgentVCs(a, did, now) && !IsGrantType(vc) ==> vc in ActiveAgentVCs(b, did, now)
  {
    forall vc | vc in ActiveAgentVCs(a, did, now) && !IsGrantType(vc) ensures vc in ActiveAgentVCs(b, did, now) {
      AgentVCsAre(a, did, now, vc);
      var at :| StoredActive(a, at, vc, now) && a.vcs[at].subjectDid == did && IsAgentType(vc);
      assert StoredActive(b, at, vc, now) && b.vcs[at].subjectDid == did;
      AgentVCsAre(b, did, now, vc);
    }
  }

  lemma NoAgentsNew(a: Store, b: Store, did: Did, now: int)
    requires WellKept(a) && WellKept(b) && Evolves(a, b)
    requires AddsOnly(a, b, PlainGrantRow)
    ensures forall vc :: vc in ActiveAgentVCs(b, did, now) ==> vc in ActiveAgentVCs(a, did, now)
  {
    forall vc | vc in ActiveAgentVCs(b, did, now) ensures vc in ActiveAgentVCs(a, did, now) {
      AgentVCsAre(b, did, now, vc);
      var at :| StoredActive(b, at, vc, now) && b.vcs[at].subjectDid == did && IsAgentType(vc);
      assert at in a.vcs && SameButMarks(a.vcs[at], b.vcs[at]);
      assert StoredActive(a, at, vc, now) && a.vcs[at].subjectDid == did;
      AgentVCsAre(a, did, now, vc);
    }
  }

  /** No active agent credential of the agent passes for a grant as well. */
  ghost predicate KindsApart(st: Store, did: Did, now: int) {
    forall vc :: vc in ActiveAgentVCs(st, did, now) ==> !IsGrantType(vc)
  }

  lemma SomeOwn(dir: Directory, st: Store, input: GrantInput, now: int)
    requires GrantScopes(dir, st, input, now).Ok?
    ensures exists vc :: vc in ActiveAgentVCs(st, input.agentDid, now)
  {
    var own := OwnVCs(st, input.agentDid, now);
    assert own[0] in own && own[0] in ActiveAgentVCs(st, input.agentDid, now);
  }

  /** The state right after a grant is issued. */
  lemma ConsentLeaves(cfg: Platform, dir: Directory, s: Sys, input: GrantInput, known: bool, now: int, id: VcId)
    requires Inv(cfg, s.store) && Faithful(s.store) && id !in s.store.vcs
    requires ConsentOutcome(cfg, dir, s, input, known, now, id).result.Ok?
    ensures var o := ConsentOutcome(cfg, dir, s, input, known, now, id);
            && Faithful(o.sys.store) && GrantMade(input, o.result.value.grant)
            && StoredActive(o.sys.store, id, o.result.value.grant, now)
            && (forall vc :: vc in ActiveAgentVCs(s.store, input.agentDid, now) && !IsGrantType(vc) ==>
                  vc in ActiveAgentVCs(o.sys.store, input.agentDid, now))
            && (KindsApart(s.store, input.agentDid, now) ==> KindsApart(o.sys.store, input.agentDid, now))
  {
    var o := ConsentOutcome(cfg, dir, s, input, known, now, id);
    ConsentIsGrant(cfg, dir, s, input, known, now, id);
    GrantStored(cfg, dir, s, input, Scopes.NormalizeScopes(input.scopes), known, now, id);
    ConsentFaithful(cfg, dir, s, input, known, now, id);
    OthersStay(s.store, o.sys.store, input.agentDid, now);
    NoAgentsNew(s.store, o.sys.store, input.agentDid, now);
  }

  // ---- Signing for the user --------------------------------------------------------

  /** What the agent has for that user at that service, as itself. */
  function OwnChoice(st: Store, input: GrantInput, now: int): Inherited {
    Inherited(ActiveAgentVCs(st, input.agentDid, now),
              ListActiveGrants(st, input.agentDid, input.serviceDid, input.userDid, now))
  }

  /** The holder of an active grant and of some credential presents all of both. */
  lemma OwnGrantsChosen(st: Store, input: GrantInput, grant: Credential, now: int, id: VcId)
    requires Faithful(st) && GrantMade(input, grant) && StoredActive(st, id, grant, now)
    requires DID_SCHEME <= input.userDid
    ensures grant in OwnChoice(st, input, now).grants
    ensures ActiveAgentVCs(st, input.agentDid, now) != [] ==>
            Chosen(st, input.agentDid, input.serviceDid, Some(input.userDid), now) == Ok(OwnChoice(st, input, now))
  {
    GrantsAre(st, input.agentDid, input.serviceDid, input.userDid, now, grant);
  }

  /** A listed grant that passes for an agent credential is one of the agent's. */
  lemma ListedKinds(st: Store, input: GrantInput, now: int)
    requires Faithful(st) && KindsApart(st, input.agentDid, now)
    ensures forall e :: e in OwnChoice(st, input, now).agentCredentials + OwnChoice(st, input, now).grants ==>
              OneKind(e)
  {
    forall g | g in OwnChoice(st, input, now).grants ensures OneKind(g) {
      ListedGrantFits(st, input.agentDid, input.serviceDid, input.userDid, now, g);
      var id :| StoredActive(st, id, g, now);
      assert FaithfulRow(st.vcs[id]);
      AgentVCsAre(st, input.agentDid, now, g);
    }
  }

  /** Right after a grant is issued the agent can sign for that user and service. */
  lemma ConsentCanBeSigned(cfg: Platform, dir: Directory, s: Sys, input: GrantInput, known: bool, now: int, id: VcId,
                           vpId: string)
    requires Inv(cfg, s.store) && Faithful(s.store) && id !in s.store.vcs && DID_SCHEME <= input.serviceDid
    requires ConsentOutcome(cfg, dir, s, input, known, now, id).result.Ok? && KindsApart(s.store, input.agentDid, now)
    ensures var st := ConsentOutcome(cfg, dir, s, input, known, now, id).sys.store;
            SignVp(dir, st, input.agentDid, input.serviceDid, Some(input.userDid), now, vpId).Ok?
  {
    var o := ConsentOutcome(cfg, dir, s, input, known, now, id);
    ConsentLeaves(cfg, dir, s, input, known, now, id);
    SomeOwn(dir, s.store, input, now);
    OwnGrantsChosen(o.sys.store, input, o.result.value.grant, now, id);
    ListedKinds(o.sys.store, input, now);
    SignSucceedsIff(dir, o.sys.store, input.agentDid, input.serviceDid, Some(input.userDid), now, vpId);
  }

  /** Some active credential of the agent holds the scope and some active grant of
      that service to it for that user names it. */
  ghost predicate HeldAndGranted(st: Store, input: GrantInput, now: int, x: Scope) {
    && (exists vc :: vc in OwnChoice(st, input, now).agentCredentials && x in ScopesOf(vc))
    && (exists g :: g in OwnChoice(st, input, now).grants && ConsentOf(g).Some? && x in ConsentOf(g).value.scopes)
  }

  lemma OwnWorth(st: Store, input: GrantInput, now: int, x: Scope, vc: Credential, g: Credential)
    requires Faithful(st)
    requires vc in OwnChoice(st, input, now).agentCredentials && x in ScopesOf(vc)
    requires g in OwnChoice(st, input, now).grants && ConsentOf(g).Some? && x in ConsentOf(g).value.scopes
    ensures WorthThrough(OwnChoice(st, input, now), vc, g, x)
  {
    AgentVCFits(st, input.agentDid, now, vc);
    ListedGrantFits(st, input.agentDid, input.serviceDid, input.userDid, now, g);
    assert vc in WalkOf(vc) && OnChain(input.agentDid, vc);
  }

  lemma WorthOfOwn(st: Store, input: GrantInput, now: int, x: Scope)
    requires Faithful(st)
    ensures (exists vc, g :: WorthThrough(OwnChoice(st, input, now), vc, g, x)) <==> HeldAndGranted(st, input, now, x)
  {
    var c := OwnChoice(st, input, now);
    if HeldAndGranted(st, input, now, x) {
      var vc :| vc in c.agentCredentials && x in ScopesOf(vc);
      var g :| g in c.grants && ConsentOf(g).Some? && x in ConsentOf(g).value.scopes;
      OwnWorth(st, input, now, x, vc, g);
    }
  }

  lemma ConsentedHeld(cfg: Platform, dir: Directory, s: Sys, input: GrantInput, known: bool, now: int, id: VcId,
                      x: Scope)
    requires Inv(cfg, s.store) && Faithful(s.store) && id !in s.store.vcs
    requires ConsentOutcome(cfg, dir, s, input, known, now, id).result.Ok? && KindsApart(s.store, input.agentDid, now)
    requires x in input.scopes && x != ACCEPT_TERMS
    ensures HeldAndGranted(ConsentOutcome(cfg, dir, s, input, known, now, id).sys.store, input, now, x)
  {
    var o := ConsentOutcome(cfg, dir, s, input, known, now, id);
    ConsentLeaves(cfg, dir, s, input, known, now, id);
    ConsentedAreHeld(dir, s.store, input, now, x);
    OwnGrantsChosen(o.sys.store, input, o.result.value.grant, now, id);
  }

  /** Consent issued is consent usable. When the scopes may be granted and the list
      has room, the grant is issued and, unless some agent credential passes for a grant,
      the agent can sign. While all it signs with stands, the service accepts exactly
      when every agent credential is in order and bound to no other service and every
      grant fits its schema; the agent may then do exactly what some active credential
      of its holds and some active grant names, all consented to included. */
  lemma ConsentIsUsable(cfg: Platform, dir: Directory, s: Sys, input: GrantInput, now: int, id: VcId, vpId: string,
                        opts: VerifyOptions, seen: World)
    requires Inv(cfg, s.store) && Faithful(s.store) && id !in s.store.vcs && DID_SCHEME <= input.serviceDid
    requires GrantScopes(dir, s.store, input, now).Ok? && RoomLeft(s.store)
    requires AllStand(OwnChoice(ConsentOutcome(cfg, dir, s, input, true, now, id).sys.store, input, now),
                      JudgedBy(opts, seen))
    requires GenuineHolder(WalletOf(dir, input.agentDid), seen) && seen.now < now + VP_LIFETIME
    requires Truthy(opts.expectedTargetService) ==> opts.expectedTargetService == Some(input.serviceDid)
    ensures var o := ConsentOutcome(cfg, dir, s, input, true, now, id);
            var c := OwnChoice(o.sys.store, input, now);
            var vp := SignVp(dir, o.sys.store, input.agentDid, input.serviceDid, Some(input.userDid), now, vpId);
            && o.result.Ok? && (KindsApart(s.store, input.agentDid, now) ==> vp.Ok?)
            && (vp.Ok? ==>
                  var r := VpResult(vp.value, opts, seen);
                  && (r.Ok? <==>
                        && (forall e :: e in c.agentCredentials ==> FitsTarget(e, input.serviceDid) && InOrder(e))
                        && (forall g :: g in c.grants ==> ConsentOf(g).Some?))
                  && (r.Ok? ==> forall x :: x in r.value.effectiveScopes <==>
                                  HeldAndGranted(o.sys.store, input, now, x))
                  && (r.Ok? && KindsApart(s.store, input.agentDid, now) ==>
                        forall x :: x in input.scopes && x != ACCEPT_TERMS ==> x in r.value.effectiveScopes))
  {
    ConsentSucceedsIff(cfg, dir, s, input, true, now, id);
    var o := ConsentOutcome(cfg, dir, s, input, true, now, id);
    ConsentLeaves(cfg, dir, s, input, true, now, id);
    OwnGrantsChosen(o.sys.store, input, o.result.value.grant, now, id);
    var vp := SignVp(dir, o.sys.store, input.agentDid, input.serviceDid, Some(input.userDid), now, vpId);
    if KindsApart(s.store, input.agentDid, now) {
      ConsentCanBeSigned(cfg, dir, s, input, true, now, id, vpId);
      forall x | x in input.scopes && x != ACCEPT_TERMS ensures HeldAndGranted(o.sys.store, input, now, x) {
        ConsentedHeld(cfg, dir, s, input, true, now, id, x);
      }
    }
    if vp.Ok? {
      SignedForUser(dir, o.sys.store, input, now, vpId, opts, seen);
    }
  }

  lemma OwnInOrder(st: Store, input: GrantInput, now: int)
    requires Faithful(st)
    ensures var c := OwnChoice(st, input, now);
            ChosenInOrder(c, input.agentDid, input.serviceDid) <==>
              && (forall e :: e in c.agentCredentials ==> FitsTarget(e, input.serviceDid) && InOrder(e))
              && (forall g :: g in c.grants ==> ConsentOf(g).Some?)
  {
    var c := OwnChoice(st, input, now);
    forall g | g in c.grants ensures NamesSomebody(c, g, input.agentDid) {
      ListedGrantFits(st, input.agentDid, input.serviceDid, input.userDid, now, g);
    }
  }

  /** What the agent signs for the user with grants of its own. */
  lemma SignedForUser(dir: Directory, st: Store, input: GrantInput, now: int, vpId: string, opts: VerifyOptions,
                      seen: World)
    requires Faithful(st) && Truthy(Some(input.userDid)) && OwnChoice(st, input, now).grants != []
    requires SignVp(dir, st, input.agentDid, input.serviceDid, Some(input.userDid), now, vpId).Ok?
    requires AllStand(OwnChoice(st, input, now), JudgedBy(opts, seen))
    requires GenuineHolder(WalletOf(dir, input.agentDid), seen) && seen.now < now + VP_LIFETIME
    requires Truthy(opts.expectedTargetService) ==> opts.expectedTargetService == Some(input.serviceDid)
    ensures var vp := SignVp(dir, st, input.agentDid, input.serviceDid, Some(input.userDid), now, vpId).value;
            var c, r := OwnChoice(st, input, now), VpResult(vp, opts, seen);
            && (r.Ok? <==>
                  && (forall e :: e in c.agentCredentials ==> FitsTarget(e, input.serviceDid) && InOrder(e))
                  && (forall g :: g in c.grants ==> ConsentOf(g).Some?))
            && (r.Ok? ==> forall x :: x in r.value.effectiveScopes <==> HeldAndGranted(st, input, now, x))
  {
    var user, judge := Some(input.userDid), JudgedBy(opts, seen);
    var vp := SignVp(dir, st, input.agentDid, input.serviceDid, user, now, vpId).value;
    SignedVpAccepted(dir, st, input.agentDid, input.serviceDid, user, now, vpId, opts, seen);
    OwnInOrder(st, input, now);
    if VpResult(vp, opts, seen).Ok? {
      SignedVpWorth(dir, st, input.agentDid, input.serviceDid, user, now, vpId, opts, seen);
      var c := OwnChoice(st, input, now);
      forall x ensures x in VpResult(vp, opts, seen).value.effectiveScopes <==> HeldAndGranted(st, input, now, x) {
        WorthOfOwn(st, input, now, x);
        assert forall vc, g :: WorthThrough(c, vc, g, x) ==> ChainStands(vc, judge) && judge(g).None?;
      }
    }
  }

  // ---- Onboarding is enough to be consented to ----------------------------------

  /** The service may ask: it is enrolled, the agent is onboarded, and everything
      asked for beyond the terms is among `held`. */
  ghost predicate MayAsk(dir: Directory, input: GrantInput, held: seq<Scope>) {
    && DelegationTerms.GoodRequest(input) && DelegationTerms.Serving(dir, input.serviceDid)
    && input.agentDid in dir.keys && dir.keys[input.agentDid].owner.AgentKey?
    && (forall x :: x in input.scopes && x != ACCEPT_TERMS ==> x in held)
    && (exists x :: x in input.scopes && x != ACCEPT_TERMS)
  }

  lemma HeldMayBeGranted(dir: Directory, st: Store, input: GrantInput, now: int, vc: Credential)
    requires MayAsk(dir, input, ScopesOf(vc)) && !Delegated(vc) && vc in ActiveAgentVCs(st, input.agentDid, now)
    ensures GrantScopes(dir, st, input, now).Ok?
  {
    var own := OwnVCs(st, input.agentDid, now);
    DelegationTerms.RequestFault(dir, input);
    assert vc in own;
    var held := UnionOfScopes([], own);
    var scopes := Scopes.NormalizeScopes(input.scopes);
    NonEmptyHasMember(Filter(s => s != ACCEPT_TERMS && s !in held, scopes));
    var x :| x in input.scopes && x != ACCEPT_TERMS;
    assert x in Filter(s => s != ACCEPT_TERMS, scopes);
  }

  /** In any state the platform reaches, issuing an agent its own credential succeeds
      on the checks of issueVC alone, and from then on, while the credential lasts,
      a service may be granted any of its scopes as soon as the list has room. */
  lemma OnboardedCanConsent(cfg: Platform, dir: Directory, s: Sys, p: IssueParams, at: int, id: VcId,
                            input: GrantInput, now: int, grantId: VcId)
    requires Inv(cfg, s.store) && id !in s.store.vcs && RoomLeft(s.store)
    requires LifecycleTerms.WellAsked(p) && LifecycleTerms.GoodScopes(LifecycleTerms.Asked(p))
    requires p.subjectType.AgentSubject? && !Truthy(p.delegatedFrom)
    requires p.subjectDid == input.agentDid && MayAsk(dir, input, p.privilegeScopes.GetOr([]))
    requires ExpiresAt(p.expiry, at).Some? ==> ExpiresAt(p.expiry, at).value > now
    requires var onboarded := IssueVC(cfg, s, p, true, true, at, id).sys;
             grantId !in onboarded.store.vcs && RoomLeft(onboarded.store)
    ensures var onboarded := IssueVC(cfg, s, p, true, true, at, id);
            && onboarded.result.Ok?
            && ConsentOutcome(cfg, dir, onboarded.sys, input, true, now, grantId).result.Ok?
  {
    LifecycleTerms.IssueFaultIs(p, true);
    IssueSucceedsIff(cfg, s, p, true, true, at, id);
    IssueKeeps(cfg, s, p, true, true, at, id);
    var onboarded := IssueVC(cfg, s, p, true, true, at, id);
    IssuedIsOwn(cfg, p, onboarded.result.value.statusListIndex, at, id);
    assert StoredActive(onboarded.sys.store, id, onboarded.result.value.vc, now);
    AgentVCsAre(onboarded.sys.store, input.agentDid, now, onboarded.result.value.vc);
    HeldMayBeGranted(dir, onboarded.sys.store, input, now, onboarded.result.value.vc);
    ConsentSucceedsIff(cfg, dir, onboarded.sys, input, true, now, grantId);
  }

  lemma IssuedIsOwn(cfg: Platform, p: IssueParams, index: nat, at: int, id: VcId)
    requires p.subjectType.AgentSubject? && !Truthy(p.delegatedFrom)
    ensures var vc := IssuedCredential(cfg, p, index, at, id);
            && IsAgentType(vc) && !Delegated(vc) && ScopesOf(vc) == p.privilegeScopes.GetOr([])
            && vc.body.subject.id == p.subjectDid && vc.body.validUntil == ExpiresAt(p.expiry, at)
  {
  }

  // ---- How long what is issued lasts ----------------------------------------

  const DAY_MS := 24 * 60 * 60 * 1000

  /** A standing grant is inside its window for 3650 days, a session grant for one,
      the first instant included and the last not. */
  lemma GrantWindow(cfg: Platform, input: GrantInput, scopes: seq<Scope>, wallet: Wallet, index: nat, now: int,
                    id: VcId, t: int)
    ensures ValidityFault(GrantCredential(cfg, input, scopes, wallet, index, now, id), t).None? <==>
            now <= t < now + (match input.durability case Standing => 3650 case Session => 1) * DAY_MS
  {
  }

  lemma DelegationWindow(o: DelegateOptions, wallet: Wallet, now: int, id: VcId, t: int)
    requires BuildDelegationVC(o, wallet, now, id).Ok?
    ensures ValidityFault(BuildDelegationVC(o, wallet, now, id).value, t).None? <==> now <= t < now + o.expiresIn * 1000
  {
  }

  /** An issued credential lasts as asked: for ever, until a time, for some seconds,
      or for 90 days when no number of seconds, or zero, is given. */
  lemma IssuedWindow(cfg: Platform, p: IssueParams, index: nat, now: int, id: VcId, t: int)
    ensures ValidityFault(IssuedCredential(cfg, p, index, now, id), t).None? <==>
            now <= t && match p.expiry
                        case Never => true
                        case At(time) => t < time
                        case FromSeconds(None) => t < now + 90 * DAY_MS
                        case FromSeconds(Some(n)) => if n == 0 then t < now + 90 * DAY_MS else t < now + n * 1000
  {
  }
}
