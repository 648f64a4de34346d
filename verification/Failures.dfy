/** Inputs and runs on which a property one might expect of the platform fails. */
module Failures {
  import opened Common
  import opened Credentials
  import opened Delegation
  import opened Verifier
  import opened VerifierFormula
  import opened VcStore
  import opened VcLifecycle
  import opened VcInvariants
  import opened AgentFlows
  import opened Presentations
  import opened Acceptance
  import opened Runs
  import opened Rows
  import Cache
  import LifecycleTerms
  import Replacement
  import Scopes
  import StatusList

  // ---- A platform, two agents, and a world in which every proof verifies -----------

  const PLATFORM_DID := "did:p"
  const ALICE := "did:a"
  const BOB := "did:b"
  const SERVICE := "did:s"

  const KEY := KeyRecord(AgentKey, (b: Body) => Proof(""), (b: VpBody) => Proof(""))
  const CFG := Platform(Wallet(PLATFORM_DID, (b: Body) => Proof(""), (b: VpBody) => Proof("")), "", 300,
                        Cache.Lifetimes(5, 300, ""))
  const DIR := Directory(map[ALICE := KEY, BOB := KEY], map[])
  const OPTS := VerifyOptions(None, false)

  function Seeing(st: Store, now: int): World {
    World(now, (d: Did) => true, (d: Did, b: Body, p: Proof) => true, (d: Did, b: VpBody, p: Proof) => true,
          if st.list.Some? then map[ListUrl(CFG) := st.list.value.bits] else map[])
  }

  function AgentVC(id: VcId, issuer: Did, subject: Subject, chain: seq<Credential>,
                   target: Option<string>): Credential {
    Credential(Body(id, [BASE_TYPE, AGENT_TYPE], issuer, None, None, None, subject, chain, target, false),
               Some(Proof("")))
  }

  // ---- An escalation behind an empty scope ------------------------------------------

  const READER := AgentVC("r", PLATFORM_DID,
                          Subject(ALICE, Some(["read"]), None, None, None, Some(0), Some(1), None, NO_CLAIMS), [], None)
  const ADMIN := AgentVC("c", ALICE,
                         Subject(BOB, Some(["", "admin"]), None, None, Some(ALICE), Some(1), Some(1), Some("r"),
                                 NO_CLAIMS),
                         [READER], None)
  const ADMIN_VP := Presentation(VpBody("vp", BOB, [ADMIN], None, None, SERVICE), Proof(""))

  lemma EscalatingChain()
    ensures ChainOf(ADMIN) == [READER, ADMIN]
    ensures FirstMissing(["read"], ["", "admin"]) == Some("")
    ensures ChainResult(ADMIN, OPTS, Seeing(EMPTY_STORE, 0)).Ok?
    ensures IntegrityFault(ChainOf(ADMIN)) == Some(Escalation(""))
  {
    var w := Seeing(EMPTY_STORE, 0);
    var chain := ChainOf(ADMIN);
    assert chain == [READER, ADMIN];
    assert FirstMissing(["read"], ["", "admin"]) == Some("");
    assert VerifyCredential(READER, OPTS, w).Ok? && VerifyCredential(ADMIN, OPTS, w).Ok?;
    assert Threads(READER, ADMIN, 1, 1);
    ChainAcceptedIff(ADMIN, OPTS, w);
  }

  /** The verifier accepts a presentation whose holder was delegated "admin" by an
      agent that holds only "read", and grants it. */
  lemma EmptyScopeHidesEscalation()
    ensures var r := VpResult(ADMIN_VP, OPTS, Seeing(EMPTY_STORE, 0));
            r.Ok? && "admin" in r.value.effectiveScopes && "admin" !in ScopesOf(READER)
  {
    var w := Seeing(EMPTY_STORE, 0);
    var cx := Context(ADMIN_VP.body, OPTS, w);
    EscalatingChain();
    assert Agents(ADMIN_VP.body) == [ADMIN] && Grants(ADMIN_VP.body) == [];
    assert StandsIn(ADMIN, cx);
    var o := AgentOutcome(ADMIN, cx);
    assert TallyAgents(NOTHING_YET, [ADMIN], cx)
           == TallyAgents(AddAgent(NOTHING_YET, ADMIN, o.links, o.warn), [], cx);
    ScopesAreFormula(ADMIN_VP, OPTS, w);
    assert "admin" in ScopesOf(ADMIN);
    assert HeldAmong("admin", Agents(ADMIN_VP.body), cx);
  }

  // ---- Storing what replaces nothing ----------------------------------------------

  /** No active row has the credential's identity. */
  ghost predicate NoSibling(st: Store, vc: Credential, now: int) {
    forall id :: id in st.vcs && id != vc.body.id ==>
      IdentityOf(st.vcs[id]) != IdentityFor(vc) || !IsActive(st.vcs[id], now)
  }

  lemma NothingToReconcile(cfg: Platform, s: Sys, vc: Credential, revokeExisting: bool, now: int)
    requires NoSibling(s.store, vc, now)
    ensures Reconcile(cfg, s, vc, revokeExisting, now) == VcLifecycle.Outcome(s, Ok(Reconciled([], [], [])))
  {
    NonEmptyHasMember(Siblings(s.store, vc, now));
  }

  lemma RegisterAlone(cfg: Platform, s: Sys, row: VcRecord, revokeExisting: bool, now: int)
    requires row.vcId == row.vc.body.id && row.vcId !in s.store.vcs && NoSibling(s.store, row.vc, now)
    ensures Register(cfg, s, row, revokeExisting, now)
            == VcLifecycle.Outcome(s.(store := WithRow(s.store, row)), Ok(Reconciled([], [], [])))
  {
    NothingToReconcile(cfg, s.(store := WithRow(s.store, row)), row.vc, revokeExisting, now);
  }

  /** Issuing, once nothing stands in its way, is claiming, signing and registering. */
  lemma IssueIs(cfg: Platform, s: Sys, p: IssueParams, at: int, id: VcId)
    requires IssueFault(p, true).None?
    requires WithDefaultList(cfg, s, at).store.list.value.nextIndex < StatusList.DEFAULT_BITS
    ensures var ready := WithDefaultList(cfg, s, at);
            var index := ready.store.list.value.nextIndex;
            IssueVC(cfg, s, p, true, true, at, id)
            == StoreIssued(cfg, ready.(store := Claimed(ready.store)), p, IssuedCredential(cfg, p, index, at, id),
                           index, at)
  {
  }

  /** Issuing where no active row has the same identity. */
  lemma IssueAlone(cfg: Platform, s: Sys, ready: Sys, p: IssueParams, at: int, id: VcId, index: nat)
    requires IssueFault(p, true).None? && ready == WithDefaultList(cfg, s, at)
    requires ready.store.list.value.nextIndex == index < StatusList.DEFAULT_BITS && id !in ready.store.vcs
    requires NoSibling(ready.store, IssuedCredential(cfg, p, index, at, id), at)
    ensures var row := IssuedRow(p, IssuedCredential(cfg, p, index, at, id), index);
            IssueVC(cfg, s, p, true, true, at, id).sys == ready.(store := WithRow(Claimed(ready.store), row))
  {
    IssueIs(cfg, s, p, at, id);
    RegisterAlone(cfg, ready.(store := Claimed(ready.store)),
                  IssuedRow(p, IssuedCredential(cfg, p, index, at, id), index), p.revokeExisting, at);
  }

  // ---- A credential bound to another service ------------------------------------------

  const BOUND := AgentVC("x", PLATFORM_DID + "2",
                         Subject(ALICE, Some(["read"]), None, None, None, None, None, None, NO_CLAIMS), [],
                         Some("did:other"))
  const REGISTERED := [Event(External(BOUND, Verified, true, false), 0)]

  lemma RegisteredStore()
    ensures Run(CFG, DIR, Start(false), REGISTERED).store.vcs == map["x" := ExternalRow(BOUND)]
    ensures Run(CFG, DIR, Start(false), REGISTERED).store.order == ["x"]
  {
    var stored := Start(false).(store := WithRow(EMPTY_STORE, ExternalRow(BOUND)));
    assert REGISTERED[..0] == [] && Run(CFG, DIR, Start(false), []) == Start(false);
    assert stored.store.order == ["x"];
    NothingToReconcile(CFG, stored, BOUND, false, 0);
    assert RegisterExternalVC(CFG, Start(false), BOUND, Verified, true, false, 0).sys == stored;
  }

  lemma BoundFacts()
    ensures IsAgentType(BOUND) && !IsGrantType(BOUND) && InOrder(BOUND) && !FitsTarget(BOUND, SERVICE)
    ensures WalkOf(BOUND) == [BOUND] && FaithfulRow(ExternalRow(BOUND))
    ensures forall st: Store :: JudgedBy(OPTS, Seeing(st, 0))(BOUND).None?
  {
    forall st: Store ensures VerifyCredential(BOUND, OPTS, Seeing(st, 0)).Ok? {
    }
  }

  lemma BoundIsStored()
    ensures var st := Run(CFG, DIR, Start(false), REGISTERED).store;
            Faithful(st) && ActiveAgentVCs(st, ALICE, 0) == [BOUND]
  {
    var st := Run(CFG, DIR, Start(false), REGISTERED).store;
    RegisteredStore();
    BoundFacts();
    assert ActiveAgentVCs(st, ALICE, 0) == [BOUND];
  }

  lemma RegisteredRunIsHonest()
    ensures HonestRun(CFG, DIR, Seeing(EMPTY_STORE, 0), REGISTERED, false)
  {
    assert REGISTERED[..0] == [];
  }

  /** What is chosen where the holder has a single agent credential and no user is named. */
  lemma SoleChoice(dir: Directory, st: Store, did: Did, vc: Credential, target: string, now: int, id: string)
    requires Faithful(st) && ActiveAgentVCs(st, did, now) == [vc] && OneKind(vc)
    requires DID_SCHEME <= target && did in dir.keys
    ensures Chosen(st, did, target, None, now) == Ok(Inherited([vc], []))
    ensures SignVp(dir, st, did, target, None, now, id).Ok?
  {
    SignSucceedsIff(dir, st, did, target, None, now, id);
  }

  /** After registering it, signVP still signs for any service, always carrying it, and
      the other services refuse what is signed although everything in it stands. */
  lemma BoundCredentialIsRefused()
    ensures HonestRun(CFG, DIR, Seeing(EMPTY_STORE, 0), REGISTERED, false)
    ensures var st := Run(CFG, DIR, Start(false), REGISTERED).store;
            var vp := SignVp(DIR, st, ALICE, SERVICE, None, 0, "vp");
            && vp.Ok? && AllStand(Chosen(st, ALICE, SERVICE, None, 0).value, JudgedBy(OPTS, Seeing(st, 0)))
            && VpResult(vp.value, OPTS, Seeing(st, 0)).Err?
  {
    RegisteredRunIsHonest();
    BoundIsStored();
    BoundFacts();
    RefusedAlone(Run(CFG, DIR, Start(false), REGISTERED).store, ALICE, BOUND);
  }

  /** A credential that stands but is not in order, or bound elsewhere, sinks what its
      holder signs with it alone. */
  lemma RefusedAlone(st: Store, did: Did, vc: Credential)
    requires Faithful(st) && ActiveAgentVCs(st, did, 0) == [vc] && OneKind(vc) && did in DIR.keys
    requires forall c :: c in WalkOf(vc) ==> JudgedBy(OPTS, Seeing(st, 0))(c).None?
    requires !FitsTarget(vc, SERVICE) || !InOrder(vc)
    ensures var vp := SignVp(DIR, st, did, SERVICE, None, 0, "vp");
            && vp.Ok? && Chosen(st, did, SERVICE, None, 0).Ok?
            && AllStand(Chosen(st, did, SERVICE, None, 0).value, JudgedBy(OPTS, Seeing(st, 0)))
            && VpResult(vp.value, OPTS, Seeing(st, 0)).Err?
  {
    SoleChoice(DIR, st, did, vc, SERVICE, 0, "vp");
    assert vc in [vc];
    SignedVpAccepted(DIR, st, did, SERVICE, None, 0, "vp", OPTS, Seeing(st, 0));
  }

  // ---- A delegation issued without its chain -----------------------------------------

  /** Issued by the platform as delegated from somebody, with no ancestors. */
  const CHAINLESS := IssueParams(ALICE, AgentSubject, Some(["read"]), Some("A"), None, FromSeconds(None), Some("did:z"),
                                 None, None, None, false)
  const ISSUED := [Event(Issue(CHAINLESS, true, true, "d"), 0)]

  /** Issuing first of all puts one row, at index 0, into the store. */
  lemma FirstIssued(cfg: Platform, dir: Directory, p: IssueParams, at: int, id: VcId)
    requires IssueFault(p, true).None?
    ensures var st := Run(cfg, dir, Start(false), [Event(Issue(p, true, true, id), at)]).store;
            && st.vcs == map[id := IssuedRow(p, IssuedCredential(cfg, p, 0, at, id), 0)] && st.order == [id]
            && st.list == Some(StatusEntry(StatusList.Empty(StatusList.DEFAULT_BITS), 1))
  {
    var events := [Event(Issue(p, true, true, id), at)];
    assert events[..0] == [] && Run(cfg, dir, Start(false), []) == Start(false);
    IssueAlone(cfg, Start(false), WithDefaultList(cfg, Start(false), at), p, at, id, 0);
  }

  /** What the row of such a credential says. */
  predicate ChainlessRow(r: VcRecord) {
    var vc := r.vc;
    && FaithfulRow(r) && r.vcId == vc.body.id && IsActive(r, 0) && vc.body.subject.id == ALICE
    && IsAgentType(vc) && OneKind(vc) && Delegated(vc) && vc.body.chain == []
    && vc.proof.Some? && vc.body.subject.privilegeScopes.Some? && vc.body.targetService.None? && !SelfSigned(vc)
    && vc.body.status == Some(EntryOnDefaultList(CFG, 0)) && ValidityFault(vc, 0).None?
  }

  lemma IssuedIsChainless(p: IssueParams, id: VcId)
    requires p.subjectDid == ALICE && p.subjectType.AgentSubject? && p.privilegeScopes.Some?
    requires Truthy(p.delegatedFrom) && p.expiry == FromSeconds(None)
    ensures ChainlessRow(IssuedRow(p, IssuedCredential(CFG, p, 0, 0, id), 0))
    ensures IssuedCredential(CFG, p, 0, 0, id).body.id == id
  {
  }

  lemma ChainlessIssues()
    ensures IssueFault(CHAINLESS, true).None?
  {
    assert Scopes.ScopeProblemOf(["read"]).None?;
  }

  lemma ChainlessIssued() returns (r: VcRecord)
    ensures ChainlessRow(r) && r.vcId == "d"
    ensures var st := Run(CFG, DIR, Start(false), ISSUED).store;
            && st.vcs == map["d" := r] && st.order == ["d"]
            && st.list == Some(StatusEntry(StatusList.Empty(StatusList.DEFAULT_BITS), 1))
  {
    ChainlessIssues();
    IssuedIsChainless(CHAINLESS, "d");
    r := IssuedRow(CHAINLESS, IssuedCredential(CFG, CHAINLESS, 0, 0, "d"), 0);
    FirstIssued(CFG, DIR, CHAINLESS, 0, "d");
  }

  lemma FirstBitClear(st: Store)
    requires st.list == Some(StatusEntry(StatusList.Empty(StatusList.DEFAULT_BITS), 1))
    ensures EntryClear(Seeing(st, 0).lists, EntryOnDefaultList(CFG, 0))
  {
    StatusList.GetBitIsBit(StatusList.Empty(StatusList.DEFAULT_BITS), 0);
  }

  lemma ChainlessStands(st: Store, r: VcRecord)
    requires st.list == Some(StatusEntry(StatusList.Empty(StatusList.DEFAULT_BITS), 1)) && ChainlessRow(r)
    ensures JudgedBy(OPTS, Seeing(st, 0))(r.vc).None?
  {
    FirstBitClear(st);
    assert VerifyCredential(r.vc, OPTS, Seeing(st, 0)).Ok?;
  }

  lemma SoleAgent(st: Store, r: VcRecord)
    requires st.vcs == map["d" := r] && st.order == ["d"] && r.vcId == "d" && ChainlessRow(r)
    ensures Faithful(st) && ActiveAgentVCs(st, ALICE, 0) == [r.vc]
  {
    assert ActiveBySubject(st, ALICE, AGENT_TYPE, 0) == ["d"];
  }

  lemma IssuedRunIsHonest()
    ensures HonestRun(CFG, DIR, Seeing(EMPTY_STORE, 0), ISSUED, false)
  {
    assert ISSUED[..0] == [];
  }

  /** issueVC signs a credential that names a delegator and stores it without a chain.
      From then on signVP carries it and every verifier refuses the presentation,
      although the credential stands by itself and is bound to no service. */
  lemma ChainlessIsRefused() returns (vc: Credential)
    ensures HonestRun(CFG, DIR, Seeing(EMPTY_STORE, 0), ISSUED, false)
    ensures FitsTarget(vc, SERVICE)
    ensures var st := Run(CFG, DIR, Start(false), ISSUED).store;
            var vp := SignVp(DIR, st, ALICE, SERVICE, None, 0, "vp");
            && vp.Ok? && Chosen(st, ALICE, SERVICE, None, 0) == Ok(Inherited([vc], []))
            && AllStand(Inherited([vc], []), JudgedBy(OPTS, Seeing(st, 0)))
            && VpResult(vp.value, OPTS, Seeing(st, 0)) == Err(DelegationChainInvalid(MissingParents))
  {
    IssuedRunIsHonest();
    var r := ChainlessIssued();
    vc := r.vc;
    ChainlessReported(Run(CFG, DIR, Start(false), ISSUED).store, r);
  }

  lemma ChainlessReported(st: Store, r: VcRecord)
    requires st.vcs == map["d" := r] && st.order == ["d"] && r.vcId == "d" && ChainlessRow(r)
    requires st.list == Some(StatusEntry(StatusList.Empty(StatusList.DEFAULT_BITS), 1))
    ensures var vp := SignVp(DIR, st, ALICE, SERVICE, None, 0, "vp");
            && vp.Ok? && Chosen(st, ALICE, SERVICE, None, 0) == Ok(Inherited([r.vc], []))
            && AllStand(Inherited([r.vc], []), JudgedBy(OPTS, Seeing(st, 0)))
            && VpResult(vp.value, OPTS, Seeing(st, 0)) == Err(DelegationChainInvalid(MissingParents))
  {
    SoleAgent(st, r);
    ChainlessStands(st, r);
    SoleChoice(DIR, st, ALICE, r.vc, SERVICE, 0, "vp");
    assert ChainOf(r.vc) == [r.vc];
    MissingParentsReported(st, r);
  }

  lemma MissingParentsReported(st: Store, r: VcRecord)
    requires Faithful(st) && SignVp(DIR, st, ALICE, SERVICE, None, 0, "vp").Ok? && ChainlessRow(r)
    requires Chosen(st, ALICE, SERVICE, None, 0) == Ok(Inherited([r.vc], []))
    ensures VpResult(SignVp(DIR, st, ALICE, SERVICE, None, 0, "vp").value, OPTS, Seeing(st, 0))
            == Err(DelegationChainInvalid(MissingParents))
  {
    var vp := SignVp(DIR, st, ALICE, SERVICE, None, 0, "vp").value;
    var cx := Context(vp.body, OPTS, Seeing(st, 0));
    SignedVpIs(DIR, st, ALICE, SERVICE, None, 0, "vp");
    assert ChainOf(r.vc) == [r.vc];
    assert AgentOutcome(r.vc, cx) == Fatal(DelegationChainInvalid(MissingParents));
    assert EnvelopeFault(vp, OPTS, Seeing(st, 0)).None?;
  }

  // ---- A grant that does not fit its schema -------------------------------------------

  const USER := "did:u"
  const OWN := AgentVC("x", PLATFORM_DID + "2",
                       Subject(ALICE, Some(["read"]), None, None, None, None, None, None, NO_CLAIMS), [], None)
  /** It names the user, the agent and the service, and lacks something else. */
  const MALFORMED := Credential(
    Body("g", [BASE_TYPE, GRANT_TYPE], SERVICE, None, None, None,
         Subject(ALICE, None, None, None, None, None, None, None, Claims(Some(USER), Some(["read"]), None, false)), [],
         None, false),
    Some(Proof("")))
  const OWN_COMES := Event(External(OWN, Verified, true, false), 0)
  const GRANT_COMES := Event(External(MALFORMED, Verified, true, false), 0)
  const BOTH := [OWN_COMES] + [GRANT_COMES]

  lemma ExternalAlone(s: Sys, vc: Credential)
    requires vc.body.id !in s.store.vcs && NoSibling(s.store, vc, 0)
    requires !vc.body.untilUnreadable && vc.body.validUntil.None?
    ensures RegisterExternalVC(CFG, s, vc, Verified, true, false, 0).sys
            == s.(store := WithRow(s.store, ExternalRow(vc)))
  {
    RegisterAlone(CFG, s, ExternalRow(vc), false, 0);
  }

  lemma KindsOf()
    ensures IsAgentType(OWN) && !IsGrantType(OWN) && IsGrantType(MALFORMED) && !IsAgentType(MALFORMED)
    ensures OwnType(MALFORMED.body.types) == Some(GRANT_TYPE) && OwnType(OWN.body.types) == Some(AGENT_TYPE)
    ensures ConsentOf(MALFORMED).None? && InOrder(OWN) && FitsTarget(OWN, SERVICE) && WalkOf(OWN) == [OWN]
  {
    assert |BASE_TYPE| != |GRANT_TYPE| && |BASE_TYPE| == |AGENT_TYPE| && BASE_TYPE[0] != AGENT_TYPE[0];
    assert [BASE_TYPE, GRANT_TYPE][1..] == [GRANT_TYPE] && [BASE_TYPE, AGENT_TYPE][1..] == [AGENT_TYPE];
  }

  lemma BothStand(st: Store)
    ensures JudgedBy(OPTS, Seeing(st, 0))(OWN).None? && JudgedBy(OPTS, Seeing(st, 0))(MALFORMED).None?
  {
    assert VerifyCredential(OWN, OPTS, Seeing(st, 0)).Ok? && VerifyCredential(MALFORMED, OPTS, Seeing(st, 0)).Ok?;
  }

  lemma OwnRegistered()
    ensures HonestRun(CFG, DIR, Seeing(EMPTY_STORE, 0), [OWN_COMES], false)
    ensures Run(CFG, DIR, Start(false), [OWN_COMES]) == Start(false).(store := WithRow(EMPTY_STORE, ExternalRow(OWN)))
  {
    assert [OWN_COMES][..0] == [] && Run(CFG, DIR, Start(false), []) == Start(false);
    ExternalAlone(Start(false), OWN);
  }

  lemma GrantRegistered(before: seq<Event>, w: World)
    requires HonestRun(CFG, DIR, w, before, false) && w == Seeing(EMPTY_STORE, 0)
    requires Run(CFG, DIR, Start(false), before).store == WithRow(EMPTY_STORE, ExternalRow(OWN))
    ensures HonestRun(CFG, DIR, w, before + [GRANT_COMES], false)
    ensures Run(CFG, DIR, Start(false), before + [GRANT_COMES]).store
         == WithRow(WithRow(EMPTY_STORE, ExternalRow(OWN)), ExternalRow(MALFORMED))
  {
    var s := Run(CFG, DIR, Start(false), before);
    assert (before + [GRANT_COMES])[..|before|] == before;
    KindsOf();
    assert s.store.vcs == map["x" := ExternalRow(OWN)];
    ExternalAlone(s, MALFORMED);
  }

  /** The rows of an agent credential and a grant, as registered. */
  predicate TwoRows(st: Store) {
    && st.vcs.Keys == {"x", "g"} && st.order == ["x", "g"]
    && st.vcs["x"] == ExternalRow(OWN) && st.vcs["g"] == ExternalRow(MALFORMED)
  }

  lemma TwoFaithful(st: Store)
    requires TwoRows(st)
    ensures Faithful(st)
  {
  }

  lemma BothListed(st: Store)
    requires TwoRows(st) && Faithful(st)
    ensures OWN in ActiveAgentVCs(st, ALICE, 0) && forall e :: e in ActiveAgentVCs(st, ALICE, 0) ==> e == OWN
    ensures MALFORMED in ListActiveGrants(st, ALICE, SERVICE, USER, 0)
    ensures forall g :: g in ListActiveGrants(st, ALICE, SERVICE, USER, 0) ==> g == MALFORMED
  {
    KindsOf();
    assert StoredActive(st, "x", OWN, 0) && StoredActive(st, "g", MALFORMED, 0);
    forall e ensures e in ActiveAgentVCs(st, ALICE, 0) <==> e == OWN {
      AgentVCsAre(st, ALICE, 0, e);
    }
    forall g ensures g in ListActiveGrants(st, ALICE, SERVICE, USER, 0) <==> g == MALFORMED {
      GrantsAre(st, ALICE, SERVICE, USER, 0, g);
    }
  }

  /** What is chosen is the one credential and the one grant. */
  ghost predicate ChoosesBoth(st: Store) {
    var c := Chosen(st, ALICE, SERVICE, Some(USER), 0);
    && c.Ok? && (forall e :: e in c.value.agentCredentials ==> e == OWN)
    && MALFORMED in c.value.grants && (forall g :: g in c.value.grants ==> g == MALFORMED)
  }

  lemma BothChosen(st: Store)
    requires TwoRows(st)
    ensures Faithful(st) && ChoosesBoth(st)
  {
    TwoFaithful(st);
    BothListed(st);
  }

  lemma MalformedSinks(st: Store)
    requires Faithful(st) && ChoosesBoth(st)
    ensures var vp := SignVp(DIR, st, ALICE, SERVICE, Some(USER), 0, "vp");
            && vp.Ok? && AllStand(Chosen(st, ALICE, SERVICE, Some(USER), 0).value, JudgedBy(OPTS, Seeing(st, 0)))
            && VpResult(vp.value, OPTS, Seeing(st, 0)).Err?
  {
    KindsOf();
    BothStand(st);
    SignSucceedsIff(DIR, st, ALICE, SERVICE, Some(USER), 0, "vp");
    SignedVpAccepted(DIR, st, ALICE, SERVICE, Some(USER), 0, "vp", OPTS, Seeing(st, 0));
  }

  /** A registered grant that names the user but does not fit the grant schema is found
      and carried by signVP, and sinks the presentation although it stands by itself. */
  lemma MalformedGrantIsRefused()
    ensures HonestRun(CFG, DIR, Seeing(EMPTY_STORE, 0), BOTH, false)
    ensures FitsTarget(OWN, SERVICE) && InOrder(OWN)
    ensures var st := Run(CFG, DIR, Start(false), BOTH).store;
            var vp := SignVp(DIR, st, ALICE, SERVICE, Some(USER), 0, "vp");
            && ChoosesBoth(st) && vp.Ok?
            && AllStand(Chosen(st, ALICE, SERVICE, Some(USER), 0).value, JudgedBy(OPTS, Seeing(st, 0)))
            && VpResult(vp.value, OPTS, Seeing(st, 0)).Err?
  {
    KindsOf();
    OwnRegistered();
    GrantRegistered([OWN_COMES], Seeing(EMPTY_STORE, 0));
    BothChosen(Run(CFG, DIR, Start(false), BOTH).store);
    MalformedSinks(Run(CFG, DIR, Start(false), BOTH).store);
  }

  // ---- A refreshed credential before there is a status list -----------------------------

  /** The same again under another id. */
  const REFRESHED := OWN.(body := OWN.body.(id := "y"))

  lemma OwnAlone(st: Store)
    requires st == WithRow(EMPTY_STORE, ExternalRow(OWN))
    ensures Inv(CFG, st) && Faithful(st)
    ensures st.vcs == map["x" := ExternalRow(OWN)] && st.list.None?
  {
    assert forall id :: !Listed(CFG, st, id);
  }

  lemma OwnIsChildless(st: Store)
    requires st.vcs == map["x" := ExternalRow(OWN)]
    ensures Replacement.AllWellScoped(st) && Replacement.WellScoped(REFRESHED)
    ensures !Replacement.HasLiveChild(st, "x", 0)
  {
    assert LifecycleTerms.GoodScope("read");
  }

  lemma OwnIsIdentified()
    ensures Replacement.Identified(REFRESHED) && Replacement.SameParties(OWN, REFRESHED)
    ensures Replacement.SameScopeSet(OWN, REFRESHED)
  {
    KindsOf();
    Replacement.OwnTypeMeans(OWN.body.types);
  }

  /** Registering a credential that is in order fails for want of a status list where it
      would refresh one registered before, and is stored all the same. */
  lemma RefreshBeforeListFails()
    ensures HonestRun(CFG, DIR, Seeing(EMPTY_STORE, 0), [OWN_COMES], false)
    ensures var s := Run(CFG, DIR, Start(false), [OWN_COMES]);
            var o := RegisterExternalVC(CFG, s, REFRESHED, Verified, true, false, 0);
            && o.result == Err(StatusListMissing)
            && "y" in o.sys.store.vcs && o.sys.store.vcs["y"].vc == REFRESHED && o.sys.store.vcs["y"].revokedAt.None?
  {
    var s := Run(CFG, DIR, Start(false), [OWN_COMES]);
    OwnRegistered();
    OwnAlone(s.store);
    OwnIsChildless(s.store);
    OwnIsIdentified();
    assert Replacement.Rival(s.store, REFRESHED, false, 0, "x");
    Replacement.ExternalTerms(CFG, s, REFRESHED, Verified, true, false, 0);
  }
}
