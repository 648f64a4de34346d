/** On which terms authority is handed on, by delegation and by consent, and what is made
    then: read off the request, the rows, the keys and the clock alone. */
module DelegationTerms {
  import opened Common
  import opened Ordering
  import opened Credentials
  import opened Delegation
  import opened VcStore
  import opened VcLifecycle
  import opened VcInvariants
  import opened AgentFlows
  import opened ServiceFlows
  import opened LifecycleTerms
  import opened Success
  import VerifierMeaning
  import Scopes

  // ---- Rows --------------------------------------------------------------------------

  /** The row is a live agent credential about this DID. */
  predicate HoldsAgent(st: Store, id: VcId, did: Did, now: int) {
    && id in st.vcs && Live(st.vcs[id], now) && st.vcs[id].subjectDid == did
    && "HelixAgentCredential" in st.vcs[id].vc.body.types
  }

  /** It has all these scopes, and a step of depth left. */
  predicate Covers(c: Credential, scopes: seq<Scope>) {
    && (forall s :: s in scopes ==> s in VerifierMeaning.Held(c))
    && VerifierMeaning.Number(c.body.subject.delegationDepth) + 1
       <= VerifierMeaning.Number(c.body.subject.maxDelegationDepth)
  }

  lemma AgentRows(st: Store, did: Did, now: int, id: VcId)
    requires WellKept(st)
    ensures id in ActiveBySubject(st, did, AGENT_TYPE, now) <==> HoldsAgent(st, id, did, now)
  {
  }

  lemma AgentHeld(st: Store, did: Did, now: int, c: Credential)
    requires WellKept(st)
    ensures c in ActiveAgentVCs(st, did, now) <==> exists id :: HoldsAgent(st, id, did, now) && st.vcs[id].vc == c
  {
    var ids := ActiveBySubject(st, did, AGENT_TYPE, now);
    if c in ActiveAgentVCs(st, did, now) {
      var i :| 0 <= i < |ids| && CredentialsAt(st, ids)[i] == c;
      assert ids[i] in ids;
      AgentRows(st, did, now, ids[i]);
    }
    if id :| HoldsAgent(st, id, did, now) && st.vcs[id].vc == c {
      AgentRows(st, did, now, id);
      var i :| 0 <= i < |ids| && ids[i] == id;
      assert CredentialsAt(st, ids)[i] == c;
    }
  }

  lemma SomeAgentHeld(st: Store, did: Did, now: int)
    requires WellKept(st)
    ensures ActiveAgentVCs(st, did, now) != [] <==> exists id :: HoldsAgent(st, id, did, now)
  {
    var vcs := ActiveAgentVCs(st, did, now);
    if vcs != [] {
      assert vcs[0] in vcs;
      AgentHeld(st, did, now, vcs[0]);
    }
    if id :| HoldsAgent(st, id, did, now) {
      AgentHeld(st, did, now, st.vcs[id].vc);
    }
  }

  lemma CoversIsEligible(c: Credential, scopes: seq<Scope>)
    ensures Covers(c, scopes) <==> Eligible(c, scopes)
  {
    assert forall i :: 0 <= i < |scopes| ==> scopes[i] in scopes;
    if Eligible(c, scopes) {
      forall s | s in scopes ensures s in VerifierMeaning.Held(c) {
        var i :| 0 <= i < |scopes| && scopes[i] == s;
      }
    }
  }

  // ---- The credential delegated from ---------------------------------------------------

  /** The ids whose credentials pass. */
  function Passing(st: Store, ids: seq<VcId>, p: Credential -> bool): (r: seq<VcId>)
    ensures forall id :: id in r <==> id in ids && id in st.vcs && p(st.vcs[id].vc)
  {
    Filter(id => id in st.vcs && p(st.vcs[id].vc), ids)
  }

  lemma OneMoreAt(st: Store, id: VcId, ids: seq<VcId>)
    requires id in st.vcs && forall x :: x in ids ==> x in st.vcs
    ensures forall x :: x in [id] + ids ==> x in st.vcs
    ensures CredentialsAt(st, [id] + ids) == [st.vcs[id].vc] + CredentialsAt(st, ids)
  {
  }

  lemma {:induction false} PassingOnes(st: Store, ids: seq<VcId>, p: Credential -> bool)
    requires forall id :: id in ids ==> id in st.vcs
    ensures Filter(p, CredentialsAt(st, ids)) == CredentialsAt(st, Passing(st, ids, p))
  {
    if ids == [] {
      assert CredentialsAt(st, ids) == [];
    } else {
      assert ids == [ids[0]] + ids[1..] && ids[0] in ids;
      PassingOnes(st, ids[1..], p);
      OneMoreAt(st, ids[0], ids[1..]);
      assert CredentialsAt(st, ids)[1..] == CredentialsAt(st, ids[1..]);
      if p(st.vcs[ids[0]].vc) {
        OneMoreAt(st, ids[0], Passing(st, ids[1..], p));
      }
    }
  }

  /** The row a delegation is made from: the one asked for, else the only one that covers. */
  ghost predicate From(st: Store, input: DelegateInput, now: int, id: VcId) {
    && HoldsAgent(st, id, input.did, now)
    && (VerifierMeaning.Given(input.vcId) ==> input.vcId == Some(id))
    && (!VerifierMeaning.Given(input.vcId) ==>
          && Covers(st.vcs[id].vc, input.scopes)
          && forall other :: HoldsAgent(st, other, input.did, now) && Covers(st.vcs[other].vc, input.scopes) ==>
               other == id)
  }

  /** Nothing was asked for and more than one covers. */
  ghost predicate Undecided(st: Store, input: DelegateInput, now: int) {
    && !VerifierMeaning.Given(input.vcId)
    && exists a, b ::
         && a != b && HoldsAgent(st, a, input.did, now) && HoldsAgent(st, b, input.did, now)
         && Covers(st.vcs[a].vc, input.scopes) && Covers(st.vcs[b].vc, input.scopes)
  }

  lemma CoveringRows(st: Store, did: Did, scopes: seq<Scope>, now: int) returns (ids: seq<VcId>)
    requires WellKept(st)
    ensures NoDup(ids)
    ensures forall id :: id in ids <==> HoldsAgent(st, id, did, now) && Covers(st.vcs[id].vc, scopes)
    ensures ids != [] ==> ids[0] in st.vcs
    ensures ResolveDelegationSource(ActiveAgentVCs(st, did, now), scopes)
         == if |ids| == 0 then Ok(None) else if |ids| == 1 then Ok(Some(st.vcs[ids[0]].vc)) else Err(MultipleActiveVc)
  {
    var all, p := ActiveBySubject(st, did, AGENT_TYPE, now), (vc: Credential) => Eligible(vc, scopes);
    ids := Passing(st, all, p);
    PassingOnes(st, all, p);
    ActiveNoDup(st, did, now);
    FilterNoDup(id => id in st.vcs && p(st.vcs[id].vc), all);
    forall id
      ensures id in all <==> HoldsAgent(st, id, did, now)
      ensures id in st.vcs ==> (p(st.vcs[id].vc) <==> Covers(st.vcs[id].vc, scopes))
    {
      AgentRows(st, did, now, id);
      if id in st.vcs {
        CoversIsEligible(st.vcs[id].vc, scopes);
      }
    }
    if ids != [] {
      assert ids[0] in ids;
    }
    FilterSame(p, vc => Eligible(vc, scopes), ActiveAgentVCs(st, did, now));
  }

  lemma ActiveNoDup(st: Store, did: Did, now: int)
    requires WellKept(st)
    ensures NoDup(ActiveBySubject(st, did, AGENT_TYPE, now))
  {
    var p := (r: VcRecord) => r.subjectDid == did && IsActive(r, now) && AGENT_TYPE in r.vc.body.types;
    FilterNoDup(id => id in st.vcs && p(st.vcs[id]), st.order);
  }

  lemma SourceMeans(st: Store, input: DelegateInput, now: int)
    requires WellKept(st)
    ensures var source := DelegationSource(st, input, now);
            && (forall id :: From(st, input, now, id) ==> source == Ok(Some(st.vcs[id].vc)))
            && (source.Ok? && source.value.Some? ==> exists id :: From(st, input, now, id))
            && (source.Err? <==> Undecided(st, input, now))
            && (source.Err? ==> source.error == MultipleActiveVc)
  {
    if !VerifierMeaning.Given(input.vcId) {
      var ids := CoveringRows(st, input.did, input.scopes, now);
      if |ids| == 1 {
        assert ids[0] in ids;
        assert From(st, input, now, ids[0]);
      } else if |ids| > 1 {
        assert ids[0] in ids && ids[1] in ids && ids[0] != ids[1];
      }
    } else if HoldsAgent(st, input.vcId.value, input.did, now) {
      assert From(st, input, now, input.vcId.value);
    }
  }

  // ---- delegateAuthority ---------------------------------------------------------------

  /** The row carries the scopes in a list of its own and covers them. */
  predicate Grants(c: Credential, scopes: seq<Scope>) {
    c.body.subject.privilegeScopes.Some? && Covers(c, scopes)
  }

  /** An agent onboarded here with a live credential. */
  ghost predicate ActiveAgent(dir: Directory, st: Store, did: Did, now: int) {
    did in dir.keys && dir.keys[did].owner.AgentKey? && exists id :: HoldsAgent(st, id, did, now)
  }

  /** What comes of building on this credential. */
  ghost predicate BuiltOn(c: Credential, scopes: seq<Scope>, r: Result<DelegationMade, Error>) {
    var held := VerifierMeaning.Held(c);
    if c.body.subject.privilegeScopes.None? then r == Err(ScopeEscalationDenied("credential has no privilege scopes"))
    else if exists s :: s in scopes && s !in held
    then exists k :: 0 <= k < |scopes| && VerifierMeaning.MissingAt(held, scopes, k)
                     && r == Err(ScopeEscalationDenied(scopes[k]))
    else if !Covers(c, scopes) then r == Err(MaxDelegationDepthExceeded)
    else r.Ok?
  }

  lemma DelegateFromErrors(cfg: Platform, dir: Directory, s: Sys, input: DelegateInput, c: Credential, now: int,
                           id: VcId)
    requires Inv(cfg, s.store) && id !in s.store.vcs && input.did in dir.keys
    ensures var r := DelegateFrom(cfg, dir, s, input, c, now, id).result;
            if !Room(s.store) then r == Err(StatusListIndexExhausted)
            else if input.to == input.did then r == Err(SelfDelegationNotAllowed(input.did))
            else BuiltOn(c, input.scopes, r)
  {
    DelegateFromSucceedsIff(cfg, dir, s, input, c, now, id);
    VerifierMeaning.FirstMissingAt(ScopesOf(c), input.scopes);
  }

  /** And what it comes to, the first that applies. */
  lemma DelegateErrors(cfg: Platform, dir: Directory, s: Sys, input: DelegateInput, now: int, id: VcId)
    requires Inv(cfg, s.store) && id !in s.store.vcs
    ensures var r, st := DelegateOutcome(cfg, dir, s, input, now, id).result, s.store;
            if input.did !in dir.keys then r == Err(AgentKeyNotFound(input.did))
            else if Undecided(st, input, now) then r == Err(MultipleActiveVc)
            else if forall at :: !From(st, input, now, at) then r == Err(AgentActiveCredentialNotFound(input.did))
            else if !ActiveAgent(dir, st, input.to, now) then r == Err(DelegateeNotAnAgent(input.to))
            else if !Room(st) then r == Err(StatusListIndexExhausted)
            else if input.to == input.did then r == Err(SelfDelegationNotAllowed(input.did))
            else exists at :: From(st, input, now, at) && BuiltOn(st.vcs[at].vc, input.scopes, r)
  {
    SourceMeans(s.store, input, now);
    SomeAgentHeld(s.store, input.to, now);
    if input.did in dir.keys {
      if at :| From(s.store, input, now, at) {
        DelegateFromErrors(cfg, dir, s, input, s.store.vcs[at].vc, now, id);
      }
    }
  }

  /** A delegation is made exactly on these terms. */
  lemma DelegateTerms(cfg: Platform, dir: Directory, s: Sys, input: DelegateInput, now: int, id: VcId)
    requires Inv(cfg, s.store) && id !in s.store.vcs
    ensures DelegateOutcome(cfg, dir, s, input, now, id).result.Ok? <==>
            && input.did in dir.keys
            && (exists at :: From(s.store, input, now, at) && Grants(s.store.vcs[at].vc, input.scopes))
            && ActiveAgent(dir, s.store, input.to, now)
            && input.to != input.did && Room(s.store)
  {
    DelegateErrors(cfg, dir, s, input, now, id);
    if a, b :| From(s.store, input, now, a) && From(s.store, input, now, b) {
      assert a == b;
    }
  }

  /** `c` hands the scopes of the request down from `parent`, signed by the delegator. */
  predicate HandsDown(c: Credential, parent: Credential, input: DelegateInput, sign: Body -> Proof, now: int) {
    var subject := c.body.subject;
    && c.proof == Some(sign(c.body))
    && c.body.issuer == input.did && c.body.types == ["VerifiableCredential", "HelixAgentCredential"]
    && c.body.validFrom == Some(now) && c.body.validUntil == Some(now + 1000 * input.expiresIn)
    && c.body.chain == parent.body.chain + [parent] && c.body.targetService.None?
    && subject.id == input.to && subject.privilegeScopes == Some(input.scopes)
    && subject.delegatedFrom == Some(input.did) && subject.parentVcId == Some(parent.body.id)
    && subject.delegationDepth == Some(VerifierMeaning.Number(parent.body.subject.delegationDepth) + 1)
    && subject.maxDelegationDepth == Some(VerifierMeaning.Number(parent.body.subject.maxDelegationDepth))
  }

  lemma BuiltHandsDown(cfg: Platform, dir: Directory, input: DelegateInput, parent: Credential, index: int, now: int,
                       id: VcId)
    requires input.did in dir.keys
    requires var o := DelegateOptions(input.to, input.scopes, input.expiresIn, parent, Some(EntryAt(cfg, index)));
             BuildDelegationVC(o, WalletOf(dir, input.did), now, id).Ok?
    ensures var o := DelegateOptions(input.to, input.scopes, input.expiresIn, parent, Some(EntryAt(cfg, index)));
            var c := BuildDelegationVC(o, WalletOf(dir, input.did), now, id).value;
            var row := SignedRow(cfg, c);
            && HandsDown(c, parent, input, dir.keys[input.did].sign, now)
            && c.body.id == id && c.body.status == Some(EntryAt(cfg, index))
            && StoredAs(row, c, index) && row.parentVcId == Some(parent.body.id)
            && row.privilegeScopes == Some(input.scopes)
  {
  }

  lemma DelegateFromMakes(cfg: Platform, dir: Directory, s: Sys, input: DelegateInput, parent: Credential, now: int,
                          id: VcId)
    requires Inv(cfg, s.store) && id !in s.store.vcs && input.did in dir.keys
    requires DelegateFrom(cfg, dir, s, input, parent, now, id).result.Ok?
    ensures var o := DelegateFrom(cfg, dir, s, input, parent, now, id);
            var c := o.result.value.vc;
            && c.body.id == id && c.body.status == Some(EntryAt(cfg, NextIndex(s.store)))
            && HandsDown(c, parent, input, dir.keys[input.did].sign, now)
            && o.sys.store.vcs.Keys == s.store.vcs.Keys + {id}
            && StoredAs(o.sys.store.vcs[id], c, NextIndex(s.store))
            && o.sys.store.vcs[id].parentVcId == Some(parent.body.id)
            && o.sys.store.vcs[id].privilegeScopes == Some(input.scopes)
            && o.sys.store.list.Some? && o.sys.store.list.value.nextIndex == NextIndex(s.store) + 1
  {
    ClaimSucceedsIff(cfg, s, now);
    EntryIs(cfg, NextIndex(s.store));
    BuiltHandsDown(cfg, dir, input, parent, NextIndex(s.store), now, id);
    var o := DelegateOptions(input.to, input.scopes, input.expiresIn, parent,
                             Some(EntryAt(cfg, NextIndex(s.store))));
    var built := BuildDelegationVC(o, WalletOf(dir, input.did), now, id).value;
    ClaimAndStore(cfg, s, SignedRow(cfg, built), input.revokeExisting, now);
  }

  /** The credential made hands down from the row of the terms, and is stored with it as its
      parent. */
  lemma DelegationMeans(cfg: Platform, dir: Directory, s: Sys, input: DelegateInput, now: int, id: VcId)
    requires Inv(cfg, s.store) && id !in s.store.vcs
    requires DelegateOutcome(cfg, dir, s, input, now, id).result.Ok?
    ensures var o := DelegateOutcome(cfg, dir, s, input, now, id);
            var c, st := o.result.value.vc, o.sys.store;
            && (exists at :: From(s.store, input, now, at) && st.vcs.Keys == s.store.vcs.Keys + {id}
                  && HandsDown(c, s.store.vcs[at].vc, input, dir.keys[input.did].sign, now)
                  && st.vcs[id].parentVcId == Some(at) && c.body.subject.parentVcId == Some(at))
            && c.body.id == id && c.body.status == Some(EntryAt(cfg, NextIndex(s.store)))
            && StoredAs(st.vcs[id], c, NextIndex(s.store)) && st.vcs[id].privilegeScopes == Some(input.scopes)
            && st.list.Some? && st.list.value.nextIndex == NextIndex(s.store) + 1
  {
    DelegateTerms(cfg, dir, s, input, now, id);
    SourceMeans(s.store, input, now);
    var at :| From(s.store, input, now, at);
    DelegateFromMakes(cfg, dir, s, input, s.store.vcs[at].vc, now, id);
  }

  // ---- issueDelegationGrant ------------------------------------------------------------------

  /** A live agent credential about this DID that nobody delegated. */
  predicate HoldsOwn(st: Store, id: VcId, did: Did, now: int) {
    HoldsAgent(st, id, did, now) && !VerifierMeaning.Given(st.vcs[id].vc.body.subject.delegatedFrom)
  }

  ghost predicate HeldAsOwn(st: Store, did: Did, now: int, x: Scope) {
    exists id :: HoldsOwn(st, id, did, now) && x in VerifierMeaning.Held(st.vcs[id].vc)
  }

  predicate GoodRequest(input: GrantInput) {
    && input.scopes != [] && GoodScopes(input.scopes)
    && "did:" <= input.userDid && "did:" <= input.agentDid && input.agentDid != input.serviceDid
  }

  predicate Serving(dir: Directory, service: Did) {
    && service in dir.services && dir.services[service].None?
    && service in dir.keys && dir.keys[service].owner.ServiceKey?
  }

  predicate Onboarded(dir: Directory, agent: Did) {
    agent in dir.keys && dir.keys[agent].owner.AgentKey?
  }

  lemma OwnIsRow(st: Store, did: Did, now: int, c: Credential)
    requires WellKept(st)
    ensures c in OwnVCs(st, did, now) <==> exists id :: HoldsOwn(st, id, did, now) && st.vcs[id].vc == c
  {
    AgentHeld(st, did, now, c);
  }

  lemma SomeOwn(st: Store, did: Did, now: int)
    requires WellKept(st)
    ensures OwnVCs(st, did, now) != [] <==> exists id :: HoldsOwn(st, id, did, now)
  {
    var own := OwnVCs(st, did, now);
    if own != [] {
      assert own[0] in own;
      OwnIsRow(st, did, now, own[0]);
    }
    if id :| HoldsOwn(st, id, did, now) {
      OwnIsRow(st, did, now, st.vcs[id].vc);
    }
  }

  lemma OwnScope(st: Store, did: Did, now: int, x: Scope)
    requires WellKept(st)
    ensures x in UnionOfScopes([], OwnVCs(st, did, now)) <==> HeldAsOwn(st, did, now, x)
  {
    var own := OwnVCs(st, did, now);
    if x in UnionOfScopes([], own) {
      var c :| c in own && x in ScopesOf(c);
      OwnIsRow(st, did, now, c);
    }
    if HeldAsOwn(st, did, now, x) {
      var id :| HoldsOwn(st, id, did, now) && x in VerifierMeaning.Held(st.vcs[id].vc);
      OwnIsRow(st, did, now, st.vcs[id].vc);
    }
  }

  lemma GrantableAre(held: seq<Scope>, asked: seq<Scope>)
    ensures var r := GrantableScopes(held, asked);
            if exists x :: x in asked && x != "accept-terms" && x !in held then r == Err(ConsentScopesNotHeld)
            else if forall x :: x in asked ==> x == "accept-terms" then r == Err(ConsentNoGrantableScopes)
            else r == Ok(Scopes.NormalizeScopes(asked))
  {
    var scopes := Scopes.NormalizeScopes(asked);
    var missing, more := Filter(s => s != ACCEPT_TERMS && s !in held, scopes), Filter(s => s != ACCEPT_TERMS, scopes);
    if missing != [] {
      assert missing[0] in missing;
    }
    if x :| x in asked && x != ACCEPT_TERMS && x !in held {
      assert x in missing;
    }
    if more != [] {
      assert more[0] in more;
    }
    if x :| x in asked && x != ACCEPT_TERMS {
      assert x in more;
    }
  }

  lemma RequestFault(dir: Directory, input: GrantInput)
    ensures var fault, service := GrantFault(dir, input), input.serviceDid;
            if !GoodRequest(input) then fault == Some(ValidationError)
            else if service !in dir.services then fault == Some(ServiceNotFound(service))
            else if dir.services[service].Some? then fault == Some(ServiceRevoked(service))
            else if !Serving(dir, service) then fault == Some(ServiceKeyNotFound(service))
            else fault.None?
  {
    GoodScopesAre(input.scopes);
  }

  lemma AgentScopesAre(dir: Directory, st: Store, did: Did, now: int)
    requires WellKept(st) && "did:" <= did
    ensures var r := AgentScopes(dir, st, did, now);
            if !Onboarded(dir, did) then r == Err(DelegateeNotAnAgent(did))
            else if forall own :: !HoldsOwn(st, own, did, now) then r == Err(AgentActiveCredentialNotFound(did))
            else r.Ok? && forall x :: x in r.value <==> HeldAsOwn(st, did, now, x)
  {
    SomeOwn(st, did, now);
    forall x ensures x in UnionOfScopes([], OwnVCs(st, did, now)) <==> HeldAsOwn(st, did, now, x) {
      OwnScope(st, did, now, x);
    }
  }

  /** What getAgentScopes answers: the scopes of the credentials the agent holds as itself. */
  lemma AgentScopesTerms(dir: Directory, st: Store, did: Did, now: int)
    requires WellKept(st)
    ensures var r := AgentScopes(dir, st, did, now);
            && (r.Ok? <==> "did:" <= did && Onboarded(dir, did) && exists own :: HoldsOwn(st, own, did, now))
            && (r.Ok? ==> forall x :: x in r.value <==> HeldAsOwn(st, did, now, x))
            && (!("did:" <= did) ==> r == Err(ValidationError))
  {
    if "did:" <= did {
      AgentScopesAre(dir, st, did, now);
    }
  }

  lemma GrantScopesAre(dir: Directory, st: Store, input: GrantInput, now: int)
    requires WellKept(st)
    ensures var r, service, agent := GrantScopes(dir, st, input, now), input.serviceDid, input.agentDid;
            if !GoodRequest(input) then r == Err(ValidationError)
            else if service !in dir.services then r == Err(ServiceNotFound(service))
            else if dir.services[service].Some? then r == Err(ServiceRevoked(service))
            else if !Serving(dir, service) then r == Err(ServiceKeyNotFound(service))
            else if !Onboarded(dir, agent) then r == Err(DelegateeNotAnAgent(agent))
            else if forall own :: !HoldsOwn(st, own, agent, now) then r == Err(AgentActiveCredentialNotFound(agent))
            else if exists x :: x in input.scopes && x != "accept-terms" && !HeldAsOwn(st, agent, now, x)
            then r == Err(ConsentScopesNotHeld)
            else if forall x :: x in input.scopes ==> x == "accept-terms" then r == Err(ConsentNoGrantableScopes)
            else r == Ok(Scopes.NormalizeScopes(input.scopes))
  {
    RequestFault(dir, input);
    if GoodRequest(input) && Serving(dir, input.serviceDid) {
      AgentScopesAre(dir, st, input.agentDid, now);
      var held := AgentScopes(dir, st, input.agentDid, now);
      if held.Ok? {
        GrantableAre(held.value, input.scopes);
      }
    }
  }

  lemma GrantFromErrors(cfg: Platform, dir: Directory, s: Sys, input: GrantInput, scopes: seq<Scope>, known: bool,
                        now: int, id: VcId)
    requires Inv(cfg, s.store) && id !in s.store.vcs && input.serviceDid in dir.keys
    ensures var r := GrantFrom(cfg, dir, s, input, scopes, known, now, id).result;
            if !Room(s.store) then r == Err(StatusListIndexExhausted)
            else if !known then r == Err(VcSubjectDidNotFound)
            else r.Ok?
  {
    GrantFromSucceedsIff(cfg, dir, s, input, scopes, known, now, id);
  }

  /** What a service's consent comes to, the first that applies. */
  lemma ConsentErrors(cfg: Platform, dir: Directory, s: Sys, input: GrantInput, known: bool, now: int, id: VcId)
    requires Inv(cfg, s.store) && id !in s.store.vcs
    ensures var r, st := ConsentOutcome(cfg, dir, s, input, known, now, id).result, s.store;
            var service, agent := input.serviceDid, input.agentDid;
            if !GoodRequest(input) then r == Err(ValidationError)
            else if service !in dir.services then r == Err(ServiceNotFound(service))
            else if dir.services[service].Some? then r == Err(ServiceRevoked(service))
            else if !Serving(dir, service) then r == Err(ServiceKeyNotFound(service))
            else if !Onboarded(dir, agent) then r == Err(DelegateeNotAnAgent(agent))
            else if forall own :: !HoldsOwn(st, own, agent, now) then r == Err(AgentActiveCredentialNotFound(agent))
            else if exists x :: x in input.scopes && x != "accept-terms" && !HeldAsOwn(st, agent, now, x)
            then r == Err(ConsentScopesNotHeld)
            else if forall x :: x in input.scopes ==> x == "accept-terms" then r == Err(ConsentNoGrantableScopes)
            else if !Room(st) then r == Err(StatusListIndexExhausted)
            else if !known then r == Err(VcSubjectDidNotFound)
            else r.Ok?
  {
    GrantScopesAre(dir, s.store, input, now);
    var scopes := GrantScopes(dir, s.store, input, now);
    if scopes.Ok? {
      GrantFromErrors(cfg, dir, s, input, scopes.value, known, now, id);
    }
  }

  /** A consent is recorded exactly on these terms. */
  lemma ConsentTerms(cfg: Platform, dir: Directory, s: Sys, input: GrantInput, known: bool, now: int, id: VcId)
    requires Inv(cfg, s.store) && id !in s.store.vcs
    ensures ConsentOutcome(cfg, dir, s, input, known, now, id).result.Ok? <==>
            && GoodRequest(input) && Serving(dir, input.serviceDid) && Onboarded(dir, input.agentDid)
            && (exists own :: HoldsOwn(s.store, own, input.agentDid, now))
            && (forall x :: x in input.scopes && x != "accept-terms" ==> HeldAsOwn(s.store, input.agentDid, now, x))
            && (exists x :: x in input.scopes && x != "accept-terms")
            && Room(s.store) && known
  {
    ConsentErrors(cfg, dir, s, input, known, now, id);
  }

  /** The service's signed word that the agent may act for the user with the scopes, each
      listed once and in order. */
  ghost predicate Consents(c: Credential, input: GrantInput, sign: Body -> Proof, now: int) {
    var subject, claims := c.body.subject, c.body.subject.claims;
    var days := if input.durability.Standing? then 3650 else 1;
    && c.proof == Some(sign(c.body)) && c.body.issuer == input.serviceDid && c.body.chain == []
    && c.body.types == ["VerifiableCredential", "DelegationGrantCredential"]
    && c.body.validFrom == Some(now) && c.body.validUntil == Some(now + days * 24 * 60 * 60 * 1000)
    && subject.id == input.agentDid && subject.privilegeScopes.None? && subject.delegatedFrom.None?
    && claims.fits && claims.userDid == Some(input.userDid) && claims.allowDelegation == input.allowDelegation
    && claims.scopes.Some? && NoDup(claims.scopes.value) && Sorted(LexLess, claims.scopes.value)
    && (forall x :: x in claims.scopes.value <==> x in input.scopes)
  }

  lemma GrantConsents(cfg: Platform, input: GrantInput, wallet: Wallet, index: nat, now: int, id: VcId)
    requires wallet.did == input.serviceDid
    ensures var c := GrantCredential(cfg, input, Scopes.NormalizeScopes(input.scopes), wallet, index, now, id);
            && Consents(c, input, wallet.sign, now)
            && c.body.id == id && c.body.status == Some(EntryAt(cfg, index))
            && StoredAs(GrantRow(c), c, index) && GrantRow(c).parentVcId.None?
            && GrantRow(c).privilegeScopes == c.body.subject.claims.scopes
  {
    Scopes.NormalizedIsSorted(input.scopes);
  }

  lemma GrantFromMakes(cfg: Platform, dir: Directory, s: Sys, input: GrantInput, now: int, id: VcId)
    requires Inv(cfg, s.store) && id !in s.store.vcs && input.serviceDid in dir.keys && Room(s.store)
    ensures var o := GrantFrom(cfg, dir, s, input, Scopes.NormalizeScopes(input.scopes), true, now, id);
            o.result.Ok?
            && var c, st := o.result.value.grant, o.sys.store;
            && Consents(c, input, dir.keys[input.serviceDid].sign, now)
            && c.body.id == id && c.body.status == Some(EntryAt(cfg, NextIndex(s.store)))
            && st.vcs.Keys == s.store.vcs.Keys + {id} && StoredAs(st.vcs[id], c, NextIndex(s.store))
            && st.vcs[id].parentVcId.None? && st.vcs[id].privilegeScopes == c.body.subject.claims.scopes
            && st.list.Some? && st.list.value.nextIndex == NextIndex(s.store) + 1
  {
    var index, wallet := NextIndex(s.store), WalletOf(dir, input.serviceDid);
    GrantConsents(cfg, input, wallet, index, now, id);
    var c := GrantCredential(cfg, input, Scopes.NormalizeScopes(input.scopes), wallet, index, now, id);
    ClaimAndStore(cfg, s, GrantRow(c), input.revokeExisting, now);
  }

  /** What a recorded consent is, and that it is stored. */
  lemma ConsentMeans(cfg: Platform, dir: Directory, s: Sys, input: GrantInput, known: bool, now: int, id: VcId)
    requires Inv(cfg, s.store) && id !in s.store.vcs
    requires ConsentOutcome(cfg, dir, s, input, known, now, id).result.Ok?
    ensures var o := ConsentOutcome(cfg, dir, s, input, known, now, id);
            var c, st := o.result.value.grant, o.sys.store;
            && input.serviceDid in dir.keys && Consents(c, input, dir.keys[input.serviceDid].sign, now)
            && c.body.id == id && c.body.status == Some(EntryAt(cfg, NextIndex(s.store)))
            && st.vcs.Keys == s.store.vcs.Keys + {id} && StoredAs(st.vcs[id], c, NextIndex(s.store))
            && st.vcs[id].parentVcId.None? && st.vcs[id].privilegeScopes == c.body.subject.claims.scopes
            && st.list.Some? && st.list.value.nextIndex == NextIndex(s.store) + 1
  {
    ConsentTerms(cfg, dir, s, input, known, now, id);
    GrantScopesAre(dir, s.store, input, now);
    GrantFromMakes(cfg, dir, s, input, now, id);
  }
}
