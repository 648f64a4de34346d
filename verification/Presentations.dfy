/** What signVP puts into a presentation: the stored credentials and grants it finds,
    and when it can sign them. */
module Presentations {
  import opened Common
  import opened Credentials
  import opened VerifierFormula
  import opened VcStore
  import opened VcLifecycle
  import opened VcInvariants
  import opened AgentFlows

  /** The row says of its credential what the credential says. */
  predicate FaithfulRow(r: VcRecord) {
    && r.subjectDid == r.vc.body.subject.id
    && r.columns == LookupColumns(r.vc)
    && r.expiresAt == r.vc.body.validUntil
  }

  ghost predicate Faithful(st: Store) {
    WellKept(st) && forall id :: id in st.vcs ==> FaithfulRow(st.vcs[id])
  }

  predicate StoredActive(st: Store, id: VcId, e: Credential, now: int) {
    id in st.vcs && st.vcs[id].vc == e && IsActive(st.vcs[id], now)
  }

  // ---- What the queries return ---------------------------------------------

  lemma AgentVCsAre(st: Store, did: Did, now: int, e: Credential)
    requires WellKept(st)
    ensures e in ActiveAgentVCs(st, did, now) <==>
            exists id :: StoredActive(st, id, e, now) && st.vcs[id].subjectDid == did && IsAgentType(e)
  {
  }

  lemma GrantsAre(st: Store, agent: Did, service: Did, user: string, now: int, g: Credential)
    requires Faithful(st)
    ensures g in ListActiveGrants(st, agent, service, user, now) <==>
            exists id :: StoredActive(st, id, g, now)
              && OwnType(g.body.types) == Some(GRANT_TYPE) && g.body.issuer == service
              && g.body.subject.id == agent && g.body.subject.claims.userDid == Some(user)
  {
    var identity := Identity(Some(GRANT_TYPE), Some(service), agent, Some(user));
    var ids := ActiveByIdentity(st, identity, now);
    if g in ListActiveGrants(st, agent, service, user, now) {
      var i :| 0 <= i < |ids| && CredentialsAt(st, ids)[i] == g;
      assert ids[i] in ids && IdentityOf(st.vcs[ids[i]]) == identity;
      assert FaithfulRow(st.vcs[ids[i]]);
      assert StoredActive(st, ids[i], g, now);
    }
    if id :| StoredActive(st, id, g, now) && OwnType(g.body.types) == Some(GRANT_TYPE) && g.body.issuer == service
             && g.body.subject.id == agent && g.body.subject.claims.userDid == Some(user) {
      assert FaithfulRow(st.vcs[id]);
      assert id in ids;
      var i :| 0 <= i < |ids| && ids[i] == id;
      assert CredentialsAt(st, ids)[i] == g;
    }
  }

  lemma {:induction false} OwnTypeIsType(types: seq<string>)
    ensures OwnType(types).Some? ==> OwnType(types).value in types
  {
    if types != [] && types[0] == BASE_TYPE {
      OwnTypeIsType(types[1..]);
    }
  }

  /** A grant the store lists for (agent, service, user) is just that. */
  ghost predicate GrantFor(st: Store, g: Credential, agent: Did, service: Did, user: string, now: int) {
    && (exists id :: StoredActive(st, id, g, now))
    && IsGrantType(g)
    && g.body.subject.id == agent && g.body.issuer == service
    && g.body.subject.claims.userDid == Some(user)
  }

  lemma ListedGrantFits(st: Store, agent: Did, service: Did, user: string, now: int, g: Credential)
    requires Faithful(st) && g in ListActiveGrants(st, agent, service, user, now)
    ensures GrantFor(st, g, agent, service, user, now)
  {
    GrantsAre(st, agent, service, user, now, g);
    OwnTypeIsType(g.body.types);
  }

  lemma {:induction false} MergedComeFrom(known: seq<Credential>, more: seq<Credential>)
    ensures forall g :: g in MergeGrants(known, more) ==> g in known || g in more
    decreases more
  {
    if more != [] {
      var i := IndexOfId(known, more[0].body.id);
      MergedComeFrom(if i < |known| then known[i := more[0]] else known + [more[0]], more[1..]);
      assert more == [more[0]] + more[1..];
    }
  }

  lemma {:induction false} MergedHolders(known: seq<Credential>, holders: seq<Holder>)
    ensures forall g :: g in MergeHolders(known, holders) ==>
              g in known || exists i :: 0 <= i < |holders| && g in holders[i].grants
    decreases holders
  {
    if holders != [] {
      var next := MergeGrants(known, holders[0].grants);
      MergedComeFrom(known, holders[0].grants);
      MergedHolders(next, holders[1..]);
      forall g | g in MergeHolders(known, holders) && g !in known
        ensures exists i :: 0 <= i < |holders| && g in holders[i].grants
      {
        if g !in next {
          var i :| 0 <= i < |holders[1..]| && g in holders[1..][i].grants;
          assert g in holders[i + 1].grants;
        }
      }
    }
  }

  lemma {:induction false} HoldersAre(known: seq<Holder>, st: Store, dids: seq<Did>, service: Did, user: string,
                                      now: int)
    ensures forall h :: h in Holders(known, st, dids, service, user, now) ==>
              h in known || (h.did in dids && h.grants == OpenGrants(st, h.did, service, user, now))
    decreases dids
  {
    if dids != [] {
      var found := OpenGrants(st, dids[0], service, user, now);
      assert dids == [dids[0]] + dids[1..];
      HoldersAre(if found == [] then known else known + [Holder(dids[0], found)], st, dids[1..], service, user, now);
    }
  }

  /** An inherited grant passes on and was given to a DID on the chain of one of
      the credentials chosen with it. */
  lemma InheritedGrant(st: Store, agentVCs: seq<Credential>, service: Did, user: string, now: int, g: Credential)
    requires DelegatorGrants(st, agentVCs, service, user, now).Some?
    requires g in DelegatorGrants(st, agentVCs, service, user, now).value.grants
    ensures PassesOn(g)
    ensures exists vc, did ::
              && vc in DelegatorGrants(st, agentVCs, service, user, now).value.agentCredentials
              && did in ChainDids(vc.body.chain)
              && g in ListActiveGrants(st, did, service, user, now)
  {
    var dids := AddAll([], AllChainDids(agentVCs));
    var holders := Holders([], st, dids, service, user, now);
    HoldersAre([], st, dids, service, user, now);
    MergedHolders([], holders);
    var i :| 0 <= i < |holders| && g in holders[i].grants;
    assert holders[i] in holders;
    var did := holders[i].did;
    assert g in OpenGrants(st, did, service, user, now);
    var vc :| vc in agentVCs && did in ChainDids(vc.body.chain);
    assert ReachesHolder(vc, holders);
  }

  // ---- What is chosen ------------------------------------------------------

  /** A chosen agent credential: stored, active and about the holder. */
  ghost predicate AgentFor(st: Store, e: Credential, did: Did, now: int) {
    && (exists id :: StoredActive(st, id, e, now))
    && IsAgentType(e) && e.body.subject.id == did
  }

  /** A chosen grant: for this user and service, to the holder or, if it passes on, to
      a DID embedded in a chosen agent credential. */
  ghost predicate GrantCarried(st: Store, g: Credential, c: Inherited, did: Did, service: Did, user: string, now: int) {
    || GrantFor(st, g, did, service, user, now)
    || (PassesOn(g) && exists vc, holder :: InheritedThrough(st, g, c, vc, holder, service, user, now))
  }

  ghost predicate InheritedThrough(st: Store, g: Credential, c: Inherited, vc: Credential, holder: Did, service: Did,
                                   user: string, now: int)
  {
    vc in c.agentCredentials && holder in ChainDids(vc.body.chain) && GrantFor(st, g, holder, service, user, now)
  }

  lemma AgentVCFits(st: Store, did: Did, now: int, e: Credential)
    requires Faithful(st) && e in ActiveAgentVCs(st, did, now)
    ensures AgentFor(st, e, did, now)
  {
    AgentVCsAre(st, did, now, e);
    var id :| StoredActive(st, id, e, now) && st.vcs[id].subjectDid == did && IsAgentType(e);
    assert FaithfulRow(st.vcs[id]);
  }

  lemma ChosenFit(st: Store, did: Did, target: string, user: Option<string>, now: int)
    requires Faithful(st) && Chosen(st, did, target, user, now).Ok?
    ensures var c := Chosen(st, did, target, user, now).value;
            && c.agentCredentials != []
            && (forall e :: e in c.agentCredentials ==> AgentFor(st, e, did, now))
            && (!Truthy(user) ==> c.grants == [])
            && (Truthy(user) ==> c.grants != [])
            && (Truthy(user) ==> forall g :: g in c.grants ==> GrantCarried(st, g, c, did, target, user.value, now))
  {
    var c := Chosen(st, did, target, user, now).value;
    var agentVCs := ActiveAgentVCs(st, did, now);
    forall e | e in c.agentCredentials ensures AgentFor(st, e, did, now) {
      assert e in agentVCs;
      AgentVCFits(st, did, now, e);
    }
    if Truthy(user) {
      assert c.grants[0] in c.grants;
      forall g | g in c.grants
        ensures GrantCarried(st, g, c, did, target, user.value, now) && c.agentCredentials != []
      {
        ChosenGrantFits(st, did, target, user.value, now, g);
      }
    }
  }

  lemma ChosenGrantFits(st: Store, did: Did, target: string, user: string, now: int, g: Credential)
    requires Faithful(st) && Truthy(Some(user)) && Chosen(st, did, target, Some(user), now).Ok?
    requires g in Chosen(st, did, target, Some(user), now).value.grants
    ensures var c := Chosen(st, did, target, Some(user), now).value;
            GrantCarried(st, g, c, did, target, user, now) && c.agentCredentials != []
  {
    var c := Chosen(st, did, target, Some(user), now).value;
    var agentVCs := ActiveAgentVCs(st, did, now);
    if ListActiveGrants(st, did, target, user, now) != [] {
      ListedGrantFits(st, did, target, user, now, g);
    } else {
      InheritedGrant(st, agentVCs, target, user, now, g);
      var vc, holder :| vc in c.agentCredentials && holder in ChainDids(vc.body.chain)
        && g in ListActiveGrants(st, holder, target, user, now);
      ListedGrantFits(st, holder, target, user, now, g);
      assert InheritedThrough(st, g, c, vc, holder, target, user, now);
    }
  }

  // ---- What a presentation carries -----------------------------------------

  lemma {:induction false} FilterAll(p: Credential -> bool, s: seq<Credential>)
    ensures (forall c :: c in s ==> p(c)) ==> Filter(p, s) == s
    ensures (forall c :: c in s ==> !p(c)) ==> Filter(p, s) == []
  {
    if s != [] {
      assert s == [s[0]] + s[1..] && s[0] in s;
      FilterAll(p, s[1..]);
    }
  }

  /** The credential does not pass for an agent credential and a grant at once. */
  predicate OneKind(e: Credential) {
    !IsAgentType(e) || !IsGrantType(e)
  }

  /** Agent credentials and grants make a presentation unless some pass for both. */
  lemma ComposedIff(a: seq<Credential>, g: seq<Credential>)
    requires forall e :: e in a ==> IsAgentType(e)
    requires forall e :: e in g ==> IsGrantType(e)
    ensures a != [] ==> (ComposedRight(a + g) <==> forall e :: e in a + g ==> OneKind(e))
    ensures a != [] && ComposedRight(a + g) ==> Filter(IsAgentType, a + g) == a && Filter(IsGrantType, a + g) == g
  {
    FilterConcat(IsAgentType, a, g);
    FilterConcat(IsGrantType, a, g);
    FilterAll(IsAgentType, a);
    FilterAll(IsAgentType, g);
    FilterAll(IsGrantType, a);
    FilterAll(IsGrantType, g);
    NoneLeft(IsAgentType, g);
    NoneLeft(IsGrantType, a);
  }

  lemma NoneLeft(p: Credential -> bool, s: seq<Credential>)
    ensures |Filter(p, s)| == 0 <==> forall c :: c in s ==> !p(c)
  {
    FilterAll(p, s);
    if |Filter(p, s)| > 0 {
      assert Filter(p, s)[0] in Filter(p, s);
    }
  }

  /** What is chosen is of its kind. */
  lemma ChosenKinds(st: Store, did: Did, target: string, user: Option<string>, now: int)
    requires Faithful(st) && Chosen(st, did, target, user, now).Ok?
    ensures var c := Chosen(st, did, target, user, now).value;
            && (forall e :: e in c.agentCredentials ==> IsAgentType(e) && e.body.subject.id == did)
            && (forall g :: g in c.grants ==> IsGrantType(g))
  {
    var c := Chosen(st, did, target, user, now).value;
    ChosenFit(st, did, target, user, now);
    forall e | e in c.agentCredentials ensures IsAgentType(e) && e.body.subject.id == did {
      assert AgentFor(st, e, did, now);
    }
    forall g | g in c.grants ensures IsGrantType(g) {
      assert GrantCarried(st, g, c, did, target, user.value, now);
    }
  }

  /** signVP signs for a DID whose key is held exactly when the target is a DID, there
      is something to choose, and nothing chosen passes for both kinds. */
  lemma SignSucceedsIff(dir: Directory, st: Store, did: Did, target: string, user: Option<string>, now: int, id: string)
    requires Faithful(st)
    ensures SignVp(dir, st, did, target, user, now, id).Ok? <==>
            && DID_SCHEME <= target && did in dir.keys
            && var c := Chosen(st, did, target, user, now);
               c.Ok? && forall e :: e in c.value.agentCredentials + c.value.grants ==> OneKind(e)
  {
    var c := Chosen(st, did, target, user, now);
    if c.Ok? {
      ChosenFit(st, did, target, user, now);
      ChosenKinds(st, did, target, user, now);
      ComposedIff(c.value.agentCredentials, c.value.grants);
    }
  }

  /** What SignVp made: its envelope and what it carries. */
  lemma SignedVpIs(dir: Directory, st: Store, did: Did, target: string, user: Option<string>, now: int, id: string)
    requires Faithful(st) && SignVp(dir, st, did, target, user, now, id).Ok?
    ensures var vp, c := SignVp(dir, st, did, target, user, now, id).value, Chosen(st, did, target, user, now);
            && c.Ok?
            && vp.body == VpBody(id, did, c.value.agentCredentials + c.value.grants, Some(now + VP_LIFETIME),
                                 Kept(user), target)
            && vp.proof == dir.keys[did].signVp(vp.body)
            && Agents(vp.body) == c.value.agentCredentials && Grants(vp.body) == c.value.grants
            && ComposedRight(vp.body.entries)
            && c.value.agentCredentials != []
  {
    var c := Chosen(st, did, target, user, now).value;
    ChosenFit(st, did, target, user, now);
    ChosenKinds(st, did, target, user, now);
    ComposedIff(c.agentCredentials, c.grants);
  }

  lemma NoUserNoGrants(st: Store, did: Did, target: string, user: Option<string>, now: int)
    requires Chosen(st, did, target, user, now).Ok?
    ensures Truthy(user) <==> Chosen(st, did, target, user, now).value.grants != []
  {
  }

  /** The entries are what was chosen: agent credentials of the holder, and grants for
      this user and service that may be passed on if they were. */
  ghost predicate Carries(vp: VpBody, c: Inherited) {
    && Agents(vp) == c.agentCredentials && Grants(vp) == c.grants
    && (forall e :: e in c.agentCredentials ==> e.body.subject.id == vp.holder)
    && (forall g :: g in c.grants ==> CarriesGrant(vp, g))
  }

  predicate CarriesGrant(vp: VpBody, g: Credential) {
    && g.body.subject.claims.userDid == vp.delegatedBy && g.body.issuer == vp.targetService
    && (g.body.subject.id == vp.holder || PassesOn(g))
  }

  lemma SignedCarries(dir: Directory, st: Store, did: Did, target: string, user: Option<string>, now: int, id: string)
    requires Faithful(st) && SignVp(dir, st, did, target, user, now, id).Ok?
    ensures Carries(SignVp(dir, st, did, target, user, now, id).value.body, Chosen(st, did, target, user, now).value)
  {
    var vp := SignVp(dir, st, did, target, user, now, id).value.body;
    var c := Chosen(st, did, target, user, now).value;
    SignedVpIs(dir, st, did, target, user, now, id);
    ChosenFit(st, did, target, user, now);
    ChosenKinds(st, did, target, user, now);
    forall g | g in c.grants ensures CarriesGrant(vp, g) {
      assert GrantCarried(st, g, c, did, target, user.value, now);
    }
  }
}
