/** Which credentials and grants signVP presents, all of them and no others, and what it
    fails with: read off the rows, the keys and the clock alone. */
module SigningTerms {
  import opened Common
  import opened Credentials
  import opened VcStore
  import VcLifecycle
  import opened AgentFlows
  import opened Presentations
  import opened LifecycleTerms
  import opened DelegationTerms
  import opened Replacement
  import VerifierMeaning

  // ---- What may be presented ---------------------------------------------------------

  /** The row is a live grant of the service to this DID for this user. */
  ghost predicate Consent(st: Store, at: VcId, to: Did, service: Did, user: string, now: int) {
    && at in st.vcs && Live(st.vcs[at], now)
    && var c := st.vcs[at].vc;
       && OfType(c.body.types, "DelegationGrantCredential") && c.body.issuer == service
       && c.body.subject.id == to && c.body.subject.claims.userDid == Some(user)
  }

  ghost predicate HasOwn(st: Store, did: Did, service: Did, user: string, now: int) {
    exists at :: Consent(st, at, did, service, user, now)
  }

  /** The row is a live grant to a DID the credential embeds, and may be passed on. */
  ghost predicate PassedOn(st: Store, at: VcId, e: Credential, service: Did, user: string, now: int) {
    exists a :: a in e.body.chain && Consent(st, at, a.body.subject.id, service, user, now)
                && st.vcs[at].vc.body.subject.claims.allowDelegation != Some(false)
  }

  /** A live agent credential of the holder; where a user is named and gave the holder no
      grant, one that a grant was passed on along. */
  ghost predicate Shows(st: Store, e: Credential, did: Did, target: string, user: Option<string>, now: int) {
    && (exists at :: HoldsAgent(st, at, did, now) && st.vcs[at].vc == e)
    && (VerifierMeaning.Given(user) && !HasOwn(st, did, target, user.value, now) ==>
          exists at :: PassedOn(st, at, e, target, user.value, now))
  }

  /** The user's grants to the holder, or where there are none those passed on to it. */
  ghost predicate ShowsGrant(st: Store, g: Credential, did: Did, target: string, user: Option<string>, now: int) {
    && VerifierMeaning.Given(user)
    && if HasOwn(st, did, target, user.value, now)
       then exists at :: Consent(st, at, did, target, user.value, now) && st.vcs[at].vc == g
       else exists e, at :: HoldsAgent(st, e, did, now) && PassedOn(st, at, st.vcs[e].vc, target, user.value, now)
                            && st.vcs[at].vc == g
  }

  // ---- Grants ----------------------------------------------------------------------------

  lemma ConsentsAre(st: Store, to: Did, service: Did, user: string, now: int, g: Credential)
    requires Faithful(st)
    ensures g in ListActiveGrants(st, to, service, user, now) <==>
            exists at :: Consent(st, at, to, service, user, now) && st.vcs[at].vc == g
  {
    GrantsAre(st, to, service, user, now, g);
    OwnTypeMeans(g.body.types);
    if at :| Consent(st, at, to, service, user, now) && st.vcs[at].vc == g {
      assert StoredActive(st, at, g, now);
    }
    if at :| StoredActive(st, at, g, now) && OwnType(g.body.types) == Some(GRANT_TYPE) && g.body.issuer == service
             && g.body.subject.id == to && g.body.subject.claims.userDid == Some(user) {
      assert Consent(st, at, to, service, user, now);
    }
  }

  lemma SomeConsent(st: Store, to: Did, service: Did, user: string, now: int)
    requires Faithful(st)
    ensures ListActiveGrants(st, to, service, user, now) != [] <==> HasOwn(st, to, service, user, now)
  {
    var grants := ListActiveGrants(st, to, service, user, now);
    if grants != [] {
      assert grants[0] in grants;
      ConsentsAre(st, to, service, user, now, grants[0]);
    }
    if at :| Consent(st, at, to, service, user, now) {
      ConsentsAre(st, to, service, user, now, st.vcs[at].vc);
    }
  }

  /** The row is a grant to this DID that may be passed on. */
  ghost predicate Open(st: Store, at: VcId, to: Did, service: Did, user: string, now: int) {
    Consent(st, at, to, service, user, now) && st.vcs[at].vc.body.subject.claims.allowDelegation != Some(false)
  }

  lemma OpenAre(st: Store, to: Did, service: Did, user: string, now: int, g: Credential)
    requires Faithful(st)
    ensures g in OpenGrants(st, to, service, user, now) <==>
            exists at :: Open(st, at, to, service, user, now) && st.vcs[at].vc == g
  {
    ConsentsAre(st, to, service, user, now, g);
    if g in OpenGrants(st, to, service, user, now) {
      var at :| Consent(st, at, to, service, user, now) && st.vcs[at].vc == g;
      assert Open(st, at, to, service, user, now);
    }
  }

  // ---- Holders ----------------------------------------------------------------------------

  lemma {:induction false} HoldersExactly(known: seq<Holder>, st: Store, dids: seq<Did>, service: Did, user: string,
                                          now: int, h: Holder)
    ensures h in Holders(known, st, dids, service, user, now) <==>
            h in known || (h.did in dids && h.grants == OpenGrants(st, h.did, service, user, now) && h.grants != [])
    decreases dids
  {
    if dids != [] {
      var found := OpenGrants(st, dids[0], service, user, now);
      assert dids == [dids[0]] + dids[1..];
      HoldersExactly(if found == [] then known else known + [Holder(dids[0], found)], st, dids[1..], service, user,
                     now, h);
    }
  }

  /** Filed under its own id. */
  predicate Filed(st: Store, g: Credential) {
    g.body.id in st.vcs && st.vcs[g.body.id].vc == g
  }

  lemma {:induction false} MergedAre(st: Store, known: seq<Credential>, more: seq<Credential>)
    requires forall g :: g in known || g in more ==> Filed(st, g)
    ensures forall g :: g in MergeGrants(known, more) <==> g in known || g in more
    decreases more
  {
    if more != [] {
      var i := IndexOfId(known, more[0].body.id);
      var next := if i < |known| then known[i := more[0]] else known + [more[0]];
      assert more == [more[0]] + more[1..] && more[0] in more;
      if i < |known| {
        assert known[i] in known && known[i] == more[0];
        assert next == known;
      }
      MergedAre(st, next, more[1..]);
    }
  }

  ghost predicate InSome(holders: seq<Holder>, g: Credential) {
    exists h :: h in holders && g in h.grants
  }

  lemma InSomeTail(holders: seq<Holder>, g: Credential)
    requires holders != []
    ensures InSome(holders, g) <==> g in holders[0].grants || InSome(holders[1..], g)
  {
    assert holders == [holders[0]] + holders[1..];
  }

  lemma {:induction false} AllMergedAre(st: Store, known: seq<Credential>, holders: seq<Holder>)
    requires forall g :: g in known || InSome(holders, g) ==> Filed(st, g)
    ensures forall g :: g in MergeHolders(known, holders) <==> g in known || InSome(holders, g)
    decreases holders
  {
    if holders != [] {
      var next := MergeGrants(known, holders[0].grants);
      forall g ensures InSome(holders, g) <==> g in holders[0].grants || InSome(holders[1..], g) {
        InSomeTail(holders, g);
      }
      MergedAre(st, known, holders[0].grants);
      AllMergedAre(st, next, holders[1..]);
    }
  }

  // ---- What is inherited ----------------------------------------------------------------------

  /** A grant in the row was passed on along one of these credentials. */
  ghost predicate Along(st: Store, agentVCs: seq<Credential>, service: Did, user: string, now: int, at: VcId) {
    exists e :: e in agentVCs && PassedOn(st, at, e, service, user, now)
  }

  lemma PassedOnIsOpen(st: Store, at: VcId, e: Credential, service: Did, user: string, now: int)
    ensures PassedOn(st, at, e, service, user, now) <==>
            exists d :: d in ChainDids(e.body.chain) && Open(st, at, d, service, user, now)
  {
    if d :| d in ChainDids(e.body.chain) && Open(st, at, d, service, user, now) {
      var a :| a in e.body.chain && a.body.subject.id == d;
    }
    if a :| a in e.body.chain && Open(st, at, a.body.subject.id, service, user, now) {
      assert a.body.subject.id in ChainDids(e.body.chain);
    }
  }

  function HoldersAlong(st: Store, agentVCs: seq<Credential>, service: Did, user: string, now: int): seq<Holder> {
    Holders([], st, AddAll([], AllChainDids(agentVCs)), service, user, now)
  }

  /** A holder found has a grant row for each of its grants, and is on some chain. */
  lemma FoundHolder(st: Store, agentVCs: seq<Credential>, service: Did, user: string, now: int, h: Holder,
                    g: Credential) returns (at: VcId)
    requires Faithful(st) && h in HoldersAlong(st, agentVCs, service, user, now) && g in h.grants
    ensures Open(st, at, h.did, service, user, now) && st.vcs[at].vc == g && h.did in AllChainDids(agentVCs)
  {
    HoldersExactly([], st, AddAll([], AllChainDids(agentVCs)), service, user, now, h);
    OpenAre(st, h.did, service, user, now, g);
    at :| Open(st, at, h.did, service, user, now) && st.vcs[at].vc == g;
  }

  lemma FoundHasGrants(st: Store, agentVCs: seq<Credential>, service: Did, user: string, now: int, h: Holder)
    requires h in HoldersAlong(st, agentVCs, service, user, now)
    ensures h.grants != [] && h.grants[0] in h.grants
  {
    HoldersExactly([], st, AddAll([], AllChainDids(agentVCs)), service, user, now, h);
  }

  /** A grant passed on along a credential is found with its holder. */
  lemma PassedOnIsFound(st: Store, agentVCs: seq<Credential>, service: Did, user: string, now: int, e: Credential,
                        at: VcId) returns (h: Holder)
    requires Faithful(st) && e in agentVCs && PassedOn(st, at, e, service, user, now)
    ensures h in HoldersAlong(st, agentVCs, service, user, now) && st.vcs[at].vc in h.grants
    ensures h.did in ChainDids(e.body.chain)
  {
    PassedOnIsOpen(st, at, e, service, user, now);
    var d :| d in ChainDids(e.body.chain) && Open(st, at, d, service, user, now);
    OpenAre(st, d, service, user, now, st.vcs[at].vc);
    h := Holder(d, OpenGrants(st, d, service, user, now));
    HoldersExactly([], st, AddAll([], AllChainDids(agentVCs)), service, user, now, h);
  }

  lemma HolderGrants(st: Store, agentVCs: seq<Credential>, service: Did, user: string, now: int, g: Credential)
    requires Faithful(st)
    ensures InSome(HoldersAlong(st, agentVCs, service, user, now), g) <==>
            exists at :: Along(st, agentVCs, service, user, now, at) && st.vcs[at].vc == g
  {
    if InSome(HoldersAlong(st, agentVCs, service, user, now), g) {
      var h :| h in HoldersAlong(st, agentVCs, service, user, now) && g in h.grants;
      var at := FoundHolder(st, agentVCs, service, user, now, h, g);
      var e :| e in agentVCs && h.did in ChainDids(e.body.chain);
      PassedOnIsOpen(st, at, e, service, user, now);
    } else if at :| Along(st, agentVCs, service, user, now, at) && st.vcs[at].vc == g {
      var e :| e in agentVCs && PassedOn(st, at, e, service, user, now);
      var h := PassedOnIsFound(st, agentVCs, service, user, now, e, at);
      assert InSome(HoldersAlong(st, agentVCs, service, user, now), g);
    }
  }

  lemma HolderReached(st: Store, agentVCs: seq<Credential>, service: Did, user: string, now: int, e: Credential)
    requires Faithful(st) && e in agentVCs
    ensures ReachesHolder(e, HoldersAlong(st, agentVCs, service, user, now)) <==>
            exists at :: PassedOn(st, at, e, service, user, now)
  {
    var holders := HoldersAlong(st, agentVCs, service, user, now);
    if ReachesHolder(e, holders) {
      var i :| 0 <= i < |holders| && holders[i].did in ChainDids(e.body.chain);
      FoundHasGrants(st, agentVCs, service, user, now, holders[i]);
      var at := FoundHolder(st, agentVCs, service, user, now, holders[i], holders[i].grants[0]);
      PassedOnIsOpen(st, at, e, service, user, now);
    } else if at :| PassedOn(st, at, e, service, user, now) {
      var _ := PassedOnIsFound(st, agentVCs, service, user, now, e, at);
    }
  }

  lemma FoundIsFiled(st: Store, agentVCs: seq<Credential>, service: Did, user: string, now: int, g: Credential)
    requires Faithful(st) && InSome(HoldersAlong(st, agentVCs, service, user, now), g)
    ensures Filed(st, g)
  {
    var h :| h in HoldersAlong(st, agentVCs, service, user, now) && g in h.grants;
    var at := FoundHolder(st, agentVCs, service, user, now, h, g);
  }

  lemma MergedAlong(st: Store, agentVCs: seq<Credential>, service: Did, user: string, now: int)
    requires Faithful(st)
    ensures forall g :: g in MergeHolders([], HoldersAlong(st, agentVCs, service, user, now)) <==>
              InSome(HoldersAlong(st, agentVCs, service, user, now), g)
  {
    forall g | InSome(HoldersAlong(st, agentVCs, service, user, now), g) ensures Filed(st, g) {
      FoundIsFiled(st, agentVCs, service, user, now, g);
    }
    AllMergedAre(st, [], HoldersAlong(st, agentVCs, service, user, now));
  }

  lemma GrantInherited(st: Store, agentVCs: seq<Credential>, service: Did, user: string, now: int, g: Credential)
    requires Faithful(st) && DelegatorGrants(st, agentVCs, service, user, now).Some?
    ensures g in DelegatorGrants(st, agentVCs, service, user, now).value.grants <==>
            exists at :: Along(st, agentVCs, service, user, now, at) && st.vcs[at].vc == g
  {
    MergedAlong(st, agentVCs, service, user, now);
    HolderGrants(st, agentVCs, service, user, now, g);
  }

  lemma CredentialInherits(st: Store, agentVCs: seq<Credential>, service: Did, user: string, now: int, e: Credential)
    requires Faithful(st) && DelegatorGrants(st, agentVCs, service, user, now).Some?
    ensures e in DelegatorGrants(st, agentVCs, service, user, now).value.agentCredentials <==>
            e in agentVCs && exists at :: PassedOn(st, at, e, service, user, now)
  {
    if e in agentVCs {
      HolderReached(st, agentVCs, service, user, now, e);
    }
  }

  lemma SomethingInherited(st: Store, agentVCs: seq<Credential>, service: Did, user: string, now: int)
    requires Faithful(st)
    ensures var r := DelegatorGrants(st, agentVCs, service, user, now);
            r.Some? && r.value.grants != [] <==> exists at :: Along(st, agentVCs, service, user, now, at)
  {
    var holders := HoldersAlong(st, agentVCs, service, user, now);
    MergedAlong(st, agentVCs, service, user, now);
    var grants := MergeHolders([], holders);
    if grants != [] {
      assert grants[0] in grants;
      HolderGrants(st, agentVCs, service, user, now, grants[0]);
    }
    if at :| Along(st, agentVCs, service, user, now, at) {
      HolderGrants(st, agentVCs, service, user, now, st.vcs[at].vc);
    }
  }

  // ---- What is chosen -----------------------------------------------------------------------

  lemma AlongMeans(st: Store, did: Did, service: Did, user: string, now: int, at: VcId)
    requires Faithful(st)
    ensures Along(st, ActiveAgentVCs(st, did, now), service, user, now, at) <==>
            exists e :: HoldsAgent(st, e, did, now) && PassedOn(st, at, st.vcs[e].vc, service, user, now)
  {
    if c :| c in ActiveAgentVCs(st, did, now) && PassedOn(st, at, c, service, user, now) {
      AgentHeld(st, did, now, c);
    }
    if e :| HoldsAgent(st, e, did, now) && PassedOn(st, at, st.vcs[e].vc, service, user, now) {
      AgentHeld(st, did, now, st.vcs[e].vc);
    }
  }

  lemma OwnChosen(st: Store, did: Did, target: string, user: Option<string>, now: int)
    requires Faithful(st) && (exists at :: HoldsAgent(st, at, did, now))
    requires !VerifierMeaning.Given(user) || HasOwn(st, did, target, user.value, now)
    ensures var c := Chosen(st, did, target, user, now);
            && c.Ok?
            && (forall e :: e in c.value.agentCredentials <==> Shows(st, e, did, target, user, now))
            && (forall g :: g in c.value.grants <==> ShowsGrant(st, g, did, target, user, now))
  {
    SomeAgentHeld(st, did, now);
    forall e ensures e in ActiveAgentVCs(st, did, now) <==> Shows(st, e, did, target, user, now) {
      AgentHeld(st, did, now, e);
    }
    if VerifierMeaning.Given(user) {
      SomeConsent(st, did, target, user.value, now);
      forall g
        ensures g in ListActiveGrants(st, did, target, user.value, now) <==>
                ShowsGrant(st, g, did, target, user, now)
      {
        ConsentsAre(st, did, target, user.value, now, g);
      }
    }
  }

  lemma InheritedShown(st: Store, did: Did, target: string, user: Option<string>, now: int, g: Credential)
    requires Faithful(st) && VerifierMeaning.Given(user) && !HasOwn(st, did, target, user.value, now)
    requires DelegatorGrants(st, ActiveAgentVCs(st, did, now), target, user.value, now).Some?
    ensures g in DelegatorGrants(st, ActiveAgentVCs(st, did, now), target, user.value, now).value.grants <==>
            ShowsGrant(st, g, did, target, user, now)
  {
    GrantInherited(st, ActiveAgentVCs(st, did, now), target, user.value, now, g);
    forall at
      ensures Along(st, ActiveAgentVCs(st, did, now), target, user.value, now, at) <==>
              exists e :: HoldsAgent(st, e, did, now) && PassedOn(st, at, st.vcs[e].vc, target, user.value, now)
    {
      AlongMeans(st, did, target, user.value, now, at);
    }
  }

  lemma NothingShown(st: Store, did: Did, target: string, user: Option<string>, now: int)
    requires Faithful(st) && VerifierMeaning.Given(user) && !HasOwn(st, did, target, user.value, now)
    ensures (exists at :: Along(st, ActiveAgentVCs(st, did, now), target, user.value, now, at)) <==>
            exists g :: ShowsGrant(st, g, did, target, user, now)
  {
    if at :| Along(st, ActiveAgentVCs(st, did, now), target, user.value, now, at) {
      AlongMeans(st, did, target, user.value, now, at);
      assert ShowsGrant(st, st.vcs[at].vc, did, target, user, now);
    }
    if g :| ShowsGrant(st, g, did, target, user, now) {
      var e, at :| HoldsAgent(st, e, did, now) && PassedOn(st, at, st.vcs[e].vc, target, user.value, now)
                   && st.vcs[at].vc == g;
      AlongMeans(st, did, target, user.value, now, at);
    }
  }

  lemma InheritedShows(st: Store, did: Did, target: string, user: Option<string>, now: int, e: Credential)
    requires Faithful(st) && VerifierMeaning.Given(user) && !HasOwn(st, did, target, user.value, now)
    requires DelegatorGrants(st, ActiveAgentVCs(st, did, now), target, user.value, now).Some?
    ensures e in DelegatorGrants(st, ActiveAgentVCs(st, did, now), target, user.value, now).value.agentCredentials <==>
            Shows(st, e, did, target, user, now)
  {
    CredentialInherits(st, ActiveAgentVCs(st, did, now), target, user.value, now, e);
    AgentHeld(st, did, now, e);
  }

  /** All that may be presented and nothing else. */
  ghost predicate Choice(c: Inherited, st: Store, did: Did, target: string, user: Option<string>, now: int) {
    && (forall e :: e in c.agentCredentials <==> Shows(st, e, did, target, user, now))
    && (forall g :: g in c.grants <==> ShowsGrant(st, g, did, target, user, now))
  }

  lemma InheritedChoice(st: Store, did: Did, target: string, user: Option<string>, now: int)
    requires Faithful(st) && VerifierMeaning.Given(user) && !HasOwn(st, did, target, user.value, now)
    requires DelegatorGrants(st, ActiveAgentVCs(st, did, now), target, user.value, now).Some?
    ensures Choice(DelegatorGrants(st, ActiveAgentVCs(st, did, now), target, user.value, now).value,
                   st, did, target, user, now)
  {
    var c := DelegatorGrants(st, ActiveAgentVCs(st, did, now), target, user.value, now).value;
    forall g ensures g in c.grants <==> ShowsGrant(st, g, did, target, user, now) {
      InheritedShown(st, did, target, user, now, g);
    }
    forall e ensures e in c.agentCredentials <==> Shows(st, e, did, target, user, now) {
      InheritedShows(st, did, target, user, now, e);
    }
  }

  lemma InheritedOrNothing(st: Store, did: Did, target: string, user: Option<string>, now: int)
    requires Faithful(st) && (exists at :: HoldsAgent(st, at, did, now))
    requires VerifierMeaning.Given(user) && !HasOwn(st, did, target, user.value, now)
    ensures var r := DelegatorGrants(st, ActiveAgentVCs(st, did, now), target, user.value, now);
            Chosen(st, did, target, user, now) ==
            if r.Some? && r.value.grants != [] then Ok(r.value) else Err(ConsentGrantNotFound)
  {
    SomeAgentHeld(st, did, now);
    SomeConsent(st, did, target, user.value, now);
  }

  lemma InheritedChosen(st: Store, did: Did, target: string, user: Option<string>, now: int)
    requires Faithful(st) && (exists at :: HoldsAgent(st, at, did, now))
    requires VerifierMeaning.Given(user) && !HasOwn(st, did, target, user.value, now)
    ensures var c := Chosen(st, did, target, user, now);
            if forall g :: !ShowsGrant(st, g, did, target, user, now) then c == Err(ConsentGrantNotFound)
            else c.Ok? && Choice(c.value, st, did, target, user, now)
  {
    InheritedOrNothing(st, did, target, user, now);
    SomethingInherited(st, ActiveAgentVCs(st, did, now), target, user.value, now);
    NothingShown(st, did, target, user, now);
    if exists g :: ShowsGrant(st, g, did, target, user, now) {
      InheritedChoice(st, did, target, user, now);
    }
  }

  /** What signVP chooses: all that may be presented, or why there is nothing. */
  lemma ChosenTerms(st: Store, did: Did, target: string, user: Option<string>, now: int)
    requires Faithful(st)
    ensures var c := Chosen(st, did, target, user, now);
            if forall at :: !HoldsAgent(st, at, did, now) then c == Err(AgentActiveCredentialNotFound(did))
            else if VerifierMeaning.Given(user) && forall g :: !ShowsGrant(st, g, did, target, user, now)
            then c == Err(ConsentGrantNotFound)
            else c.Ok? && Choice(c.value, st, did, target, user, now)
  {
    SomeAgentHeld(st, did, now);
    if exists at :: HoldsAgent(st, at, did, now) {
      if !VerifierMeaning.Given(user) || HasOwn(st, did, target, user.value, now) {
        OwnChosen(st, did, target, user, now);
        if VerifierMeaning.Given(user) {
          var at :| Consent(st, at, did, target, user.value, now);
          assert ShowsGrant(st, st.vcs[at].vc, did, target, user, now);
        }
      } else {
        InheritedChosen(st, did, target, user, now);
      }
    }
  }

  // ---- signVP ----------------------------------------------------------------------------------

  /** It is one of the credentials or of the grants to present. */
  ghost predicate Presents(st: Store, e: Credential, did: Did, target: string, user: Option<string>, now: int) {
    Shows(st, e, did, target, user, now) || ShowsGrant(st, e, did, target, user, now)
  }

  predicate BothKinds(e: Credential) {
    VerifierMeaning.IsAgent(e) && VerifierMeaning.IsGrant(e)
  }

  /** The envelope: from the holder to the target, on behalf of the user if one is named, for
      five minutes, signed with the holder's key. */
  predicate Envelope(vp: Presentation, id: string, did: Did, target: string, user: Option<string>, now: int,
                     sign: VpBody -> Proof)
  {
    && vp.body.id == id && vp.body.holder == did && vp.body.targetService == target
    && vp.body.expiration == Some(now + 5 * 60 * 1000)
    && vp.body.delegatedBy == (if VerifierMeaning.Given(user) then user else None)
    && vp.proof == sign(vp.body)
  }

  lemma BuiltEnvelope(entries: seq<Credential>, wallet: Wallet, user: Option<string>, target: string, now: int,
                      id: string)
    ensures var r := BuildVp(entries, wallet, VcLifecycle.Kept(user), target, now, id);
            && (r.Err? ==> r.error == VpInvalidStructure)
            && (r.Ok? ==> r.value.body.entries == entries
                          && Envelope(r.value, id, wallet.did, target, user, now, wallet.signVp))
  {
  }

  lemma SignedOf(dir: Directory, st: Store, did: Did, target: string, user: Option<string>, now: int, id: string,
                 entries: seq<Credential>)
    requires Faithful(st) && "did:" <= target && did in dir.keys
    requires var c := Chosen(st, did, target, user, now); c.Ok? && entries == c.value.agentCredentials + c.value.grants
    ensures var r := SignVp(dir, st, did, target, user, now, id);
            && (r.Ok? <==> forall e :: e in entries ==> OneKind(e))
            && r == BuildVp(entries, WalletOf(dir, did), VcLifecycle.Kept(user), target, now, id)
  {
    SignSucceedsIff(dir, st, did, target, user, now, id);
  }

  lemma SignedChoice(dir: Directory, st: Store, did: Did, target: string, user: Option<string>, now: int, id: string)
    requires Faithful(st) && "did:" <= target && did in dir.keys
    requires var c := Chosen(st, did, target, user, now); c.Ok? && Choice(c.value, st, did, target, user, now)
    ensures var r := SignVp(dir, st, did, target, user, now, id);
            if exists e :: BothKinds(e) && Presents(st, e, did, target, user, now) then r == Err(VpInvalidStructure)
            else
              && r.Ok? && Envelope(r.value, id, did, target, user, now, dir.keys[did].signVp)
              && forall e :: e in r.value.body.entries <==> Presents(st, e, did, target, user, now)
  {
    var c := Chosen(st, did, target, user, now).value;
    var entries := c.agentCredentials + c.grants;
    forall e ensures e in entries <==> Presents(st, e, did, target, user, now)
             ensures OneKind(e) <==> !BothKinds(e)
    {
    }
    SignedOf(dir, st, did, target, user, now, id, entries);
    BuiltEnvelope(entries, WalletOf(dir, did), user, target, now, id);
  }

  /** What signing comes to, the first that applies. */
  lemma SignTerms(dir: Directory, st: Store, did: Did, target: string, user: Option<string>, now: int, id: string)
    requires Faithful(st)
    ensures var r := SignVp(dir, st, did, target, user, now, id);
            if !("did:" <= target) then r == Err(ValidationError)
            else if did !in dir.keys then r == Err(AgentKeyNotFound(did))
            else if forall at :: !HoldsAgent(st, at, did, now) then r == Err(AgentActiveCredentialNotFound(did))
            else if VerifierMeaning.Given(user) && forall g :: !ShowsGrant(st, g, did, target, user, now)
            then r == Err(ConsentGrantNotFound)
            else if exists e :: BothKinds(e) && Presents(st, e, did, target, user, now)
            then r == Err(VpInvalidStructure)
            else
              && r.Ok? && Envelope(r.value, id, did, target, user, now, dir.keys[did].signVp)
              && forall e :: e in r.value.body.entries <==> Presents(st, e, did, target, user, now)
  {
    ChosenTerms(st, did, target, user, now);
    var c := Chosen(st, did, target, user, now);
    if c.Ok? && "did:" <= target && did in dir.keys {
      SignedChoice(dir, st, did, target, user, now, id);
    }
  }
}
