/** Runs in which issueVC names no delegator and nothing is registered that is delegated
    or malformed: all that is stored is in order, and what is signed is accepted unless
    it is bound to another service. */
module CarefulRuns {
  import opened Common
  import opened Credentials
  import opened Delegation
  import opened Verifier
  import opened VerifierFormula
  import opened VcStore
  import opened VcLifecycle
  import opened VcInvariants
  import opened AgentFlows
  import opened ServiceFlows
  import opened Presentations
  import opened Acceptance
  import opened Runs
  import opened Rows
  import opened Orphans
  import opened EndToEnd

  /** Onboarding issues root credentials, to others; what is registered is a root too,
      or a grant that fits its schema. */
  predicate CarefulCall(cfg: Platform, call: Call) {
    match call
    case Issue(p, _, _, _) =>
      && !Truthy(p.delegatedFrom) && p.parentVcId.None? && p.delegationDepth.GetOr(0) == 0
      && p.subjectDid != cfg.issuer.did
    case External(vc, _, _, _) =>
      && vc.body.subject.id != cfg.issuer.did && vc.body.chain == [] && vc.body.subject.parentVcId.None?
      && (IsAgentType(vc) ==> RootInOrder(vc)) && (IsGrantType(vc) ==> ConsentOf(vc).Some?)
    case _ => true
  }

  predicate RootInOrder(vc: Credential) {
    vc.body.subject.privilegeScopes.Some? && !Delegated(vc) && DepthOf(vc) == 0 && !SelfSigned(vc)
  }

  ghost predicate CarefulRun(cfg: Platform, dir: Directory, w: World, events: seq<Event>, shared: bool) {
    HonestRun(cfg, dir, w, events, shared) && forall e :: e in events ==> CarefulCall(cfg, e.call)
  }

  /** The issuer is neither an agent nor a service, and no DID is empty. */
  predicate KeysApart(cfg: Platform, dir: Directory) {
    cfg.issuer.did !in dir.keys && "" !in dir.keys
  }

  /** A row about somebody else than the issuer whose credential is in order, hangs off
      the parent it names and has its ancestors stored. */
  ghost predicate OrderedRow(cfg: Platform, st: Store, r: VcRecord) {
    && r.vc.body.subject.id != cfg.issuer.did
    && (IsAgentType(r.vc) ==> WellLinked(r.vc)) && (IsGrantType(r.vc) ==> ConsentOf(r.vc).Some?)
    && r.parentVcId == r.vc.body.subject.parentVcId
    && (forall c :: c in r.vc.body.chain ==> StoredAs(st, c))
  }

  ghost predicate Ordered(cfg: Platform, st: Store) {
    Faithful(st) && forall id :: id in st.vcs ==> OrderedRow(cfg, st, st.vcs[id])
  }

  // ---- The rows that careful calls make ------------------------------------------

  lemma RootIsWellLinked(vc: Credential)
    requires vc.body.chain == [] && RootInOrder(vc)
    ensures WellLinked(vc)
  {
  }

  lemma IssuedIsOrdered(cfg: Platform, st: Store, s: Sys, p: IssueParams, known: bool, now: int, id: VcId)
    requires IssueFault(p, known).None? && p.subjectDid != cfg.issuer.did
    requires !Truthy(p.delegatedFrom) && p.parentVcId.None? && p.delegationDepth.GetOr(0) == 0
    ensures OrderedRow(cfg, st, IssuedHere(cfg, s, p, now, id))
  {
    var vc := IssuedHere(cfg, s, p, now, id).vc;
    if p.subjectType.AgentSubject? {
      RootIsWellLinked(vc);
    }
    IssuedTypes(vc);
  }

  lemma IssuedTypes(vc: Credential)
    requires vc.body.types == [BASE_TYPE, USER_TYPE] || vc.body.types == [BASE_TYPE, AGENT_TYPE]
    ensures !IsGrantType(vc)
    ensures vc.body.types == [BASE_TYPE, USER_TYPE] ==> !IsAgentType(vc)
  {
  }

  lemma BuiltIsOrdered(cfg: Platform, st: Store, o: DelegateOptions, wallet: Wallet, now: int, id: VcId)
    requires WellLinked(o.from) && wallet.did == o.from.body.subject.id && wallet.did != ""
    requires StoredAs(st, o.from) && forall c :: c in o.from.body.chain ==> StoredAs(st, c)
    requires o.to != cfg.issuer.did && BuildDelegationVC(o, wallet, now, id).Ok?
    ensures OrderedRow(cfg, st, SignedRow(cfg, BuildDelegationVC(o, wallet, now, id).value))
  {
    BuilderKeepsLinked(o, wallet, now, id);
    IssuedTypes(BuildDelegationVC(o, wallet, now, id).value);
  }

  lemma DelegatedIsOrdered(cfg: Platform, dir: Directory, s: Sys, input: DelegateInput, now: int, id: VcId,
                           from: Credential)
    requires Ordered(cfg, s.store) && KeysApart(cfg, dir) && input.did in dir.keys && input.to in dir.keys
    requires DelegationSource(s.store, input, now) == Ok(Some(from)) && Built(cfg, dir, s, input, from, now, id).Ok?
    ensures OrderedRow(cfg, s.store, SignedRow(cfg, Built(cfg, dir, s, input, from, now, id).value))
  {
    SourceIsStored(s.store, input, now, from);
    var at :| StoredActive(s.store, at, from, now) && s.store.vcs[at].subjectDid == input.did && IsAgentType(from);
    assert OrderedRow(cfg, s.store, s.store.vcs[at]) && FaithfulRow(s.store.vcs[at]);
    var index := WithDefaultList(cfg, s, now).store.list.value.nextIndex;
    var o := DelegateOptions(input.to, input.scopes, input.expiresIn, from, Some(EntryOnDefaultList(cfg, index)));
    BuiltIsOrdered(cfg, s.store, o, WalletOf(dir, input.did), now, id);
  }

  lemma GrantIsOrdered(cfg: Platform, st: Store, input: GrantInput, scopes: seq<Scope>, wallet: Wallet, index: nat,
                       now: int, id: VcId)
    requires input.agentDid != cfg.issuer.did
    ensures OrderedRow(cfg, st, GrantRow(GrantCredential(cfg, input, scopes, wallet, index, now, id)))
  {
  }

  lemma RowMadeIsOrdered(cfg: Platform, dir: Directory, s: Sys, call: Call, now: int, r: VcRecord)
    requires Ordered(cfg, s.store) && KeysApart(cfg, dir) && CarefulCall(cfg, call)
    requires RowMade(cfg, dir, s, call, now, r)
    ensures OrderedRow(cfg, s.store, r)
  {
    match call
    case Issue(p, known, _, id) => IssuedIsOrdered(cfg, s.store, s, p, known, now, id);
    case Renew(vcId, o, known, _, id) =>
      assert OrderedRow(cfg, s.store, s.store.vcs[vcId]) && FaithfulRow(s.store.vcs[vcId]);
      IssuedIsOrdered(cfg, s.store, s, RenewParams(s.store.vcs[vcId], o), known, now, id);
    case Delegate(input, id) =>
      DelegatedIsOrdered(cfg, dir, s, input, now, id, DelegationSource(s.store, input, now).value.value);
    case Consent(input, _, id) =>
      var index := WithDefaultList(cfg, s, now).store.list.value.nextIndex;
      var scopes := GrantScopes(dir, s.store, input, now).value;
      GrantIsOrdered(cfg, s.store, input, scopes, WalletOf(dir, input.serviceDid), index, now, id);
    case External(vc, _, _, _) =>
      if IsAgentType(vc) {
        RootIsWellLinked(vc);
      }
    case _ => assert false;
  }

  lemma OrderedStep(cfg: Platform, a: Store, b: Store, made: VcRecord -> bool)
    requires Ordered(cfg, a) && Faithful(b) && Evolves(a, b) && AddsOnly(a, b, made)
    requires forall r :: made(r) ==> OrderedRow(cfg, a, r)
    ensures Ordered(cfg, b)
  {
    forall c | StoredAs(a, c) ensures StoredAs(b, c) {
      assert SameButMarks(a.vcs[c.body.id], b.vcs[c.body.id]);
    }
    forall id | id in b.vcs ensures OrderedRow(cfg, b, b.vcs[id]) {
      if id in a.vcs {
        assert SameButMarks(a.vcs[id], b.vcs[id]) && OrderedRow(cfg, a, a.vcs[id]);
      } else {
        var r :| made(r) && SameButMarks(r, b.vcs[id]);
      }
    }
  }

  lemma ApplyKeepsOrder(cfg: Platform, dir: Directory, w: World, s: Sys, call: Call, now: int)
    requires Upheld(cfg, w, s.store) && Ordered(cfg, s.store) && Allowed(cfg, s, call) && Honest(w, call)
    requires CarefulCall(cfg, call) && KeysGenuine(cfg, dir, w) && KeysApart(cfg, dir)
    ensures Ordered(cfg, Apply(cfg, dir, s, call, now).store)
  {
    var after := Apply(cfg, dir, s, call, now).store;
    ApplyUpholds(cfg, dir, w, s, call, now);
    UpheldIsFaithful(cfg, w, after);
    ApplyKeeps(cfg, dir, s, call, now);
    ApplyAdds(cfg, dir, s, call, now);
    forall r | RowMade(cfg, dir, s, call, now, r) ensures OrderedRow(cfg, s.store, r) {
      RowMadeIsOrdered(cfg, dir, s, call, now, r);
    }
    OrderedStep(cfg, s.store, after, r => RowMade(cfg, dir, s, call, now, r));
  }

  lemma CarefulBefore(cfg: Platform, dir: Directory, w: World, events: seq<Event>, shared: bool)
    requires CarefulRun(cfg, dir, w, events, shared) && events != []
    ensures CarefulRun(cfg, dir, w, events[..|events| - 1], shared)
    ensures CarefulCall(cfg, events[|events| - 1].call)
  {
    HonestBefore(cfg, dir, w, events, shared);
    assert forall e :: e in events[..|events| - 1] ==> e in events;
    assert events[|events| - 1] in events;
  }

  /** In every state of a careful run all stored credentials are in order, delegations
      with their ancestors. */
  lemma {:induction false} CarefulReachable(cfg: Platform, dir: Directory, w: World, events: seq<Event>, shared: bool)
    requires CarefulRun(cfg, dir, w, events, shared) && KeysGenuine(cfg, dir, w) && KeysApart(cfg, dir)
    ensures Ordered(cfg, Run(cfg, dir, Start(shared), events).store)
    decreases |events|
  {
    if events != [] {
      var before, last := events[..|events| - 1], events[|events| - 1];
      CarefulBefore(cfg, dir, w, events, shared);
      HonestBefore(cfg, dir, w, events, shared);
      CarefulReachable(cfg, dir, w, before, shared);
      UpheldReachable(cfg, dir, w, before, shared);
      ApplyKeepsOrder(cfg, dir, w, Run(cfg, dir, Start(shared), before), last.call, last.at);
    }
  }

  // ---- What is then signed --------------------------------------------------------

  lemma WellLinkedInOrder(e: Credential)
    requires WellLinked(e)
    ensures InOrder(e)
  {
    if Delegated(e) {
      WellLinkedStructure(e);
    }
  }

  lemma LinksNameParents(e: Credential)
    requires WellLinked(e)
    ensures var chain := ChainOf(e);
            forall i :: 1 <= i < |chain| ==> chain[i].body.subject.parentVcId == Some(chain[i - 1].body.id)
  {
    var chain := ChainOf(e);
    forall i | 1 <= i < |chain| ensures chain[i].body.subject.parentVcId == Some(chain[i - 1].body.id) {
      assert IntegrityLinkFault(chain[i - 1], chain[i], i, MaxDepthOf(chain[0])).None?;
    }
  }

  lemma ChainIsStored(cfg: Platform, st: Store, e: Credential)
    requires Ordered(cfg, st) && StoredAs(st, e)
    ensures forall c :: c in ChainOf(e) ==>
              StoredAs(st, c) && st.vcs[c.body.id].parentVcId == c.body.subject.parentVcId
  {
    assert OrderedRow(cfg, st, st.vcs[e.body.id]);
    forall c | c in ChainOf(e)
      ensures StoredAs(st, c) && st.vcs[c.body.id].parentVcId == c.body.subject.parentVcId
    {
      assert OrderedRow(cfg, st, st.vcs[c.body.id]);
    }
  }

  lemma OrderedIsHomegrown(cfg: Platform, st: Store, e: Credential)
    requires Ordered(cfg, st) && StoredAs(st, e) && IsAgentType(e)
    ensures InOrder(e) && Homegrown(st, e) && WellLinked(e)
  {
    assert OrderedRow(cfg, st, st.vcs[e.body.id]);
    ChainIsStored(cfg, st, e);
    WellLinkedInOrder(e);
    LinksNameParents(e);
    forall i | 1 <= i < |WalkOf(e)| ensures HangsOff(st, WalkOf(e)[i], WalkOf(e)[i - 1]) {
      assert WalkOf(e)[i] in ChainOf(e);
    }
  }

  lemma StoredIdsFix(cfg: Platform, st: Store, entries: seq<Credential>)
    requires Ordered(cfg, st) && forall e :: e in entries ==> StoredAs(st, e)
    ensures IdsFix(entries)
  {
    forall c | Appears(c, entries) ensures StoredAs(st, c) {
      var e :| e in entries && c in ChainOf(e);
      ChainIsStored(cfg, st, e);
    }
  }

  lemma OrderedReach(cfg: Platform, st: Store, did: Did, target: string, user: Option<string>, now: int, g: Credential)
    requires Ordered(cfg, st) && Chosen(st, did, target, user, now).Ok?
    requires g in Chosen(st, did, target, user, now).value.grants
    ensures NamesSomebody(Chosen(st, did, target, user, now).value, g, did)
  {
    var c := Chosen(st, did, target, user, now).value;
    ChosenFit(st, did, target, user, now);
    ChosenStored(st, did, target, user, now);
    assert GrantCarried(st, g, c, did, target, user.value, now);
    if !GrantFor(st, g, did, target, user.value, now) {
      var vc, holder :| InheritedThrough(st, g, c, vc, holder, target, user.value, now);
      assert AgentFor(st, vc, did, now);
      OrderedIsHomegrown(cfg, st, vc);
      EmbeddedOnChain(vc, holder);
      StoredIdsFix(cfg, st, c.agentCredentials);
      UniqueIdsName(c.agentCredentials, holder);
    }
  }

  lemma EmbeddedOnChain(e: Credential, did: Did)
    requires WellLinked(e) && did in ChainDids(e.body.chain)
    ensures OnChain(did, e)
  {
    var c :| c in e.body.chain && c.body.subject.id == did;
    assert |ChainOf(e)| > 1 && c in ChainOf(e);
  }

  lemma OrderedGrant(cfg: Platform, st: Store, g: Credential)
    requires Ordered(cfg, st) && StoredAs(st, g) && IsGrantType(g)
    ensures ConsentOf(g).Some?
  {
    assert OrderedRow(cfg, st, st.vcs[g.body.id]);
  }

  lemma InOrderBut(c: Inherited, did: Did, target: string)
    requires forall e :: e in c.agentCredentials ==> InOrder(e)
    requires forall g :: g in c.grants ==> ConsentOf(g).Some? && NamesSomebody(c, g, did)
    ensures ChosenInOrder(c, did, target) <==> forall e :: e in c.agentCredentials ==> FitsTarget(e, target)
  {
  }

  /** What signVP chooses among credentials in order is in order, but for a binding to
      another service; and its delegations were grown here. */
  lemma OrderedChoice(cfg: Platform, st: Store, did: Did, target: string, user: Option<string>, now: int)
    requires Ordered(cfg, st) && Chosen(st, did, target, user, now).Ok?
    ensures var c := Chosen(st, did, target, user, now).value;
            && (ChosenInOrder(c, did, target) <==> forall e :: e in c.agentCredentials ==> FitsTarget(e, target))
            && (forall e :: e in c.agentCredentials ==> Homegrown(st, e))
  {
    var c := Chosen(st, did, target, user, now).value;
    ChosenStored(st, did, target, user, now);
    ChosenKinds(st, did, target, user, now);
    forall e | e in c.agentCredentials ensures InOrder(e) && Homegrown(st, e) {
      OrderedIsHomegrown(cfg, st, e);
    }
    forall g | g in c.grants ensures ConsentOf(g).Some? && NamesSomebody(c, g, did) {
      OrderedGrant(cfg, st, g);
      OrderedReach(cfg, st, did, target, user, now, g);
    }
    InOrderBut(c, did, target);
  }

  /** So in a careful and gentle run with a forward clock what signVP signs is accepted,
      as long as the world outside holds, unless it carries a credential bound to
      another service. */
  lemma CarefulPresentations(cfg: Platform, dir: Directory, w: World, events: seq<Event>, shared: bool,
                             did: Did, target: string, user: Option<string>, now: int, id: string,
                             opts: VerifyOptions, seen: World)
    requires CarefulRun(cfg, dir, w, events, shared) && KeysGenuine(cfg, dir, w) && KeysApart(cfg, dir)
    requires Forward(events, now) && GentleRun(cfg, dir, events, shared)
    requires SignVp(dir, Run(cfg, dir, Start(shared), events).store, did, target, user, now, id).Ok?
    requires SeesStore(cfg, w, seen, Run(cfg, dir, Start(shared), events).store)
    requires GenuineHolder(WalletOf(dir, did), seen) && now <= seen.now < now + VP_LIFETIME
    requires Truthy(opts.expectedTargetService) ==> opts.expectedTargetService == Some(target)
    requires var c := Chosen(Run(cfg, dir, Start(shared), events).store, did, target, user, now).value;
             AllOutsideHolds(cfg, c, seen, opts)
    ensures var st := Run(cfg, dir, Start(shared), events).store;
            VpResult(SignVp(dir, st, did, target, user, now, id).value, opts, seen).Ok? <==>
            forall e :: e in Chosen(st, did, target, user, now).value.agentCredentials ==> FitsTarget(e, target)
  {
    CarefulReachable(cfg, dir, w, events, shared);
    OrderedChoice(cfg, Run(cfg, dir, Start(shared), events).store, did, target, user, now);
    PresentationsAreAccepted(cfg, dir, w, events, shared, did, target, user, now, id, opts, seen);
  }
}
