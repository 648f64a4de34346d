/** Which of the presentations that signVP signs the verifier accepts, and what they
    are worth, given only what becomes of each credential by itself. */
module Acceptance {
  import opened Common
  import opened Credentials
  import opened Verifier
  import opened VerifierFormula
  import opened VcStore
  import opened VcLifecycle
  import opened AgentFlows
  import opened Presentations

  /** The holder's DID resolves and its presentations verify. */
  ghost predicate GenuineHolder(wallet: Wallet, w: World) {
    w.resolvable(wallet.did) && forall b :: w.verifiesVp(wallet.did, b, wallet.signVp(b))
  }

  // ---- Credential by credential ------------------------------------------------

  /** What a credential fails with by itself, if it does. */
  type Judge = Credential -> Option<Error>

  function JudgedBy(opts: VerifyOptions, w: World): Judge {
    c => var r := VerifyCredential(c, opts, w); if r.Err? then Some(r.error) else None
  }

  function FirstFault(cs: seq<Credential>, judge: Judge): Option<Error> {
    if cs == [] then None
    else if judge(cs[0]).Some? then judge(cs[0])
    else if cs[0].body.subject.privilegeScopes.None? then Some(VpInvalidStructure)
    else FirstFault(cs[1..], judge)
  }

  lemma {:induction false} FirstFaultIs(cs: seq<Credential>, opts: VerifyOptions, w: World)
    ensures CredentialFault(cs, opts, w) == FirstFault(cs, JudgedBy(opts, w))
  {
    if cs != [] {
      FirstFaultIs(cs[1..], opts, w);
    }
  }

  lemma {:induction false} FirstFaultFree(cs: seq<Credential>, judge: Judge)
    ensures FirstFault(cs, judge).None? <==>
            forall c :: c in cs ==> judge(c).None? && c.body.subject.privilegeScopes.Some?
  {
    if cs != [] {
      assert cs == [cs[0]] + cs[1..];
      FirstFaultFree(cs[1..], judge);
    }
  }

  // ---- What a caller can look at ------------------------------------------------

  /** The credential is bound to no service, or to this one. */
  predicate FitsTarget(e: Credential, target: string) {
    !Truthy(e.body.targetService) || e.body.targetService.value == target
  }

  predicate FitsEntry(e: Credential, target: string) {
    e.proof.Some? && e.body.subject.privilegeScopes.Some? && FitsTarget(e, target)
  }

  /** Every credential walked over has scopes, and a delegated one brings a chain of
      ancestors in order. */
  predicate InOrder(e: Credential) {
    && (forall c :: c in WalkOf(e) ==> c.body.subject.privilegeScopes.Some?)
    && (Delegated(e) ==> |ChainOf(e)| >= 2 && StructureFault(ChainOf(e)).None?)
  }

  predicate ChainStands(e: Credential, judge: Judge) {
    InOrder(e) && forall c :: c in WalkOf(e) ==> judge(c).None?
  }

  /** The walk ends, root first, in something worse than a revocation or an expiry. */
  predicate ChainSinks(e: Credential, judge: Judge) {
    var fault := FirstFault(WalkOf(e), judge);
    if Delegated(e) && |ChainOf(e)| < 2 then true
    else if fault.Some? then Sunk(fault.value).Fatal?
    else Delegated(e) && StructureFault(ChainOf(e)).Some?
  }

  /** A signed grant that fits its schema. */
  predicate FitsGrant(g: Credential) {
    g.proof.Some? && ConsentOf(g).Some?
  }

  predicate GrantSinks(g: Credential, judge: Judge) {
    judge(g).Some? && Sunk(judge(g).value).Fatal?
  }

  function StandingOf(c: Inherited, judge: Judge): seq<Credential> {
    Filter(e => ChainStands(e, judge), c.agentCredentials)
  }

  /** The grant belongs: to the holder, or to a DID on the chain of a chosen credential
      that stands. */
  ghost predicate GrantReached(c: Inherited, g: Credential, did: Did, judge: Judge) {
    g.body.subject.id == did || NamedFirst(g.body.subject.id, Walks(StandingOf(c, judge)))
  }

  /** Every chosen credential fits, none sinks, and one chain stands. */
  ghost predicate AgentsFit(c: Inherited, target: string, judge: Judge) {
    && (forall e :: e in c.agentCredentials ==> FitsEntry(e, target) && !ChainSinks(e, judge))
    && (exists e :: e in c.agentCredentials && ChainStands(e, judge))
  }

  /** Every chosen grant fits, is reached and does not sink; one stands, if there are
      any. */
  ghost predicate GrantsFit(c: Inherited, did: Did, judge: Judge) {
    && (forall g :: g in c.grants ==> FitsGrant(g) && GrantReached(c, g, did, judge) && !GrantSinks(g, judge))
    && (c.grants != [] ==> exists g :: g in c.grants && judge(g).None?)
  }

  ghost predicate ChosenPass(c: Inherited, did: Did, target: string, judge: Judge) {
    AgentsFit(c, target, judge) && GrantsFit(c, did, judge)
  }

  // ---- The verifier's side --------------------------------------------------------

  lemma DelegatedOutcome(e: Credential, cx: Context)
    requires Delegated(e) && e.body.subject.id == cx.vp.holder && FitsEntry(e, cx.vp.targetService)
    ensures AgentOutcome(e, cx).Fatal? <==> ChainSinks(e, JudgedBy(cx.opts, cx.w))
    ensures StandsIn(e, cx) <==> ChainStands(e, JudgedBy(cx.opts, cx.w))
  {
    FirstFaultIs(ChainOf(e), cx.opts, cx.w);
    FirstFaultFree(ChainOf(e), JudgedBy(cx.opts, cx.w));
  }

  lemma SingleOutcome(e: Credential, cx: Context)
    requires !Delegated(e) && e.body.subject.id == cx.vp.holder && FitsEntry(e, cx.vp.targetService)
    ensures AgentOutcome(e, cx).Fatal? <==> ChainSinks(e, JudgedBy(cx.opts, cx.w))
    ensures StandsIn(e, cx) <==> ChainStands(e, JudgedBy(cx.opts, cx.w))
  {
    var judge := JudgedBy(cx.opts, cx.w);
    assert [e][1..] == [] && FirstFault([], judge).None?;
    assert FirstFault(WalkOf(e), judge) == judge(e);
  }

  /** What the verifier makes of an agent credential of the holder. */
  lemma AgentOutcomeIs(e: Credential, cx: Context)
    requires e.body.subject.id == cx.vp.holder
    ensures AgentOutcome(e, cx).Fatal? <==>
            !FitsEntry(e, cx.vp.targetService) || ChainSinks(e, JudgedBy(cx.opts, cx.w))
    ensures StandsIn(e, cx) <==> FitsEntry(e, cx.vp.targetService) && ChainStands(e, JudgedBy(cx.opts, cx.w))
  {
    if FitsEntry(e, cx.vp.targetService) {
      if Delegated(e) {
        DelegatedOutcome(e, cx);
      } else {
        SingleOutcome(e, cx);
      }
    }
  }

  lemma AgentsPass(c: Inherited, cx: Context)
    requires Carries(cx.vp, c)
    ensures AgentsAccepted(cx) <==> AgentsFit(c, cx.vp.targetService, JudgedBy(cx.opts, cx.w))
  {
    forall e | e in c.agentCredentials
      ensures AgentOutcome(e, cx).Fatal? <==>
              !FitsEntry(e, cx.vp.targetService) || ChainSinks(e, JudgedBy(cx.opts, cx.w))
      ensures StandsIn(e, cx) <==> FitsEntry(e, cx.vp.targetService) && ChainStands(e, JudgedBy(cx.opts, cx.w))
    {
      AgentOutcomeIs(e, cx);
    }
  }

  lemma StandingIs(c: Inherited, cx: Context)
    requires Carries(cx.vp, c)
    requires forall e :: e in c.agentCredentials ==> FitsEntry(e, cx.vp.targetService)
    ensures Standing(Agents(cx.vp), cx) == StandingOf(c, JudgedBy(cx.opts, cx.w))
  {
    forall e | e in c.agentCredentials ensures StandsIn(e, cx) <==> ChainStands(e, JudgedBy(cx.opts, cx.w)) {
      AgentOutcomeIs(e, cx);
    }
    FilterSame(e => StandsIn(e, cx), e => ChainStands(e, JudgedBy(cx.opts, cx.w)), c.agentCredentials);
  }

  lemma GrantPasses(c: Inherited, cx: Context, g: Credential)
    requires Carries(cx.vp, c) && g in c.grants && cx.vp.delegatedBy.Some?
    requires Standing(Agents(cx.vp), cx) == StandingOf(c, JudgedBy(cx.opts, cx.w))
    ensures GrantAdmitted(g, cx) <==>
            && FitsGrant(g) && GrantReached(c, g, cx.vp.holder, JudgedBy(cx.opts, cx.w))
            && !GrantSinks(g, JudgedBy(cx.opts, cx.w))
  {
    assert CarriesGrant(cx.vp, g);
  }

  lemma GrantsPass(c: Inherited, cx: Context)
    requires Carries(cx.vp, c) && (c.grants != [] ==> cx.vp.delegatedBy.Some?)
    requires forall e :: e in c.agentCredentials ==> FitsEntry(e, cx.vp.targetService)
    ensures GrantsAccepted(cx) <==> GrantsFit(c, cx.vp.holder, JudgedBy(cx.opts, cx.w))
  {
    var judge := JudgedBy(cx.opts, cx.w);
    StandingIs(c, cx);
    forall g | g in c.grants
      ensures GrantAdmitted(g, cx) <==>
              FitsGrant(g) && GrantReached(c, g, cx.vp.holder, judge) && !GrantSinks(g, judge)
    {
      GrantPasses(c, cx, g);
    }
    assert forall g :: GrantStands(g, cx) <==> judge(g).None?;
  }

  lemma CarriedAcceptedIff(vp: Presentation, c: Inherited, opts: VerifyOptions, w: World)
    requires EnvelopeFault(vp, opts, w).None? && Carries(vp.body, c)
    requires c.grants != [] ==> vp.body.delegatedBy.Some?
    ensures VpResult(vp, opts, w).Ok? <==>
            ChosenPass(c, vp.body.holder, vp.body.targetService, JudgedBy(opts, w))
  {
    var cx := Context(vp.body, opts, w);
    AcceptanceIsFormula(vp, opts, w);
    AgentsPass(c, cx);
    if forall e :: e in c.agentCredentials ==> FitsEntry(e, vp.body.targetService) {
      GrantsPass(c, cx);
    }
  }

  // ---- Only the judgements matter ---------------------------------------------------

  lemma {:induction false} SameFirstFault(cs: seq<Credential>, a: Judge, b: Judge)
    requires forall c :: a(c) == b(c)
    ensures FirstFault(cs, a) == FirstFault(cs, b)
  {
    if cs != [] {
      SameFirstFault(cs[1..], a, b);
    }
  }

  lemma SameJudgements(c: Inherited, did: Did, target: string, a: Judge, b: Judge)
    requires forall x :: a(x) == b(x)
    ensures ChosenPass(c, did, target, a) <==> ChosenPass(c, did, target, b)
    ensures AllStand(c, a) <==> AllStand(c, b)
  {
    forall e ensures (ChainSinks(e, a) <==> ChainSinks(e, b)) && (ChainStands(e, a) <==> ChainStands(e, b)) {
      SameChain(e, a, b);
    }
    FilterSame(e => ChainStands(e, a), e => ChainStands(e, b), c.agentCredentials);
    SameGrants(c, did, a, b);
  }

  lemma SameChain(e: Credential, a: Judge, b: Judge)
    requires forall x :: a(x) == b(x)
    ensures ChainSinks(e, a) <==> ChainSinks(e, b)
    ensures ChainStands(e, a) <==> ChainStands(e, b)
  {
    SameFirstFault(WalkOf(e), a, b);
  }

  lemma SameGrants(c: Inherited, did: Did, a: Judge, b: Judge)
    requires forall x :: a(x) == b(x)
    requires StandingOf(c, a) == StandingOf(c, b)
    ensures GrantsFit(c, did, a) <==> GrantsFit(c, did, b)
  {
  }

  // ---- Accepted, exactly when -----------------------------------------------------

  /** Which of the presentations signVP assembles are accepted, whatever is stored and
      whatever became of it since: every chosen credential must fit its entry and not
      fail for a reason other than revocation or expiry, some chain must still stand,
      each grant must fit its schema and be the holder's or reach such a chain, and
      some grant must stand. */
  lemma SignedVpAcceptedIff(dir: Directory, st: Store, did: Did, target: string, user: Option<string>, signedAt: int,
                            id: string, opts: VerifyOptions, w: World)
    requires Faithful(st) && SignVp(dir, st, did, target, user, signedAt, id).Ok?
    requires GenuineHolder(WalletOf(dir, did), w) && w.now < signedAt + VP_LIFETIME
    requires Truthy(opts.expectedTargetService) ==> opts.expectedTargetService == Some(target)
    ensures VpResult(SignVp(dir, st, did, target, user, signedAt, id).value, opts, w).Ok? <==>
            ChosenPass(Chosen(st, did, target, user, signedAt).value, did, target, JudgedBy(opts, w))
  {
    var vp := SignVp(dir, st, did, target, user, signedAt, id).value;
    SignedVpIs(dir, st, did, target, user, signedAt, id);
    NoUserNoGrants(st, did, target, user, signedAt);
    SignedCarries(dir, st, did, target, user, signedAt, id);
    CarriedAcceptedIff(vp, Chosen(st, did, target, user, signedAt).value, opts, w);
  }

  /** Everything the verifier looks at stands by itself. */
  ghost predicate AllStand(c: Inherited, judge: Judge) {
    && (forall e, x :: e in c.agentCredentials && x in WalkOf(e) ==> judge(x).None?)
    && (forall g :: g in c.grants ==> judge(g).None?)
  }

  /** What is then left to ask, all of it in the chosen credentials themselves: each is
      in order and bound to no other service, and each grant fits its schema and names
      the holder or somebody on a chosen chain. */
  ghost predicate ChosenInOrder(c: Inherited, did: Did, target: string) {
    && (forall e :: e in c.agentCredentials ==> FitsTarget(e, target) && InOrder(e))
    && (forall g :: g in c.grants ==> ConsentOf(g).Some? && NamesSomebody(c, g, did))
  }

  ghost predicate NamesSomebody(c: Inherited, g: Credential, did: Did) {
    g.body.subject.id == did || NamedFirst(g.body.subject.id, Walks(c.agentCredentials))
  }

  lemma StandsOrSinks(e: Credential, judge: Judge)
    requires forall x :: x in WalkOf(e) ==> judge(x).None?
    ensures InOrder(e) <==> ChainStands(e, judge)
    ensures InOrder(e) <==> !ChainSinks(e, judge)
  {
    FirstFaultFree(WalkOf(e), judge);
    if e.body.subject.privilegeScopes.None? || !forall c :: c in WalkOf(e) ==> c.body.subject.privilegeScopes.Some? {
      ShapelessSinks(WalkOf(e), judge);
    }
  }

  lemma {:induction false} ShapelessSinks(cs: seq<Credential>, judge: Judge)
    requires forall x :: x in cs ==> judge(x).None?
    requires exists x :: x in cs && x.body.subject.privilegeScopes.None?
    ensures FirstFault(cs, judge) == Some(VpInvalidStructure)
  {
    assert cs == [cs[0]] + cs[1..];
    if cs[0].body.subject.privilegeScopes.Some? {
      ShapelessSinks(cs[1..], judge);
    }
  }

  lemma {:induction false} FilterEvery(p: Credential -> bool, s: seq<Credential>)
    requires forall c :: c in s ==> p(c)
    ensures Filter(p, s) == s
  {
    if s != [] {
      assert s == [s[0]] + s[1..] && s[0] in s;
      FilterEvery(p, s[1..]);
    }
  }

  lemma AllStandAgents(c: Inherited, target: string, judge: Judge)
    requires c.agentCredentials != [] && AllStand(c, judge)
    requires forall e :: judge(e).None? ==> e.proof.Some?
    ensures AgentsFit(c, target, judge) <==> forall e :: e in c.agentCredentials ==> FitsTarget(e, target) && InOrder(e)
    ensures forall e :: e in c.agentCredentials ==> (InOrder(e) <==> ChainStands(e, judge))
  {
    forall e | e in c.agentCredentials
      ensures (InOrder(e) <==> ChainStands(e, judge)) && (InOrder(e) <==> !ChainSinks(e, judge))
      ensures e in WalkOf(e) && e.proof.Some?
    {
      StandsOrSinks(e, judge);
      assert e in WalkOf(e);
    }
    assert c.agentCredentials[0] in c.agentCredentials;
  }

  lemma AllStandGrants(c: Inherited, did: Did, judge: Judge)
    requires AllStand(c, judge) && forall e :: judge(e).None? ==> e.proof.Some?
    requires StandingOf(c, judge) == c.agentCredentials
    ensures GrantsFit(c, did, judge) <==> forall g :: g in c.grants ==> ConsentOf(g).Some? && NamesSomebody(c, g, did)
  {
    assert c.grants != [] ==> c.grants[0] in c.grants;
  }

  lemma AllStandPass(c: Inherited, did: Did, target: string, judge: Judge)
    requires c.agentCredentials != [] && AllStand(c, judge)
    requires forall e :: judge(e).None? ==> e.proof.Some?
    ensures ChosenPass(c, did, target, judge) <==> ChosenInOrder(c, did, target)
  {
    AllStandAgents(c, target, judge);
    if forall e :: e in c.agentCredentials ==> InOrder(e) {
      FilterEvery(e => ChainStands(e, judge), c.agentCredentials);
      AllStandGrants(c, did, judge);
    }
  }

  /** While every credential the verifier looks at stands by itself, what signVP signed
      is accepted until it expires exactly when what it chose is in order. */
  lemma SignedVpAccepted(dir: Directory, st: Store, did: Did, target: string, user: Option<string>, signedAt: int,
                         id: string, opts: VerifyOptions, w: World)
    requires Faithful(st) && SignVp(dir, st, did, target, user, signedAt, id).Ok?
    requires GenuineHolder(WalletOf(dir, did), w) && w.now < signedAt + VP_LIFETIME
    requires Truthy(opts.expectedTargetService) ==> opts.expectedTargetService == Some(target)
    requires AllStand(Chosen(st, did, target, user, signedAt).value, JudgedBy(opts, w))
    ensures VpResult(SignVp(dir, st, did, target, user, signedAt, id).value, opts, w).Ok? <==>
            ChosenInOrder(Chosen(st, did, target, user, signedAt).value, did, target)
  {
    SignedVpIs(dir, st, did, target, user, signedAt, id);
    SignedVpAcceptedIff(dir, st, did, target, user, signedAt, id, opts, w);
    AllStandPass(Chosen(st, did, target, user, signedAt).value, did, target, JudgedBy(opts, w));
  }

  // ---- What it is worth ------------------------------------------------------------

  /** The carried grant `g` lets the scope of the carried `vc` through. */
  ghost predicate WorthThrough(c: Inherited, vc: Credential, g: Credential, s: Scope) {
    && vc in c.agentCredentials && g in c.grants
    && s in ScopesOf(vc)
    && ConsentOf(g).Some? && s in ConsentOf(g).value.scopes
    && OnChain(g.body.subject.id, vc)
  }

  /** What such a presentation is worth: the scopes of the chosen credentials whose
      chains stand and, with a user, of those only what a chosen grant that stands
      names, to the holder or to somebody on that very chain. */
  lemma SignedVpWorth(dir: Directory, st: Store, did: Did, target: string, user: Option<string>, signedAt: int,
                      id: string, opts: VerifyOptions, w: World)
    requires Faithful(st) && SignVp(dir, st, did, target, user, signedAt, id).Ok?
    requires VpResult(SignVp(dir, st, did, target, user, signedAt, id).value, opts, w).Ok?
    ensures var vp, judge := SignVp(dir, st, did, target, user, signedAt, id).value, JudgedBy(opts, w);
            var c, r := Chosen(st, did, target, user, signedAt).value, VpResult(vp, opts, w).value;
            && (forall s :: s in r.privilegeScopes <==>
                  exists vc :: vc in c.agentCredentials && ChainStands(vc, judge) && s in ScopesOf(vc))
            && (!Truthy(user) ==> forall s :: s in r.effectiveScopes <==> s in r.privilegeScopes)
            && (Truthy(user) ==> forall s :: s in r.effectiveScopes <==>
                  exists vc, g :: WorthThrough(c, vc, g, s) && ChainStands(vc, judge) && judge(g).None?)
  {
    var vp := SignVp(dir, st, did, target, user, signedAt, id).value;
    var c := Chosen(st, did, target, user, signedAt).value;
    SignedVpIs(dir, st, did, target, user, signedAt, id);
    SignedCarries(dir, st, did, target, user, signedAt, id);
    NoUserNoGrants(st, did, target, user, signedAt);
    CarriedWorth(vp, c, opts, w);
  }

  lemma CarriedWorth(vp: Presentation, c: Inherited, opts: VerifyOptions, w: World)
    requires VpResult(vp, opts, w).Ok? && Carries(vp.body, c)
    ensures var r, judge := VpResult(vp, opts, w).value, JudgedBy(opts, w);
            && (forall s :: s in r.privilegeScopes <==>
                  exists vc :: vc in c.agentCredentials && ChainStands(vc, judge) && s in ScopesOf(vc))
            && (c.grants == [] ==> forall s :: s in r.effectiveScopes <==> s in r.privilegeScopes)
            && (c.grants != [] ==> forall s :: s in r.effectiveScopes <==>
                  exists vc, g :: WorthThrough(c, vc, g, s) && ChainStands(vc, judge) && judge(g).None?)
  {
    var cx := Context(vp.body, opts, w);
    ScopesAreFormula(vp, opts, w);
    AcceptanceIsFormula(vp, opts, w);
    WorthOfGrants(c, cx);
    AcceptedStand(c, cx);
  }

  lemma WorthOfGrants(c: Inherited, cx: Context)
    requires Carries(cx.vp, c) && AgentsAccepted(cx)
    ensures c.grants != [] ==> forall s :: MayAct(s, cx) <==>
              exists vc, g :: WorthThrough(c, vc, g, s) && ChainStands(vc, JudgedBy(cx.opts, cx.w))
                              && JudgedBy(cx.opts, cx.w)(g).None?
  {
    AcceptedStand(c, cx);
    forall s ensures c.grants != [] ==> (MayAct(s, cx) <==>
        exists vc, g :: WorthThrough(c, vc, g, s) && ChainStands(vc, JudgedBy(cx.opts, cx.w))
                        && JudgedBy(cx.opts, cx.w)(g).None?)
    {
      WorthIsFormula(c, cx, s);
    }
  }

  lemma AcceptedStand(c: Inherited, cx: Context)
    requires Carries(cx.vp, c) && AgentsAccepted(cx)
    ensures forall e :: e in c.agentCredentials ==>
              (StandsIn(e, cx) <==> ChainStands(e, JudgedBy(cx.opts, cx.w))) && OnChain(cx.vp.holder, e)
  {
    forall e | e in c.agentCredentials
      ensures (StandsIn(e, cx) <==> ChainStands(e, JudgedBy(cx.opts, cx.w))) && OnChain(cx.vp.holder, e)
    {
      AgentOutcomeIs(e, cx);
      assert e in WalkOf(e);
    }
  }

  lemma WorthIsFormula(c: Inherited, cx: Context, s: Scope)
    requires Agents(cx.vp) == c.agentCredentials && Grants(cx.vp) == c.grants
    requires forall e :: e in c.agentCredentials ==>
               (StandsIn(e, cx) <==> ChainStands(e, JudgedBy(cx.opts, cx.w))) && OnChain(cx.vp.holder, e)
    ensures c.grants != [] ==> (MayAct(s, cx) <==>
              exists vc, g :: WorthThrough(c, vc, g, s) && ChainStands(vc, JudgedBy(cx.opts, cx.w))
                              && JudgedBy(cx.opts, cx.w)(g).None?)
  {
    var judge := JudgedBy(cx.opts, cx.w);
    if c.grants != [] && MayAct(s, cx) {
      var g :| g in c.grants && GrantStands(g, cx) && NamesFor(g, s, cx);
      if g.body.subject.id == cx.vp.holder {
        var vc :| vc in c.agentCredentials && StandsIn(vc, cx) && s in ScopesOf(vc);
        assert WorthThrough(c, vc, g, s);
      } else {
        var vc :| vc in c.agentCredentials && StandsIn(vc, cx) && OnChain(g.body.subject.id, vc) && s in ScopesOf(vc);
        assert WorthThrough(c, vc, g, s);
      }
    }
    if vc, g :| WorthThrough(c, vc, g, s) && ChainStands(vc, judge) && judge(g).None? {
      assert NamesFor(g, s, cx);
    }
  }
}
