/** verifyVP as one set formula: which presentations are accepted, what the holder
    may do, and that neither depends on the order of the entries. */
module VerifierFormula {
  import opened Common
  import opened Credentials
  import opened Verifier

  predicate StandsIn(vc: Credential, cx: Context) {
    AgentOutcome(vc, cx).Stands?
  }

  /** Every DID on the credential's chain, its own subject included. */
  ghost predicate OnChain(did: Did, vc: Credential) {
    exists c :: c in WalkOf(vc) && c.body.subject.id == did
  }

  ghost predicate HeldAmong(s: Scope, entries: seq<Credential>, cx: Context) {
    exists vc :: vc in entries && StandsIn(vc, cx) && s in ScopesOf(vc)
  }

  function Standing(entries: seq<Credential>, cx: Context): seq<Credential> {
    Filter(vc => StandsIn(vc, cx), entries)
  }

  /** The walks one after the other. */
  function Walks(vcs: seq<Credential>): seq<Credential> {
    if vcs == [] then [] else WalkOf(vcs[0]) + Walks(vcs[1..])
  }

  /** The DID is the subject of the first of these credentials with its id: only that
      one is told apart by its id. */
  ghost predicate NamedFirst(did: Did, cs: seq<Credential>) {
    exists i :: 0 <= i < |cs| && cs[i].body.subject.id == did && IsFirst(cs, i)
  }

  ghost predicate IsFirst(cs: seq<Credential>, i: nat)
    requires i < |cs|
  {
    forall j :: 0 <= j < i ==> cs[j].body.id != cs[i].body.id
  }

  /** A grant to this DID has a standing credential to belong to. */
  ghost predicate ReachedAmong(did: Did, entries: seq<Credential>, cx: Context) {
    NamedFirst(did, Walks(Standing(entries, cx)))
  }

  ghost predicate HeldThrough(s: Scope, did: Did, entries: seq<Credential>, cx: Context) {
    exists vc :: vc in entries && StandsIn(vc, cx) && OnChain(did, vc) && s in ScopesOf(vc)
  }

  // ---- The agent loop ------------------------------------------------------

  lemma StandingLinks(vc: Credential, cx: Context)
    requires StandsIn(vc, cx)
    ensures AgentOutcome(vc, cx).links == Links(WalkOf(vc))
    ensures forall did :: did in Subjects(AgentOutcome(vc, cx).links) <==> OnChain(did, vc)
  {
  }

  lemma {:induction false} TallyFails(t: Tally, entries: seq<Credential>, cx: Context)
    ensures TallyAgents(t, entries, cx).Err? <==> exists vc :: vc in entries && AgentOutcome(vc, cx).Fatal?
    decreases entries
  {
    if entries != [] {
      assert entries == [entries[0]] + entries[1..];
      match AgentOutcome(entries[0], cx)
      case Fatal(_) =>
      case Dropped(e) => TallyFails(t.(dropped := Some(e)), entries[1..], cx);
      case Stands(links, warn) => TallyFails(AddAgent(t, entries[0], links, warn), entries[1..], cx);
    }
  }

  lemma {:induction false} TallyHolds(t: Tally, entries: seq<Credential>, cx: Context)
    requires TallyAgents(t, entries, cx).Ok? && NoDup(t.privilege)
    ensures var r := TallyAgents(t, entries, cx).value;
            && NoDup(r.privilege)
            && (r.valid > 0 <==> t.valid > 0 || exists vc :: vc in entries && StandsIn(vc, cx))
            && forall s :: s in r.privilege <==> s in t.privilege || HeldAmong(s, entries, cx)
    decreases entries
  {
    if entries != [] {
      assert entries == [entries[0]] + entries[1..];
      match AgentOutcome(entries[0], cx)
      case Fatal(_) => assert false;
      case Dropped(e) => TallyHolds(t.(dropped := Some(e)), entries[1..], cx);
      case Stands(links, warn) =>
        assert StandsIn(entries[0], cx);
        TallyHolds(AddAgent(t, entries[0], links, warn), entries[1..], cx);
    }
  }

  lemma {:induction false} TallyThrough(t: Tally, entries: seq<Credential>, cx: Context, s: Scope, did: Did)
    requires TallyAgents(t, entries, cx).Ok?
    ensures DelegatedThrough(s, did, TallyAgents(t, entries, cx).value.authorities)
       <==> DelegatedThrough(s, did, t.authorities) || HeldThrough(s, did, entries, cx)
    decreases entries
  {
    if entries != [] {
      var vc := entries[0];
      assert entries == [vc] + entries[1..];
      match AgentOutcome(vc, cx)
      case Fatal(_) => assert false;
      case Dropped(e) => TallyThrough(t.(dropped := Some(e)), entries[1..], cx, s, did);
      case Stands(links, warn) =>
        StandingLinks(vc, cx);
        var next := AddAgent(t, vc, links, warn);
        ThroughOneMore(t.authorities, Authority(ScopesOf(vc), Subjects(links)), s, did);
        TallyThrough(next, entries[1..], cx, s, did);
    }
  }

  lemma ThroughOneMore(known: seq<Authority>, a: Authority, s: Scope, did: Did)
    ensures DelegatedThrough(s, did, known + [a])
       <==> DelegatedThrough(s, did, known) || (did in a.subjects && s in a.scopes)
  {
    if DelegatedThrough(s, did, known) {
      var i :| 0 <= i < |known| && did in known[i].subjects && s in known[i].scopes;
      assert (known + [a])[i] == known[i];
    }
    assert (known + [a])[|known|] == a;
  }

  lemma {:induction false} AddLinksConcat(chain: seq<Link>, a: seq<Link>, b: seq<Link>)
    ensures AddLinks(chain, a + b) == AddLinks(AddLinks(chain, a), b)
    decreases a
  {
    if a == [] {
      assert a + b == b;
    } else {
      assert (a + b)[1..] == a[1..] + b;
      AddLinksConcat(if HasId(chain, a[0].vcId) then chain else chain + [a[0]], a[1..], b);
    }
  }

  lemma LinksConcat(a: seq<Credential>, b: seq<Credential>)
    ensures Links(a + b) == Links(a) + Links(b)
  {
  }

  /** The loop gathers the links of the standing credentials, each id once. */
  lemma {:induction false} TallyChain(t: Tally, entries: seq<Credential>, cx: Context)
    requires TallyAgents(t, entries, cx).Ok?
    ensures TallyAgents(t, entries, cx).value.chain == AddLinks(t.chain, Links(Walks(Standing(entries, cx))))
    decreases entries
  {
    if entries != [] {
      var vc := entries[0];
      match AgentOutcome(vc, cx)
      case Fatal(_) => assert false;
      case Dropped(e) => TallyChain(t.(dropped := Some(e)), entries[1..], cx);
      case Stands(links, warn) =>
        StandingLinks(vc, cx);
        TallyChain(AddAgent(t, vc, links, warn), entries[1..], cx);
        var rest := Standing(entries[1..], cx);
        assert Standing(entries, cx) == [vc] + rest && ([vc] + rest)[1..] == rest;
        LinksConcat(WalkOf(vc), Walks(rest));
        AddLinksConcat(t.chain, Links(WalkOf(vc)), Links(Walks(rest)));
    }
  }

  ghost predicate FirstLink(chain: seq<Link>, links: seq<Link>, i: nat)
    requires i < |links|
  {
    !HasId(chain, links[i].vcId) && forall j :: 0 <= j < i ==> links[j].vcId != links[i].vcId
  }

  /** Keeping one link per id keeps the first. */
  lemma {:induction false} SubjectsAdded(chain: seq<Link>, links: seq<Link>, did: Did)
    ensures did in Subjects(AddLinks(chain, links)) <==>
            || did in Subjects(chain)
            || exists i :: 0 <= i < |links| && links[i].subject == did && FirstLink(chain, links, i)
    decreases links
  {
    if links != [] {
      var next := if HasId(chain, links[0].vcId) then chain else chain + [links[0]];
      SubjectsAdded(next, links[1..], did);
      OneMoreLink(chain, links, did);
    }
  }

  lemma OneMoreLink(chain: seq<Link>, links: seq<Link>, did: Did)
    requires links != []
    ensures var next := if HasId(chain, links[0].vcId) then chain else chain + [links[0]];
            var rest := links[1..];
            (did in Subjects(next) || exists i :: 0 <= i < |rest| && rest[i].subject == did && FirstLink(next, rest, i))
            <==> (did in Subjects(chain)
                  || exists i :: 0 <= i < |links| && links[i].subject == did && FirstLink(chain, links, i))
  {
    var next := if HasId(chain, links[0].vcId) then chain else chain + [links[0]];
    var rest := links[1..];
    forall id ensures HasId(next, id) <==> HasId(chain, id) || id == links[0].vcId {
      assert forall i :: 0 <= i < |chain| ==> next[i] == chain[i];
      assert |next| > |chain| ==> next[|chain|] == links[0];
    }
    forall i | 0 <= i < |rest| ensures FirstLink(next, rest, i) <==> FirstLink(chain, links, i + 1) {
      assert rest[i] == links[i + 1];
      assert forall j :: 0 <= j < i ==> rest[j] == links[j + 1];
      assert forall j :: 0 < j <= i ==> links[j] == rest[j - 1];
    }
    SubjectsOfNext(chain, links[0], did);
    if i :| 0 <= i < |links| && links[i].subject == did && FirstLink(chain, links, i) {
      if i > 0 {
        assert rest[i - 1] == links[i] && FirstLink(next, rest, i - 1);
      }
    }
    assert FirstLink(chain, links, 0) <==> !HasId(chain, links[0].vcId);
  }

  lemma SubjectsOfNext(chain: seq<Link>, l: Link, did: Did)
    ensures did in Subjects(chain + [l]) <==> did in Subjects(chain) || l.subject == did
  {
    assert Subjects(chain + [l]) == Subjects(chain) + [l.subject];
  }

  ghost predicate Appears(c: Credential, entries: seq<Credential>) {
    exists e :: e in entries && c in ChainOf(e)
  }

  /** Credential ids are unique: equal ids mean equal credentials. */
  ghost predicate IdsFix(entries: seq<Credential>) {
    forall c, d :: Appears(c, entries) && Appears(d, entries) && c.body.id == d.body.id ==> c == d
  }

  /** The DIDs the grants are held against: with each id presented once, a DID is
      there when the first credential with its id on the standing chains is about it. */
  lemma ChainDidsAreReached(entries: seq<Credential>, cx: Context, did: Did)
    requires TallyAgents(NOTHING_YET, entries, cx).Ok?
    ensures did in Subjects(TallyAgents(NOTHING_YET, entries, cx).value.chain) <==> ReachedAmong(did, entries, cx)
  {
    var cs := Walks(Standing(entries, cx));
    TallyChain(NOTHING_YET, entries, cx);
    SubjectsAdded([], Links(cs), did);
    assert forall i :: 0 <= i < |cs| ==> Links(cs)[i] == ToLink(cs[i]);
    forall i | 0 <= i < |cs| ensures FirstLink([], Links(cs), i) <==> IsFirst(cs, i) {
    }
  }

  lemma {:induction false} InWalks(vcs: seq<Credential>, c: Credential)
    ensures c in Walks(vcs) <==> exists vc :: vc in vcs && c in WalkOf(vc)
  {
    if vcs != [] {
      assert vcs == [vcs[0]] + vcs[1..];
      InWalks(vcs[1..], c);
    }
  }

  lemma {:induction false} FirstOfItsId(cs: seq<Credential>, k: nat) returns (i: nat)
    requires k < |cs|
    ensures i <= k && cs[i].body.id == cs[k].body.id && IsFirst(cs, i)
    decreases k
  {
    if IsFirst(cs, k) {
      i := k;
    } else {
      var j :| 0 <= j < k && cs[j].body.id == cs[k].body.id;
      i := FirstOfItsId(cs, j);
    }
  }

  lemma NamedIsOnChain(vcs: seq<Credential>, did: Did)
    requires NamedFirst(did, Walks(vcs))
    ensures exists vc :: vc in vcs && OnChain(did, vc)
  {
    var cs := Walks(vcs);
    var i :| 0 <= i < |cs| && cs[i].body.subject.id == did && IsFirst(cs, i);
    InWalks(vcs, cs[i]);
    var vc :| vc in vcs && cs[i] in WalkOf(vc);
    assert OnChain(did, vc);
  }

  lemma WalkAppears(vcs: seq<Credential>, c: Credential)
    requires c in Walks(vcs)
    ensures Appears(c, vcs)
  {
    InWalks(vcs, c);
    var vc :| vc in vcs && c in WalkOf(vc);
    assert c in ChainOf(vc);
  }

  lemma OnChainIsNamed(vcs: seq<Credential>, vc: Credential, did: Did)
    requires IdsFix(vcs) && vc in vcs && OnChain(did, vc)
    ensures NamedFirst(did, Walks(vcs))
  {
    var cs := Walks(vcs);
    var c :| c in WalkOf(vc) && c.body.subject.id == did;
    InWalks(vcs, c);
    var k :| 0 <= k < |cs| && cs[k] == c;
    var i := FirstOfItsId(cs, k);
    WalkAppears(vcs, c);
    WalkAppears(vcs, cs[i]);
  }

  /** With unique ids no DID on a chain is lost. */
  lemma UniqueIdsName(vcs: seq<Credential>, did: Did)
    requires IdsFix(vcs)
    ensures NamedFirst(did, Walks(vcs)) <==> exists vc :: vc in vcs && OnChain(did, vc)
  {
    if NamedFirst(did, Walks(vcs)) {
      NamedIsOnChain(vcs, did);
    }
    if vc :| vc in vcs && OnChain(did, vc) {
      OnChainIsNamed(vcs, vc, did);
    }
  }

  lemma UniqueIdsReach(entries: seq<Credential>, cx: Context, did: Did)
    requires IdsFix(entries)
    ensures ReachedAmong(did, entries, cx) <==> exists vc :: vc in entries && StandsIn(vc, cx) && OnChain(did, vc)
  {
    SubIdsFix(entries, Standing(entries, cx));
    UniqueIdsName(Standing(entries, cx), did);
  }

  // ---- The grant loop ------------------------------------------------------

  /** The grant belongs in this presentation: right user, right service, and
      given to the holder or, if it may be passed on, to a DID that `reached`. */
  predicate GrantBelongs(g: Credential, cx: Context, reached: bool) {
    && ConsentOf(g).Some? && g.proof.Some?
    && Some(ConsentOf(g).value.userDid) == cx.vp.delegatedBy
    && g.body.issuer == cx.vp.targetService
    && (g.body.subject.id == cx.vp.holder
        || (reached && ConsentOf(g).value.allowDelegation != Some(false)))
  }

  predicate GrantStands(g: Credential, cx: Context) {
    VerifyCredential(g, cx.opts, cx.w).Ok?
  }

  predicate GrantBroken(g: Credential, cx: Context) {
    var r := VerifyCredential(g, cx.opts, cx.w);
    r.Err? && !r.error.VcRevoked? && !r.error.VcExpired?
  }

  lemma GrantOutcomeCases(g: Credential, cx: Context, dids: seq<Did>)
    ensures var o := GrantOutcome(g, cx, dids);
            && (o.Fatal? <==> !GrantBelongs(g, cx, g.body.subject.id in dids) || GrantBroken(g, cx))
            && (!o.Fatal? ==> (o.Stands? <==> GrantStands(g, cx)))
  {
  }

  lemma {:induction false} GrantTallyFacts(g0: GrantTally, grants: seq<Credential>, cx: Context, t: Tally)
    ensures TallyGrants(g0, grants, cx, t).Err? <==>
            exists g :: g in grants && GrantOutcome(g, cx, Subjects(t.chain)).Fatal?
    ensures TallyGrants(g0, grants, cx, t).Ok? ==>
            var r := TallyGrants(g0, grants, cx, t).value;
            && (r.valid > 0 <==> g0.valid > 0 || exists g :: g in grants && GrantStands(g, cx))
            && forall s :: s in r.allowed <==>
                 s in g0.allowed || exists g :: g in grants && GrantStands(g, cx) && s in Covered(g, cx, t)
    decreases grants
  {
    if grants != [] {
      assert grants == [grants[0]] + grants[1..];
      GrantOutcomeCases(grants[0], cx, Subjects(t.chain));
      match GrantOutcome(grants[0], cx, Subjects(t.chain))
      case Fatal(_) =>
      case Dropped(e) => GrantTallyFacts(g0.(dropped := Some(e)), grants[1..], cx, t);
      case Stands(_, _) =>
        GrantTallyFacts(GrantTally(g0.allowed + Covered(grants[0], cx, t), g0.valid + 1, g0.dropped),
                        grants[1..], cx, t);
    }
  }

  // ---- The formula ---------------------------------------------------------

  function Agents(vp: VpBody): seq<Credential> {
    Filter(IsAgentType, vp.entries)
  }

  function Grants(vp: VpBody): seq<Credential> {
    Filter(IsGrantType, vp.entries)
  }

  /** Some valid agent credential holds the scope. */
  ghost predicate Privileged(s: Scope, cx: Context) {
    HeldAmong(s, Agents(cx.vp), cx)
  }

  /** Some valid grant names the scope, to the holder or to a DID on the chain of
      a valid credential holding it. */
  ghost predicate Consented(s: Scope, cx: Context) {
    exists g :: g in Grants(cx.vp) && GrantStands(g, cx) && NamesFor(g, s, cx)
  }

  ghost predicate NamesFor(g: Credential, s: Scope, cx: Context) {
    && ConsentOf(g).Some? && s in ConsentOf(g).value.scopes
    && (g.body.subject.id == cx.vp.holder || HeldThrough(s, g.body.subject.id, Agents(cx.vp), cx))
  }

  ghost predicate MayAct(s: Scope, cx: Context) {
    Privileged(s, cx) && (Grants(cx.vp) == [] || Consented(s, cx))
  }

  /** No agent credential sinks the presentation and one of them stands. */
  ghost predicate AgentsAccepted(cx: Context) {
    && (forall vc :: vc in Agents(cx.vp) ==> !AgentOutcome(vc, cx).Fatal?)
    && (exists vc :: vc in Agents(cx.vp) && StandsIn(vc, cx))
  }

  ghost predicate GrantAdmitted(g: Credential, cx: Context) {
    GrantBelongs(g, cx, ReachedAmong(g.body.subject.id, Agents(cx.vp), cx)) && !GrantBroken(g, cx)
  }

  /** Every grant belongs here, none is broken, and one stands if any came. */
  ghost predicate GrantsAccepted(cx: Context) {
    && (forall g :: g in Grants(cx.vp) ==> GrantAdmitted(g, cx))
    && (Grants(cx.vp) != [] ==> exists g :: g in Grants(cx.vp) && GrantStands(g, cx))
  }

  ghost predicate Accepted(vp: Presentation, opts: VerifyOptions, w: World) {
    var cx := Context(vp.body, opts, w);
    EnvelopeFault(vp, opts, w).None? && AgentsAccepted(cx) && GrantsAccepted(cx)
  }

  lemma AgentLoopAccepts(cx: Context)
    ensures var agents := TallyAgents(NOTHING_YET, Agents(cx.vp), cx);
            AgentsAccepted(cx) <==> agents.Ok? && agents.value.valid > 0
  {
    TallyFails(NOTHING_YET, Agents(cx.vp), cx);
    if TallyAgents(NOTHING_YET, Agents(cx.vp), cx).Ok? {
      TallyHolds(NOTHING_YET, Agents(cx.vp), cx);
    }
  }

  lemma GrantLoopAccepts(cx: Context)
    requires TallyAgents(NOTHING_YET, Agents(cx.vp), cx).Ok?
    ensures var t := TallyAgents(NOTHING_YET, Agents(cx.vp), cx).value;
            var grants := TallyGrants(GrantTally({}, 0, None), Grants(cx.vp), cx, t);
            GrantsAccepted(cx) <==> grants.Ok? && (Grants(cx.vp) == [] || grants.value.valid > 0)
  {
    var t := TallyAgents(NOTHING_YET, Agents(cx.vp), cx).value;
    GrantsBelong(cx);
    GrantTallyFacts(GrantTally({}, 0, None), Grants(cx.vp), cx, t);
  }

  lemma AgentsTallied(cx: Context)
    requires TallyAgents(NOTHING_YET, Agents(cx.vp), cx).Ok?
    ensures var t := TallyAgents(NOTHING_YET, Agents(cx.vp), cx).value;
            && NoDup(t.privilege)
            && (t.valid > 0 <==> exists vc :: vc in Agents(cx.vp) && StandsIn(vc, cx))
            && (forall s :: s in t.privilege <==> Privileged(s, cx))
            && (forall s, did :: DelegatedThrough(s, did, t.authorities) <==> HeldThrough(s, did, Agents(cx.vp), cx))
  {
    TallyHolds(NOTHING_YET, Agents(cx.vp), cx);
    forall s, did
      ensures DelegatedThrough(s, did, TallyAgents(NOTHING_YET, Agents(cx.vp), cx).value.authorities)
         <==> HeldThrough(s, did, Agents(cx.vp), cx)
    {
      TallyThrough(NOTHING_YET, Agents(cx.vp), cx, s, did);
    }
  }

  lemma SubIdsFix(all: seq<Credential>, some: seq<Credential>)
    requires IdsFix(all) && forall e :: e in some ==> e in all
    ensures IdsFix(some)
  {
  }

  lemma GrantsBelong(cx: Context)
    requires TallyAgents(NOTHING_YET, Agents(cx.vp), cx).Ok?
    ensures var t := TallyAgents(NOTHING_YET, Agents(cx.vp), cx).value;
            forall g :: GrantOutcome(g, cx, Subjects(t.chain)).Fatal? <==>
              !GrantAdmitted(g, cx)
  {
    var t := TallyAgents(NOTHING_YET, Agents(cx.vp), cx).value;
    forall g
      ensures GrantOutcome(g, cx, Subjects(t.chain)).Fatal? <==>
              !GrantAdmitted(g, cx)
    {
      ChainDidsAreReached(Agents(cx.vp), cx, g.body.subject.id);
      GrantOutcomeCases(g, cx, Subjects(t.chain));
    }
  }

  lemma AllowedIsConsented(cx: Context, s: Scope)
    requires TallyAgents(NOTHING_YET, Agents(cx.vp), cx).Ok?
    ensures var t := TallyAgents(NOTHING_YET, Agents(cx.vp), cx).value;
            Privileged(s, cx) ==>
              ((exists g :: g in Grants(cx.vp) && GrantStands(g, cx) && s in Covered(g, cx, t)) <==> Consented(s, cx))
  {
    var t := TallyAgents(NOTHING_YET, Agents(cx.vp), cx).value;
    AgentsTallied(cx);
    if Privileged(s, cx) {
      forall g ensures s in Covered(g, cx, t) <==> NamesFor(g, s, cx) {
      }
    }
  }

  /** What has to go right for a verdict. */
  ghost predicate LoopsPass(vp: Presentation, opts: VerifyOptions, w: World) {
    var cx := Context(vp.body, opts, w);
    var agents := TallyAgents(NOTHING_YET, Agents(vp.body), cx);
    && EnvelopeFault(vp, opts, w).None?
    && agents.Ok? && agents.value.valid > 0
    && var grants := TallyGrants(GrantTally({}, 0, None), Grants(vp.body), cx, agents.value);
       grants.Ok? && (Grants(vp.body) == [] || grants.value.valid > 0)
  }

  lemma VerdictWhenLoopsPass(vp: Presentation, opts: VerifyOptions, w: World)
    ensures VpResult(vp, opts, w).Ok? <==> LoopsPass(vp, opts, w)
  {
  }

  /** Which presentations the loops accept. */
  lemma AcceptanceIsFormula(vp: Presentation, opts: VerifyOptions, w: World)
    ensures VpResult(vp, opts, w).Ok? <==> Accepted(vp, opts, w)
  {
    var cx := Context(vp.body, opts, w);
    VerdictWhenLoopsPass(vp, opts, w);
    AgentLoopAccepts(cx);
    if AgentsAccepted(cx) {
      GrantLoopAccepts(cx);
    }
  }

  /** What an accepted presentation lets the holder do. */
  lemma ScopesAreFormula(vp: Presentation, opts: VerifyOptions, w: World)
    requires VpResult(vp, opts, w).Ok?
    ensures var r, cx := VpResult(vp, opts, w), Context(vp.body, opts, w);
            && NoDup(r.value.privilegeScopes)
            && (forall s :: s in r.value.privilegeScopes <==> Privileged(s, cx))
            && (forall s :: s in r.value.effectiveScopes <==> MayAct(s, cx))
  {
    var cx, r := Context(vp.body, opts, w), VpResult(vp, opts, w).value;
    var t := TallyAgents(NOTHING_YET, Agents(vp.body), cx).value;
    AgentsTallied(cx);
    GrantTallyFacts(GrantTally({}, 0, None), Grants(vp.body), cx, t);
    forall s ensures s in r.effectiveScopes <==> MayAct(s, cx) {
      AllowedIsConsented(cx, s);
    }
  }

  /** The loops of verifyVP compute the formula. */
  lemma ResultIsFormula(vp: Presentation, opts: VerifyOptions, w: World)
    ensures var r, cx := VpResult(vp, opts, w), Context(vp.body, opts, w);
            && (r.Ok? <==> Accepted(vp, opts, w))
            && (r.Ok? ==>
                  && NoDup(r.value.privilegeScopes)
                  && (forall s :: s in r.value.privilegeScopes <==> Privileged(s, cx))
                  && (forall s :: s in r.value.effectiveScopes <==> MayAct(s, cx)))
  {
    AcceptanceIsFormula(vp, opts, w);
    if VpResult(vp, opts, w).Ok? {
      ScopesAreFormula(vp, opts, w);
    }
  }

  // ---- Order of the entries ------------------------------------------------

  lemma SameMembers(a: seq<Credential>, b: seq<Credential>, p: Credential -> bool)
    requires multiset(a) == multiset(b)
    ensures forall c :: c in a <==> c in b
    ensures forall c :: c in Filter(p, a) <==> c in Filter(p, b)
    ensures |Filter(p, a)| == |Filter(p, b)|
  {
    forall c ensures c in a <==> c in b {
      assert c in a <==> c in multiset(a);
      assert c in b <==> c in multiset(b);
    }
    FilterPermutation(p, a, b);
  }

  /** Shuffling the entries of a presentation, the envelope still being in order,
      changes neither acceptance nor the two scope sets. */
  lemma OrderIsIrrelevant(vp: Presentation, shuffled: Presentation, opts: VerifyOptions, w: World)
    requires multiset(vp.body.entries) == multiset(shuffled.body.entries)
    requires shuffled.body == vp.body.(entries := shuffled.body.entries)
    requires w.verifiesVp(vp.body.holder, vp.body, vp.proof)
        <==> w.verifiesVp(vp.body.holder, shuffled.body, shuffled.proof)
    requires IdsFix(vp.body.entries)
    ensures var a, b := VpResult(vp, opts, w), VpResult(shuffled, opts, w);
            && (a.Ok? <==> b.Ok?)
            && (a.Ok? ==>
                  && Elems(a.value.privilegeScopes) == Elems(b.value.privilegeScopes)
                  && Elems(a.value.effectiveScopes) == Elems(b.value.effectiveScopes))
  {
    SameMembers(vp.body.entries, shuffled.body.entries, IsAgentType);
    SameMembers(vp.body.entries, shuffled.body.entries, IsGrantType);
    AgentIdsFix(vp.body, shuffled.body);
    SameOutcomes(Context(vp.body, opts, w), Context(shuffled.body, opts, w));
    SameAcceptance(vp, shuffled, opts, w);
    if VpResult(vp, opts, w).Ok? {
      SameScopeSets(vp, shuffled, opts, w);
    }
  }

  lemma SameScopeSets(vp: Presentation, shuffled: Presentation, opts: VerifyOptions, w: World)
    requires VpResult(vp, opts, w).Ok? && VpResult(shuffled, opts, w).Ok?
    requires var cx, dx := Context(vp.body, opts, w), Context(shuffled.body, opts, w);
             && (Grants(cx.vp) == [] <==> Grants(dx.vp) == [])
             && (forall s :: Privileged(s, cx) <==> Privileged(s, dx))
             && (forall s :: Consented(s, cx) <==> Consented(s, dx))
    ensures var a, b := VpResult(vp, opts, w).value, VpResult(shuffled, opts, w).value;
            && Elems(a.privilegeScopes) == Elems(b.privilegeScopes)
            && Elems(a.effectiveScopes) == Elems(b.effectiveScopes)
  {
    ScopesAreFormula(vp, opts, w);
    ScopesAreFormula(shuffled, opts, w);
  }

  lemma SameAcceptance(vp: Presentation, shuffled: Presentation, opts: VerifyOptions, w: World)
    requires multiset(vp.body.entries) == multiset(shuffled.body.entries)
    requires shuffled.body == vp.body.(entries := shuffled.body.entries)
    requires w.verifiesVp(vp.body.holder, vp.body, vp.proof)
        <==> w.verifiesVp(vp.body.holder, shuffled.body, shuffled.proof)
    requires IdsFix(vp.body.entries)
    ensures VpResult(vp, opts, w).Ok? <==> VpResult(shuffled, opts, w).Ok?
  {
    SameMembers(vp.body.entries, shuffled.body.entries, IsAgentType);
    SameMembers(vp.body.entries, shuffled.body.entries, IsGrantType);
    assert |vp.body.entries| == |multiset(vp.body.entries)| == |shuffled.body.entries|;
    SameEnvelope(vp, shuffled, opts, w);
    AgentIdsFix(vp.body, shuffled.body);
    SameOutcomes(Context(vp.body, opts, w), Context(shuffled.body, opts, w));
    AcceptanceIsFormula(vp, opts, w);
    AcceptanceIsFormula(shuffled, opts, w);
  }

  lemma SameEnvelope(vp: Presentation, shuffled: Presentation, opts: VerifyOptions, w: World)
    requires shuffled.body == vp.body.(entries := shuffled.body.entries)
    requires |vp.body.entries| == |shuffled.body.entries|
    requires |Agents(vp.body)| == |Agents(shuffled.body)| && |Grants(vp.body)| == |Grants(shuffled.body)|
    requires w.verifiesVp(vp.body.holder, vp.body, vp.proof)
        <==> w.verifiesVp(vp.body.holder, shuffled.body, shuffled.proof)
    ensures EnvelopeFault(vp, opts, w).None? <==> EnvelopeFault(shuffled, opts, w).None?
  {
  }

  lemma AgentIdsFix(a: VpBody, b: VpBody)
    requires IdsFix(a.entries) && forall c :: c in a.entries <==> c in b.entries
    ensures IdsFix(Agents(a)) && IdsFix(Agents(b))
  {
    SubIdsFix(a.entries, b.entries);
    SubIdsFix(a.entries, Agents(a));
    SubIdsFix(b.entries, Agents(b));
  }

  lemma SameReach(cx: Context, dx: Context)
    requires IdsFix(Agents(cx.vp)) && IdsFix(Agents(dx.vp))
    requires forall c :: c in Agents(cx.vp) <==> c in Agents(dx.vp)
    requires forall vc :: StandsIn(vc, cx) <==> StandsIn(vc, dx)
    ensures forall did :: ReachedAmong(did, Agents(cx.vp), cx) <==> ReachedAmong(did, Agents(dx.vp), dx)
  {
    forall did ensures ReachedAmong(did, Agents(cx.vp), cx) <==> ReachedAmong(did, Agents(dx.vp), dx) {
      UniqueIdsReach(Agents(cx.vp), cx, did);
      UniqueIdsReach(Agents(dx.vp), dx, did);
    }
  }

  lemma SameOutcomes(cx: Context, dx: Context)
    requires IdsFix(Agents(cx.vp)) && IdsFix(Agents(dx.vp))
    requires dx == cx.(vp := cx.vp.(entries := dx.vp.entries))
    requires forall c :: c in Agents(cx.vp) <==> c in Agents(dx.vp)
    requires forall c :: c in Grants(cx.vp) <==> c in Grants(dx.vp)
    requires |Grants(cx.vp)| == |Grants(dx.vp)|
    ensures forall vc :: AgentOutcome(vc, cx) == AgentOutcome(vc, dx)
    ensures AgentsAccepted(cx) <==> AgentsAccepted(dx)
    ensures GrantsAccepted(cx) <==> GrantsAccepted(dx)
    ensures forall s :: Privileged(s, cx) <==> Privileged(s, dx)
    ensures forall s :: Consented(s, cx) <==> Consented(s, dx)
  {
    assert forall vc :: AgentOutcome(vc, cx) == AgentOutcome(vc, dx);
    assert forall vc :: StandsIn(vc, cx) <==> StandsIn(vc, dx);
    assert forall g :: GrantStands(g, cx) <==> GrantStands(g, dx);
    assert forall s, did :: HeldThrough(s, did, Agents(cx.vp), cx) <==> HeldThrough(s, did, Agents(dx.vp), dx);
    SameReach(cx, dx);
    assert forall g :: GrantAdmitted(g, cx) <==> GrantAdmitted(g, dx);
    assert forall g, s :: NamesFor(g, s, cx) <==> NamesFor(g, s, dx);
  }
}
