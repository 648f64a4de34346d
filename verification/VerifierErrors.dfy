/** What a rejection says: the error names the first thing wrong, in the order in which
    things are looked at. */
module VerifierErrors {
  import opened Common
  import opened Credentials
  import opened Delegation
  import opened Verifier
  import opened VerifierFormula
  import opened VerifierMeaning

  // ---- One credential and its lineage --------------------------------------------------

  predicate CredentialSays(x: Error, c: Credential, opts: VerifyOptions, w: World) {
    if !w.resolvable(c.body.issuer) then x == DidUnresolvable(c.body.issuer)
    else if c.proof.None? then x == ProofMissing
    else if !Proven(c, w) then x == VcSignatureInvalid
    else if !Begun(c, w.now) then x == VcNotYetValid
    else if !Unended(c, w.now) then x == VcExpired
    else if !FromAnother(c, opts) then x == SelfSignedVcNotAllowed
    else x == VcRevoked && !Unflagged(c, w)
  }

  lemma CredentialErrs(c: Credential, opts: VerifyOptions, w: World)
    ensures VerifyCredential(c, opts, w).Err? <==> !Holds(c, opts, w)
    ensures VerifyCredential(c, opts, w).Err? ==> CredentialSays(VerifyCredential(c, opts, w).error, c, opts, w)
  {
    CredentialMeans(c, opts, w);
  }

  /** The first that is not sturdy. */
  ghost predicate LineageSays(x: Error, cs: seq<Credential>, opts: VerifyOptions, w: World) {
    exists k :: 0 <= k < |cs| && NotSturdyFirst(cs, k, opts, w)
                && if Holds(cs[k], opts, w) then x == VpInvalidStructure else CredentialSays(x, cs[k], opts, w)
  }

  ghost predicate NotSturdyFirst(cs: seq<Credential>, k: nat, opts: VerifyOptions, w: World)
    requires k < |cs|
  {
    !Sturdy(cs[k], opts, w) && forall j :: 0 <= j < k ==> Sturdy(cs[j], opts, w)
  }

  lemma LaterNotSturdy(cs: seq<Credential>, k: nat, opts: VerifyOptions, w: World)
    requires k + 1 < |cs| && Sturdy(cs[0], opts, w) && NotSturdyFirst(cs[1..], k, opts, w)
    ensures NotSturdyFirst(cs, k + 1, opts, w)
  {
    assert forall j :: 0 < j <= k + 1 ==> cs[j] == cs[1..][j - 1];
  }

  lemma {:induction false} LineageErrs(cs: seq<Credential>, opts: VerifyOptions, w: World)
    ensures CredentialFault(cs, opts, w).Some? ==> LineageSays(CredentialFault(cs, opts, w).value, cs, opts, w)
  {
    if cs != [] {
      CredentialErrs(cs[0], opts, w);
      if Sturdy(cs[0], opts, w) {
        LineageErrs(cs[1..], opts, w);
        var x := CredentialFault(cs[1..], opts, w);
        if x.Some? {
          var k :| 0 <= k < |cs[1..]| && NotSturdyFirst(cs[1..], k, opts, w)
            && if Holds(cs[1..][k], opts, w) then x.value == VpInvalidStructure
               else CredentialSays(x.value, cs[1..][k], opts, w);
          LaterNotSturdy(cs, k, opts, w);
        }
      } else {
        assert NotSturdyFirst(cs, 0, opts, w);
      }
    }
  }

  // ---- Chains --------------------------------------------------------------------------------

  ghost predicate LinkSays(f: ChainFault, parent: Credential, child: Credential, i: int, budget: int) {
    var subject := child.body.subject;
    if child.body.issuer != parent.body.subject.id then f == IssuerMismatch
    else if subject.delegatedFrom != Some(parent.body.subject.id) then f == DelegatedFromMismatch
    else if subject.parentVcId != Some(parent.body.id) then f == ParentIdMismatch
    else if subject.delegationDepth != Some(i) then f == DepthNotSequential
    else if subject.maxDelegationDepth != Some(budget) then f == MaxDepthChanged
    else if i > budget then f == DepthExceeded
    else exists k :: 0 <= k < |Held(child)| && MissingAt(Held(parent), Held(child), k)
                     && f == Escalation(Held(child)[k]) && Held(child)[k] != ""
  }

  lemma LinkErrs(parent: Credential, child: Credential, i: int, budget: int)
    ensures LinkFault(parent, child, i, budget).Some? ==>
              LinkSays(LinkFault(parent, child, i, budget).value, parent, child, i, budget)
    ensures LinkFault(parent, child, i, budget).None? <==>
              Follows(parent, child, i, budget) && Narrows(Held(parent), Held(child))
  {
    FirstMissingAt(Held(parent), Held(child));
    NarrowsMeans(Held(parent), Held(child));
  }

  ghost predicate InOrder(chain: seq<Credential>, i: nat, budget: int)
    requires 1 <= i < |chain|
  {
    Follows(chain[i - 1], chain[i], i, budget) && Narrows(Held(chain[i - 1]), Held(chain[i]))
  }

  ghost predicate LinksSay(f: ChainFault, chain: seq<Credential>, from: nat, budget: int)
    requires from >= 1
  {
    exists i :: from <= i < |chain| && FirstOut(f, chain, i, from, budget)
  }

  ghost predicate FirstOut(f: ChainFault, chain: seq<Credential>, i: nat, from: nat, budget: int)
    requires 1 <= from <= i < |chain|
  {
    && !InOrder(chain, i, budget) && LinkSays(f, chain[i - 1], chain[i], i, budget)
    && forall j :: from <= j < i ==> InOrder(chain, j, budget)
  }

  lemma {:induction false} LinksErr(chain: seq<Credential>, from: nat, budget: int)
    requires 1 <= from <= |chain|
    ensures FirstLinkFault(chain, from, budget).Some? ==>
              LinksSay(FirstLinkFault(chain, from, budget).value, chain, from, budget)
    decreases |chain| - from
  {
    if from < |chain| {
      LinkErrs(chain[from - 1], chain[from], from, budget);
      LinksErr(chain, from + 1, budget);
      var f := FirstLinkFault(chain, from, budget);
      if f.Some? && InOrder(chain, from, budget) {
        var i :| from + 1 <= i < |chain| && FirstOut(f.value, chain, i, from + 1, budget);
        assert FirstOut(f.value, chain, i, from, budget);
      } else if f.Some? {
        assert FirstOut(f.value, chain, from, from, budget);
      }
    }
  }

  /** The root first, then the first link out of order. */
  ghost predicate ChainSays(f: ChainFault, chain: seq<Credential>)
    requires chain != []
  {
    if chain[0].body.issuer == chain[0].body.subject.id then f == SelfIssuedRoot
    else if Number(chain[0].body.subject.delegationDepth) != 0 then f == RootDepth
    else LinksSay(f, chain, 1, Number(chain[0].body.subject.maxDelegationDepth))
  }

  lemma ChainErrs(chain: seq<Credential>)
    requires chain != []
    ensures StructureFault(chain).Some? ==> ChainSays(StructureFault(chain).value, chain)
  {
    LinksErr(chain, 1, MaxDepthOf(chain[0]));
  }

  // ---- The schema's walk --------------------------------------------------------------------------

  predicate JoinedTo(parent: Credential, child: Credential, i: int, budget: int) {
    var subject := child.body.subject;
    && subject.delegatedFrom == Some(parent.body.subject.id) && subject.parentVcId == Some(parent.body.id)
    && subject.delegationDepth == Some(i) && subject.maxDelegationDepth == Some(budget)
    && forall s :: s in Held(child) ==> s in Held(parent)
  }

  ghost predicate JoinSays(f: ChainFault, parent: Credential, child: Credential, i: int, budget: int) {
    var subject := child.body.subject;
    if subject.delegatedFrom != Some(parent.body.subject.id) then f == DelegatedFromMismatch
    else if subject.parentVcId != Some(parent.body.id) then f == ParentIdMismatch
    else if subject.delegationDepth != Some(i) then f == DepthNotSequential
    else if subject.maxDelegationDepth != Some(budget) then f == MaxDepthChanged
    else exists k :: 0 <= k < |Held(child)| && MissingAt(Held(parent), Held(child), k)
                     && f == Escalation(Held(child)[k])
  }

  lemma JoinErrs(parent: Credential, child: Credential, i: int, budget: int)
    ensures IntegrityLinkFault(parent, child, i, budget).None? <==> JoinedTo(parent, child, i, budget)
    ensures IntegrityLinkFault(parent, child, i, budget).Some? ==>
              JoinSays(IntegrityLinkFault(parent, child, i, budget).value, parent, child, i, budget)
  {
    FirstMissingAt(Held(parent), Held(child));
  }

  ghost predicate FirstApart(f: ChainFault, chain: seq<Credential>, i: nat, from: nat, budget: int)
    requires 1 <= from <= i < |chain|
  {
    && !JoinedAt(chain, i, budget) && JoinSays(f, chain[i - 1], chain[i], i, budget)
    && forall j :: from <= j < i ==> JoinedAt(chain, j, budget)
  }

  predicate JoinedAt(chain: seq<Credential>, i: nat, budget: int)
    requires 1 <= i < |chain|
  {
    JoinedTo(chain[i - 1], chain[i], i, budget)
  }

  ghost predicate AllJoined(chain: seq<Credential>, from: nat, budget: int)
    requires from >= 1
  {
    forall j :: from <= j < |chain| ==> JoinedAt(chain, j, budget)
  }

  lemma {:induction false} JoinsErr(chain: seq<Credential>, from: nat, budget: int)
    requires 1 <= from <= |chain|
    ensures var f, over := IntegrityFrom(chain, from, budget),
                           Number(chain[|chain| - 1].body.subject.delegationDepth) > budget;
            && (f.None? <==> AllJoined(chain, from, budget) && !over)
            && (f.Some? && AllJoined(chain, from, budget) ==> f == Some(DepthExceeded))
            && (!AllJoined(chain, from, budget) ==>
                  f.Some? && exists i :: from <= i < |chain| && FirstApart(f.value, chain, i, from, budget))
    decreases |chain| - from
  {
    if from < |chain| {
      JoinErrs(chain[from - 1], chain[from], from, budget);
      JoinsErr(chain, from + 1, budget);
      var f := IntegrityFrom(chain, from, budget);
      if !JoinedAt(chain, from, budget) {
        assert FirstApart(f.value, chain, from, from, budget);
      } else if !AllJoined(chain, from + 1, budget) {
        var i :| from + 1 <= i < |chain| && FirstApart(f.value, chain, i, from + 1, budget);
        assert FirstApart(f.value, chain, i, from, budget);
      }
    }
  }

  /** What the schema's walk reports: nothing exactly for a chain from depth 0 on which every
      credential is joined to the one before and the leaf is within the budget; else the first
      thing amiss. */
  lemma SchemaErrs(chain: seq<Credential>)
    ensures var f := IntegrityFault(chain);
            if |chain| < 2 then f == Some(MissingParents)
            else if Number(chain[0].body.subject.delegationDepth) != 0 then f == Some(RootDepth)
            else
              var budget := Number(chain[0].body.subject.maxDelegationDepth);
              if !AllJoined(chain, 1, budget)
              then f.Some? && exists i :: 1 <= i < |chain| && FirstApart(f.value, chain, i, 1, budget)
              else if Number(chain[|chain| - 1].body.subject.delegationDepth) > budget then f == Some(DepthExceeded)
              else f.None?
  {
    if |chain| >= 2 {
      JoinsErr(chain, 1, MaxDepthOf(chain[0]));
    }
  }

  // ---- Agent credentials ------------------------------------------------------------------------

  ghost predicate AgentSays(x: Error, e: Credential, vp: VpBody, opts: VerifyOptions, w: World) {
    if e.proof.None? || e.body.subject.privilegeScopes.None? || e.body.subject.id != vp.holder
       || (Given(e.body.targetService) && e.body.targetService != Some(vp.targetService))
    then x == VpInvalidStructure
    else if Given(e.body.subject.delegatedFrom) && e.body.chain == []
    then x == DelegationChainInvalid(MissingParents)
    else if exists c :: c in Lineage(e) && !Sturdy(c, opts, w) then LineageSays(x, Lineage(e), opts, w)
    else x.DelegationChainInvalid? && ChainSays(x.fault, Lineage(e))
  }

  lemma SingleErrs(e: Credential, cx: Context)
    requires !Given(e.body.subject.delegatedFrom) && AboutHolder(e, cx.vp) && VerifyCredential(e, cx.opts, cx.w).Err?
    ensures AgentSays(VerifyCredential(e, cx.opts, cx.w).error, e, cx.vp, cx.opts, cx.w)
  {
    CredentialErrs(e, cx.opts, cx.w);
    assert Lineage(e) == [e] && e in Lineage(e) && NotSturdyFirst(Lineage(e), 0, cx.opts, cx.w);
  }

  lemma DelegatedErrs(e: Credential, cx: Context)
    requires Given(e.body.subject.delegatedFrom) && AboutHolder(e, cx.vp) && ChainResult(e, cx.opts, cx.w).Err?
    ensures AgentSays(ChainResult(e, cx.opts, cx.w).error, e, cx.vp, cx.opts, cx.w)
  {
    LineageIsWalk(e);
    FaultIsLapse(Lineage(e), cx.opts, cx.w);
    LineageErrs(Lineage(e), cx.opts, cx.w);
    ChainErrs(Lineage(e));
  }

  lemma AgentErrs(e: Credential, cx: Context)
    ensures var o := AgentOutcome(e, cx); !o.Stands? ==> AgentSays(o.error, e, cx.vp, cx.opts, cx.w)
  {
    if AboutHolder(e, cx.vp) {
      if Given(e.body.subject.delegatedFrom) {
        if ChainResult(e, cx.opts, cx.w).Err? {
          DelegatedErrs(e, cx);
        }
      } else if VerifyCredential(e, cx.opts, cx.w).Err? {
        SingleErrs(e, cx);
      }
    }
  }

  // ---- Grants ---------------------------------------------------------------------------------------

  ghost predicate GrantSays(x: Error, g: Credential, vp: VpBody, opts: VerifyOptions, w: World,
                            lineages: seq<Credential>)
  {
    var claims, own := g.body.subject.claims, g.body.subject.id == vp.holder;
    if !claims.fits || claims.userDid.None? || claims.scopes.None? || g.proof.None? then x == ConsentGrantInvalid
    else if claims.userDid != vp.delegatedBy || !(own || OnLineage(g.body.subject.id, lineages))
    then x == ConsentGrantSubjectMismatch
    else if g.body.issuer != vp.targetService then x == ConsentGrantWrongService(g.body.issuer, vp.targetService)
    else if !own && claims.allowDelegation == Some(false) then x == ConsentGrantNotDelegable
    else CredentialSays(x, g, opts, w)
  }

  ghost predicate OnLineage(did: Did, lineages: seq<Credential>) {
    exists i :: 0 <= i < |lineages| && lineages[i].body.subject.id == did && NewId(lineages, i)
  }

  lemma GrantErrs(g: Credential, cx: Context, dids: seq<Did>, lineages: seq<Credential>)
    requires g.body.subject.id in dids <==> OnLineage(g.body.subject.id, lineages)
    ensures var o := GrantOutcome(g, cx, dids); !o.Stands? ==> GrantSays(o.error, g, cx.vp, cx.opts, cx.w, lineages)
  {
    CredentialErrs(g, cx.opts, cx.w);
  }

  // ---- Presentations ----------------------------------------------------------------------------------

  lemma {:induction false} FatalStops(t: Tally, entries: seq<Credential>, cx: Context, k: nat)
    requires k < |entries| && AgentOutcome(entries[k], cx).Fatal?
    requires forall j :: 0 <= j < k ==> !AgentOutcome(entries[j], cx).Fatal?
    ensures TallyAgents(t, entries, cx) == Err(AgentOutcome(entries[k], cx).error)
    decreases entries
  {
    if k > 0 {
      assert entries[1..][k - 1] == entries[k] && !AgentOutcome(entries[0], cx).Fatal?;
      assert forall j :: 0 <= j < k - 1 ==> entries[1..][j] == entries[j + 1];
      match AgentOutcome(entries[0], cx)
      case Dropped(e) => FatalStops(t.(dropped := Some(e)), entries[1..], cx, k - 1);
      case Stands(links, warn) => FatalStops(AddAgent(t, entries[0], links, warn), entries[1..], cx, k - 1);
    }
  }

  lemma {:induction false} LastDropped(t: Tally, entries: seq<Credential>, cx: Context)
    requires forall e :: e in entries ==> AgentOutcome(e, cx).Dropped?
    ensures var r := TallyAgents(t, entries, cx);
            && r.Ok? && r.value.valid == t.valid
            && r.value.dropped == if entries == [] then t.dropped
                                  else Some(AgentOutcome(entries[|entries| - 1], cx).error)
    decreases entries
  {
    if entries != [] {
      assert entries == [entries[0]] + entries[1..] && entries[0] in entries;
      LastDropped(t.(dropped := Some(AgentOutcome(entries[0], cx).error)), entries[1..], cx);
    }
  }

  lemma EnvelopePasses(vp: Presentation, opts: VerifyOptions, w: World)
    requires Presentable(vp, opts, w) && Composed(vp.body)
    ensures EnvelopeFault(vp, opts, w).None?
    ensures Filter(IsAgent, vp.body.entries) == Agents(vp.body) && Filter(IsGrant, vp.body.entries) == Grants(vp.body)
  {
    PresentableMeans(vp, opts, w);
    FilterByKind(vp.body.entries);
  }

  /** The first agent credential that neither counts nor is passed over sinks the
      presentation, with its own error. */
  lemma AgentSinks(vp: Presentation, opts: VerifyOptions, w: World, k: nat)
    requires Presentable(vp, opts, w) && Composed(vp.body) && k < |Filter(IsAgent, vp.body.entries)|
    requires var e := Filter(IsAgent, vp.body.entries)[k]; !Counts(e, vp.body, opts, w) && !Passed(e, vp.body, opts, w)
    requires forall j :: 0 <= j < k ==>
               var e := Filter(IsAgent, vp.body.entries)[j]; Counts(e, vp.body, opts, w) || Passed(e, vp.body, opts, w)
    ensures var r := VpResult(vp, opts, w);
            r.Err? && AgentSays(r.error, Filter(IsAgent, vp.body.entries)[k], vp.body, opts, w)
  {
    var cx, agents := Context(vp.body, opts, w), Agents(vp.body);
    EnvelopePasses(vp, opts, w);
    forall j | 0 <= j <= k ensures AgentOutcome(agents[j], cx).Fatal? <==> j == k {
      AgentMeans(agents[j], cx);
    }
    FatalStops(NOTHING_YET, agents, cx, k);
    AgentErrs(agents[k], cx);
  }

  /** Where all are passed over, it is the last one's error. */
  lemma LastAgentSinks(vp: Presentation, opts: VerifyOptions, w: World)
    requires Presentable(vp, opts, w) && Composed(vp.body)
    requires forall e :: e in vp.body.entries && IsAgent(e) ==> Passed(e, vp.body, opts, w)
    ensures var r, agents := VpResult(vp, opts, w), Filter(IsAgent, vp.body.entries);
            agents != [] && r.Err? && AgentSays(r.error, agents[|agents| - 1], vp.body, opts, w)
  {
    var cx, agents := Context(vp.body, opts, w), Agents(vp.body);
    EnvelopePasses(vp, opts, w);
    forall e | e in agents ensures AgentOutcome(e, cx).Dropped? {
      AgentMeans(e, cx);
    }
    LastDropped(NOTHING_YET, agents, cx);
    AgentErrs(agents[|agents| - 1], cx);
  }

  lemma {:induction false} FatalGrantStops(t: GrantTally, grants: seq<Credential>, cx: Context, tally: Tally, k: nat)
    requires k < |grants| && GrantOutcome(grants[k], cx, Subjects(tally.chain)).Fatal?
    requires forall j :: 0 <= j < k ==> !GrantOutcome(grants[j], cx, Subjects(tally.chain)).Fatal?
    ensures TallyGrants(t, grants, cx, tally) == Err(GrantOutcome(grants[k], cx, Subjects(tally.chain)).error)
    decreases grants
  {
    if k > 0 {
      assert grants[1..][k - 1] == grants[k] && !GrantOutcome(grants[0], cx, Subjects(tally.chain)).Fatal?;
      assert forall j :: 0 <= j < k - 1 ==> grants[1..][j] == grants[j + 1];
      match GrantOutcome(grants[0], cx, Subjects(tally.chain))
      case Dropped(e) => FatalGrantStops(t.(dropped := Some(e)), grants[1..], cx, tally, k - 1);
      case Stands(_, _) =>
        FatalGrantStops(GrantTally(t.allowed + Covered(grants[0], cx, tally), t.valid + 1, t.dropped), grants[1..], cx,
                        tally, k - 1);
    }
  }

  lemma {:induction false} LastGrantDropped(t: GrantTally, grants: seq<Credential>, cx: Context, tally: Tally)
    requires forall g :: g in grants ==> GrantOutcome(g, cx, Subjects(tally.chain)).Dropped?
    ensures var r := TallyGrants(t, grants, cx, tally);
            && r.Ok? && r.value.valid == t.valid
            && r.value.dropped == if grants == [] then t.dropped
                                  else Some(GrantOutcome(grants[|grants| - 1], cx, Subjects(tally.chain)).error)
    decreases grants
  {
    if grants != [] {
      assert grants == [grants[0]] + grants[1..] && grants[0] in grants;
      LastGrantDropped(t.(dropped := Some(GrantOutcome(grants[0], cx, Subjects(tally.chain)).error)), grants[1..], cx,
                       tally);
    }
  }

  lemma GatheredAre(cx: Context, did: Did)
    requires TallyAgents(NOTHING_YET, Agents(cx.vp), cx).Ok?
    ensures did in Subjects(TallyAgents(NOTHING_YET, Agents(cx.vp), cx).value.chain) <==>
            OnLineage(did, Lineages(cx.vp.entries, cx.vp, cx.opts, cx.w))
  {
    var cs := Lineages(cx.vp.entries, cx.vp, cx.opts, cx.w);
    ChainDidsAreReached(Agents(cx.vp), cx, did);
    LineagesAre(cx.vp.entries, cx);
    forall i | 0 <= i < |cs| ensures IsFirst(cs, i) <==> NewId(cs, i) {
    }
  }

  lemma GrantOfTally(g: Credential, cx: Context)
    requires TallyAgents(NOTHING_YET, Agents(cx.vp), cx).Ok?
    ensures var t := TallyAgents(NOTHING_YET, Agents(cx.vp), cx).value;
            var o := GrantOutcome(g, cx, Subjects(t.chain));
            && (o.Fatal? <==> !GrantInPlace(g, cx.vp, cx.opts, cx.w))
            && (!o.Stands? ==>
                  GrantSays(o.error, g, cx.vp, cx.opts, cx.w, Lineages(cx.vp.entries, cx.vp, cx.opts, cx.w)))
  {
    var t := TallyAgents(NOTHING_YET, Agents(cx.vp), cx).value;
    GrantsBelong(cx);
    GrantInPlaceMeans(g, cx);
    GatheredAre(cx, g.body.subject.id);
    GrantErrs(g, cx, Subjects(t.chain), Lineages(cx.vp.entries, cx.vp, cx.opts, cx.w));
  }

  lemma AgentsGathered(cx: Context)
    requires AgentsHold(cx.vp, cx.opts, cx.w)
    ensures TallyAgents(NOTHING_YET, Agents(cx.vp), cx).Ok?
    ensures TallyAgents(NOTHING_YET, Agents(cx.vp), cx).value.valid > 0
  {
    AgentsHoldMeans(cx);
    AgentLoopAccepts(cx);
  }

  lemma GrantsDecide(vp: Presentation, opts: VerifyOptions, w: World)
    requires Presentable(vp, opts, w) && Composed(vp.body) && AgentsHold(vp.body, opts, w) && Grants(vp.body) != []
    ensures var cx := Context(vp.body, opts, w);
            && TallyAgents(NOTHING_YET, Agents(cx.vp), cx).Ok?
            && var r := VpResult(vp, opts, w);
               var g := TallyGrants(GrantTally({}, 0, None), Grants(vp.body), cx,
                                    TallyAgents(NOTHING_YET, Agents(cx.vp), cx).value);
               && (g.Err? ==> r == Err(g.error))
               && (g.Ok? && g.value.valid == 0 ==> r == Err(g.value.dropped.GetOr(VcRevoked)))
  {
    EnvelopePasses(vp, opts, w);
    AgentsGathered(Context(vp.body, opts, w));
  }

  /** The first grant out of place sinks it, with its own error. */
  lemma GrantSinks(vp: Presentation, opts: VerifyOptions, w: World, k: nat)
    requires Presentable(vp, opts, w) && Composed(vp.body) && AgentsHold(vp.body, opts, w)
    requires k < |Filter(IsGrant, vp.body.entries)|
    requires !GrantInPlace(Filter(IsGrant, vp.body.entries)[k], vp.body, opts, w)
    requires forall j :: 0 <= j < k ==> GrantInPlace(Filter(IsGrant, vp.body.entries)[j], vp.body, opts, w)
    ensures var r := VpResult(vp, opts, w);
            r.Err? && GrantSays(r.error, Filter(IsGrant, vp.body.entries)[k], vp.body, opts, w,
                                Lineages(vp.body.entries, vp.body, opts, w))
  {
    var cx, grants := Context(vp.body, opts, w), Grants(vp.body);
    EnvelopePasses(vp, opts, w);
    GrantsDecide(vp, opts, w);
    var t := TallyAgents(NOTHING_YET, Agents(cx.vp), cx).value;
    forall j | 0 <= j <= k ensures GrantOutcome(grants[j], cx, Subjects(t.chain)).Fatal? <==> j == k {
      GrantOfTally(grants[j], cx);
    }
    FatalGrantStops(GrantTally({}, 0, None), grants, cx, t, k);
    GrantOfTally(grants[k], cx);
  }

  /** Where all lapsed, it is the last one's error. */
  lemma LastGrantSinks(vp: Presentation, opts: VerifyOptions, w: World)
    requires Presentable(vp, opts, w) && Composed(vp.body) && AgentsHold(vp.body, opts, w)
    requires Filter(IsGrant, vp.body.entries) != []
    requires forall g :: g in vp.body.entries && IsGrant(g) ==>
               GrantInPlace(g, vp.body, opts, w) && !Holds(g, opts, w)
    ensures var r, grants := VpResult(vp, opts, w), Filter(IsGrant, vp.body.entries);
            r.Err? && CredentialSays(r.error, grants[|grants| - 1], opts, w)
  {
    var cx, grants := Context(vp.body, opts, w), Grants(vp.body);
    EnvelopePasses(vp, opts, w);
    GrantsDecide(vp, opts, w);
    var t := TallyAgents(NOTHING_YET, Agents(cx.vp), cx).value;
    forall g | g in grants ensures GrantOutcome(g, cx, Subjects(t.chain)).Dropped? {
      GrantOfTally(g, cx);
      GrantInPlaceMeans(g, cx);
      LapsedGrant(g, cx, Subjects(t.chain));
    }
    LastGrantDropped(GrantTally({}, 0, None), grants, cx, t);
    assert grants[|grants| - 1] in grants;
    LapsedGrant(grants[|grants| - 1], cx, Subjects(t.chain));
  }

  lemma LapsedGrant(g: Credential, cx: Context, dids: seq<Did>)
    requires !GrantOutcome(g, cx, dids).Fatal? && !Holds(g, cx.opts, cx.w)
    ensures GrantOutcome(g, cx, dids).Dropped?
    ensures CredentialSays(GrantOutcome(g, cx, dids).error, g, cx.opts, cx.w)
  {
    CredentialErrs(g, cx.opts, cx.w);
  }
}
