/** Authority only decays: as time passes and credentials are revoked, the same
    presentation is never worth more, and fails only in four ways. */
module VerifierDecay {
  import opened Common
  import opened Credentials
  import opened Verifier
  import opened VerifierFormula

  /** `late` is `early` at a later time with more entries revoked or unreadable:
      proofs and DID documents are the same. */
  ghost predicate Later(early: World, late: World) {
    && early.now <= late.now
    && early.resolvable == late.resolvable
    && early.verifies == late.verifies
    && early.verifiesVp == late.verifiesVp
    && forall e :: EntryClear(late.lists, e) ==> EntryClear(early.lists, e)
  }

  predicate Withdrawn(e: Error) {
    e.VcRevoked? || e.VcExpired?
  }

  lemma CredentialDecays(vc: Credential, opts: VerifyOptions, early: World, late: World)
    requires Later(early, late)
    ensures var r, r' := VerifyCredential(vc, opts, early), VerifyCredential(vc, opts, late);
            && (r.Ok? ==> r' == r || (r'.Err? && Withdrawn(r'.error)))
            && (r.Err? && Withdrawn(r.error) ==> r'.Err? && Withdrawn(r'.error))
  {
  }

  lemma {:induction false} ChainDecays(chain: seq<Credential>, opts: VerifyOptions, early: World, late: World)
    requires Later(early, late)
    ensures var r, r' := CredentialFault(chain, opts, early), CredentialFault(chain, opts, late);
            && (r.None? ==> r'.None? || Withdrawn(r'.value))
            && (r.Some? && Withdrawn(r.value) ==> r'.Some? && Withdrawn(r'.value))
  {
    if chain != [] {
      CredentialDecays(chain[0], opts, early, late);
      ChainDecays(chain[1..], opts, early, late);
    }
  }

  lemma AgentDecays(vc: Credential, cx: Context, late: World)
    requires Later(cx.w, late)
    ensures var o, o' := AgentOutcome(vc, cx), AgentOutcome(vc, cx.(w := late));
            && (o.Stands? ==> o' == o || o'.Dropped?)
            && (o.Dropped? ==> o'.Dropped?)
  {
    CredentialDecays(vc, cx.opts, cx.w, late);
    ChainDecays(ChainOf(vc), cx.opts, cx.w, late);
  }

  /** Nothing that stands late failed to stand early. */
  lemma StandingDecays(cx: Context, late: World)
    requires Later(cx.w, late)
    requires forall vc :: vc in Agents(cx.vp) ==> !AgentOutcome(vc, cx).Fatal?
    ensures var dx := cx.(w := late);
            && (forall vc :: vc in Agents(cx.vp) && StandsIn(vc, dx) ==> StandsIn(vc, cx))
            && (forall vc :: vc in Agents(cx.vp) ==> !AgentOutcome(vc, dx).Fatal?)
  {
    forall vc | vc in Agents(cx.vp)
      ensures StandsIn(vc, cx.(w := late)) ==> StandsIn(vc, cx)
      ensures !AgentOutcome(vc, cx.(w := late)).Fatal?
    {
      AgentDecays(vc, cx, late);
    }
  }

  lemma MayActDecays(s: Scope, cx: Context, late: World)
    requires Later(cx.w, late)
    requires forall vc :: vc in Agents(cx.vp) ==> !AgentOutcome(vc, cx).Fatal?
    requires forall g :: g in Grants(cx.vp) ==> !GrantBroken(g, cx)
    ensures Privileged(s, cx.(w := late)) ==> Privileged(s, cx)
    ensures MayAct(s, cx.(w := late)) ==> MayAct(s, cx)
  {
    var dx := cx.(w := late);
    StandingDecays(cx, late);
    if MayAct(s, dx) && Grants(cx.vp) != [] {
      var g :| g in Grants(dx.vp) && GrantStands(g, dx) && NamesFor(g, s, dx);
      CredentialDecays(g, cx.opts, cx.w, late);
      assert GrantStands(g, cx) && NamesFor(g, s, cx);
    }
  }

  lemma AcceptedHasNoFatal(vp: Presentation, opts: VerifyOptions, w: World)
    requires VpResult(vp, opts, w).Ok?
    ensures var cx := Context(vp.body, opts, w);
            && (forall vc :: vc in Agents(cx.vp) ==> !AgentOutcome(vc, cx).Fatal?)
            && (forall g :: g in Grants(cx.vp) ==>
                  !GrantBroken(g, cx)
                  && exists dids :: !GrantOutcome(g, cx, dids).Fatal?)
  {
    var cx := Context(vp.body, opts, w);
    TallyFails(NOTHING_YET, Agents(cx.vp), cx);
    var t := TallyAgents(NOTHING_YET, Agents(cx.vp), cx).value;
    GrantTallyFacts(GrantTally({}, 0, None), Grants(cx.vp), cx, t);
    forall g | g in Grants(cx.vp)
      ensures !GrantBroken(g, cx) && !GrantOutcome(g, cx, Subjects(t.chain)).Fatal?
    {
      GrantOutcomeCases(g, cx, Subjects(t.chain));
    }
  }

  /** Two runs on one presentation may drop different credentials and grants, yet
      the later one never finds a scope the earlier one did not. */
  lemma AuthorityOnlyDecays(vp: Presentation, opts: VerifyOptions, early: World, late: World)
    requires Later(early, late)
    requires VpResult(vp, opts, early).Ok? && VpResult(vp, opts, late).Ok?
    ensures var a, b := VpResult(vp, opts, early).value, VpResult(vp, opts, late).value;
            && (forall s :: s in b.privilegeScopes ==> s in a.privilegeScopes)
            && (forall s :: s in b.effectiveScopes ==> s in a.effectiveScopes)
  {
    var cx := Context(vp.body, opts, early);
    AcceptedHasNoFatal(vp, opts, early);
    ScopesAreFormula(vp, opts, early);
    ScopesAreFormula(vp, opts, late);
    forall s
      ensures Privileged(s, cx.(w := late)) ==> Privileged(s, cx)
      ensures MayAct(s, cx.(w := late)) ==> MayAct(s, cx)
    {
      MayActDecays(s, cx, late);
    }
  }

  // ---- How an accepted presentation can come to fail -----------------------

  lemma {:induction false} TallyError(t: Tally, entries: seq<Credential>, cx: Context)
    requires t.dropped.Some? ==> Withdrawn(t.dropped.value)
    ensures var r := TallyAgents(t, entries, cx);
            && (r.Err? ==> exists vc :: vc in entries && AgentOutcome(vc, cx).Fatal?)
            && (r.Ok? && r.value.dropped.Some? ==> Withdrawn(r.value.dropped.value))
    decreases entries
  {
    if entries != [] {
      assert entries == [entries[0]] + entries[1..];
      match AgentOutcome(entries[0], cx)
      case Fatal(_) =>
      case Dropped(e) => TallyError(t.(dropped := Some(e)), entries[1..], cx);
      case Stands(links, warn) => TallyError(AddAgent(t, entries[0], links, warn), entries[1..], cx);
    }
  }

  lemma {:induction false} GrantTallyError(g0: GrantTally, grants: seq<Credential>, cx: Context, t: Tally)
    requires g0.dropped.Some? ==> Withdrawn(g0.dropped.value)
    ensures var r := TallyGrants(g0, grants, cx, t);
            && (r.Err? ==> exists g :: g in grants && GrantOutcome(g, cx, Subjects(t.chain)) == Fatal(r.error))
            && (r.Ok? && r.value.dropped.Some? ==> Withdrawn(r.value.dropped.value))
    decreases grants
  {
    if grants != [] {
      assert grants == [grants[0]] + grants[1..];
      match GrantOutcome(grants[0], cx, Subjects(t.chain))
      case Fatal(_) =>
      case Dropped(e) => GrantTallyError(g0.(dropped := Some(e)), grants[1..], cx, t);
      case Stands(_, _) =>
        GrantTallyError(GrantTally(g0.allowed + Covered(grants[0], cx, t), g0.valid + 1, g0.dropped),
                        grants[1..], cx, t);
    }
  }

  lemma GrantFailsOnlyByMismatch(g: Credential, cx: Context, dids: seq<Did>, late: World, lateDids: seq<Did>)
    requires Later(cx.w, late)
    requires !GrantOutcome(g, cx, dids).Fatal?
    ensures var o := GrantOutcome(g, cx.(w := late), lateDids);
            o.Fatal? ==> o.error == ConsentGrantSubjectMismatch
  {
  }

  /** Once accepted, a presentation is later rejected only because it expired,
      because nothing in it stands any more, or because the chain that led to a
      grant's agent is gone. */
  lemma LaterRejections(vp: Presentation, opts: VerifyOptions, early: World, late: World)
    requires Later(early, late)
    requires VpResult(vp, opts, early).Ok? && VpResult(vp, opts, late).Err?
    ensures var e := VpResult(vp, opts, late).error;
            e.VpExpired? || Withdrawn(e) || e.ConsentGrantSubjectMismatch?
  {
    var cx, dx := Context(vp.body, opts, early), Context(vp.body, opts, late);
    AcceptedHasNoFatal(vp, opts, early);
    StandingDecays(cx, late);
    TallyError(NOTHING_YET, Agents(vp.body), dx);
    var t := TallyAgents(NOTHING_YET, Agents(vp.body), dx).value;
    GrantTallyError(GrantTally({}, 0, None), Grants(vp.body), dx, t);
    if EnvelopeFault(vp, opts, late).None? && t.valid > 0 {
      var grants := TallyGrants(GrantTally({}, 0, None), Grants(vp.body), dx, t);
      if grants.Err? {
        var g :| g in Grants(vp.body) && GrantOutcome(g, dx, Subjects(t.chain)) == Fatal(grants.error);
        var dids :| !GrantOutcome(g, cx, dids).Fatal?;
        GrantFailsOnlyByMismatch(g, cx, dids, late, Subjects(t.chain));
      }
    }
  }
}
