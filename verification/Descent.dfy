/** What the scopes of an accepted presentation come down from. */
module Descent {
  import opened Common
  import opened Credentials
  import opened Verifier
  import opened VerifierFormula
  import opened Delegation

  /** A credential stands on a root at depth 0 that did not issue itself, or is one
      without a delegator, self-signed only where that is allowed. */
  predicate RootedRight(vc: Credential, opts: VerifyOptions) {
    var root := WalkOf(vc)[0];
    if Delegated(vc) then !SelfSigned(root) && DepthOf(root) == 0
    else SelfSigned(vc) ==> opts.allowSelfSigned
  }

  lemma StandingIsRooted(vc: Credential, cx: Context)
    requires StandsIn(vc, cx)
    ensures RootedRight(vc, cx.opts)
  {
    if Delegated(vc) {
      ChainAcceptedIff(vc, cx.opts, cx.w);
    }
  }

  lemma StandingNestsIff(vc: Credential, cx: Context)
    requires StandsIn(vc, cx)
    ensures ScopesNested(WalkOf(vc)) <==> NothingHidden(WalkOf(vc))
  {
    if Delegated(vc) {
      WalkAgainstSchema(vc, cx.opts, cx.w);
    }
  }

  lemma NestedHolds(vc: Credential, s: Scope)
    requires ScopesNested(WalkOf(vc)) && s in ScopesOf(vc)
    ensures forall c :: c in WalkOf(vc) ==> s in ScopesOf(c)
  {
    var walk := WalkOf(vc);
    assert walk[|walk| - 1] == vc;
    forall c | c in walk ensures s in ScopesOf(c) {
      var k :| 0 <= k < |walk| && walk[k] == c;
    }
  }

  /** Every scope an accepted presentation is worth was handed down, link by link, from
      a root in order, by chains that hide nothing; and they hide nothing exactly when
      the scopes along each of them only shrink. */
  lemma AcceptedScopesDescend(vp: Presentation, opts: VerifyOptions, w: World)
    requires VpResult(vp, opts, w).Ok?
    ensures var cx, r := Context(vp.body, opts, w), VpResult(vp, opts, w).value;
            var standing := Standing(Agents(vp.body), cx);
            && (forall vc :: vc in standing ==> RootedRight(vc, opts))
            && (forall vc :: vc in standing ==> (ScopesNested(WalkOf(vc)) <==> NothingHidden(WalkOf(vc))))
            && ((forall vc :: vc in standing ==> NothingHidden(WalkOf(vc))) ==>
                  forall s :: s in r.privilegeScopes <==>
                    exists vc :: vc in standing && forall c :: c in WalkOf(vc) ==> s in ScopesOf(c))
            && (forall s :: s in r.effectiveScopes ==> s in r.privilegeScopes)
  {
    var cx, r := Context(vp.body, opts, w), VpResult(vp, opts, w).value;
    var standing := Standing(Agents(vp.body), cx);
    ScopesAreFormula(vp, opts, w);
    forall vc | vc in standing
      ensures RootedRight(vc, opts) && (ScopesNested(WalkOf(vc)) <==> NothingHidden(WalkOf(vc)))
    {
      StandingIsRooted(vc, cx);
      StandingNestsIff(vc, cx);
    }
    if forall vc :: vc in standing ==> NothingHidden(WalkOf(vc)) {
      forall s
        ensures s in r.privilegeScopes <==>
                exists vc :: vc in standing && forall c :: c in WalkOf(vc) ==> s in ScopesOf(c)
      {
        HandedDown(cx, s);
      }
    }
  }

  lemma HandedDown(cx: Context, s: Scope)
    requires forall vc :: vc in Standing(Agents(cx.vp), cx) ==> ScopesNested(WalkOf(vc))
    ensures Privileged(s, cx) <==>
            exists vc :: vc in Standing(Agents(cx.vp), cx) && forall c :: c in WalkOf(vc) ==> s in ScopesOf(c)
  {
    if Privileged(s, cx) {
      var vc :| vc in Agents(cx.vp) && StandsIn(vc, cx) && s in ScopesOf(vc);
      NestedHolds(vc, s);
      assert vc in Standing(Agents(cx.vp), cx);
    }
    if vc :| vc in Standing(Agents(cx.vp), cx) && forall c :: c in WalkOf(vc) ==> s in ScopesOf(c) {
      assert vc in WalkOf(vc);
    }
  }
}
