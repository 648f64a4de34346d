/** From the revoked row to the verifier: what a revoked credential is still worth. */
module RevocationEffect {
  import opened Common
  import opened Credentials
  import opened Verifier
  import opened VerifierFormula
  import opened VcStore
  import opened VcLifecycle
  import opened VcInvariants
  import opened AgentFlows
  import opened Runs
  import opened Processes
  import Delegation
  import StatusList

  /** The credential rests on `c`: it is `c`, or `c` is an ancestor on its chain. */
  predicate RestsOn(vc: Credential, c: Credential) {
    c in WalkOf(vc)
  }

  /** The list the verifier reads has the bit of `c` set. */
  ghost predicate SeenRevoked(cfg: Platform, c: Credential, index: int, seen: World) {
    && c.body.status == Some(EntryOnDefaultList(cfg, index))
    && ListUrl(cfg) in seen.lists
    && StatusList.GetBit(seen.lists[ListUrl(cfg)], index) == Some(true)
  }

  lemma NothingStandsOnIt(vc: Credential, cx: Context, c: Credential)
    requires RestsOn(vc, c) && VerifyCredential(c, cx.opts, cx.w).Err?
    ensures !StandsIn(vc, cx)
  {
    Delegation.CredentialFaultFree(ChainOf(vc), cx.opts, cx.w);
  }

  /** A credential seen revoked gives nobody anything: every scope an accepted
      presentation is worth comes from a credential that does not rest on it and,
      when grants are presented, from a grant that is not it. */
  lemma RevokedIsPowerless(cfg: Platform, c: Credential, index: int, vp: Presentation, opts: VerifyOptions, seen: World)
    requires SeenRevoked(cfg, c, index, seen) && VpResult(vp, opts, seen).Ok?
    ensures var r, cx := VpResult(vp, opts, seen).value, Context(vp.body, opts, seen);
            && (forall s :: s in r.privilegeScopes ==>
                  exists vc :: vc in Agents(vp.body) && StandsIn(vc, cx) && s in ScopesOf(vc) && !RestsOn(vc, c))
            && (forall s :: s in r.effectiveScopes && Grants(vp.body) != [] ==>
                  exists g :: g in Grants(vp.body) && g != c && GrantStands(g, cx) && NamesFor(g, s, cx))
  {
    var r, cx := VpResult(vp, opts, seen).value, Context(vp.body, opts, seen);
    ScopesAreFormula(vp, opts, seen);
    assert VerifyCredential(c, opts, seen).Err?;
    forall s | s in r.privilegeScopes
      ensures exists vc :: vc in Agents(vp.body) && StandsIn(vc, cx) && s in ScopesOf(vc) && !RestsOn(vc, c)
    {
      var vc :| vc in Agents(vp.body) && StandsIn(vc, cx) && s in ScopesOf(vc);
      if RestsOn(vc, c) {
        NothingStandsOnIt(vc, cx, c);
      }
    }
    forall s | s in r.effectiveScopes && Grants(vp.body) != []
      ensures exists g :: g in Grants(vp.body) && g != c && GrantStands(g, cx) && NamesFor(g, s, cx)
    {
      assert Consented(s, cx);
      var g :| g in Grants(vp.body) && GrantStands(g, cx) && NamesFor(g, s, cx);
      assert g != c;
    }
  }

  /** The same across processes: a credential revoked anywhere is powerless at every
      verifier that reads the list, through any process, more than the first cache
      layer's lifetime later. */
  lemma RevokedIsPowerlessEverywhere(cfg: Platform, dir: Directory, shared: bool, before: seq<Turn>, p: nat, id: VcId,
                                     at: int, later: seq<Turn>, reader: nat, now: int,
                                     vp: Presentation, opts: VerifyOptions, seen: World)
    requires cfg.lifetimes.l1 >= 0
    requires LegalTurns(cfg, dir, Boot(shared), before, at)
    requires var y := RunAll(cfg, dir, Boot(shared), before);
             && Listed(cfg, y.store, id) && RevokeVC(cfg, View(y, p), id, at).result.Ok?
             && LegalTurns(cfg, dir, After(cfg, dir, y, Turn(p, Revoke(id), at)), later, now)
    requires now > at + cfg.lifetimes.l1 * 1000
    requires var revoked := After(cfg, dir, RunAll(cfg, dir, Boot(shared), before), Turn(p, Revoke(id), at));
             var end := RunAll(cfg, dir, revoked, later);
             var read := GetStatusList(cfg, View(end, reader), now).result;
             ListUrl(cfg) in seen.lists && read == Ok(seen.lists[ListUrl(cfg)])
    requires VpResult(vp, opts, seen).Ok?
    ensures var c := RunAll(cfg, dir, Boot(shared), before).store.vcs[id].vc;
            var r, cx := VpResult(vp, opts, seen).value, Context(vp.body, opts, seen);
            && (forall s :: s in r.privilegeScopes ==>
                  exists vc :: vc in Agents(vp.body) && StandsIn(vc, cx) && s in ScopesOf(vc) && !RestsOn(vc, c))
            && (forall s :: s in r.effectiveScopes && Grants(vp.body) != [] ==>
                  exists g :: g in Grants(vp.body) && g != c && GrantStands(g, cx) && NamesFor(g, s, cx))
  {
    var y := RunAll(cfg, dir, Boot(shared), before);
    AlwaysShortLived(cfg, dir, before, shared, at);
    RevokedIsSeen(cfg, dir, shared, before, p, id, at, later, reader, now);
    ListedEntry(cfg, y.store, id);
    RevokedIsPowerless(cfg, y.store.vcs[id].vc, y.store.vcs[id].statusListIndex, vp, opts, seen);
  }

  lemma ListedEntry(cfg: Platform, st: Store, id: VcId)
    requires Inv(cfg, st) && Listed(cfg, st, id)
    ensures st.vcs[id].vc.body.status == Some(EntryOnDefaultList(cfg, st.vcs[id].statusListIndex))
  {
  }

  // ---- What exactly a revocation takes ---------------------------------------------

  /** `after` is `before` with one status entry no longer clear. */
  ghost predicate OneMoreRevoked(before: World, after: World, entry: StatusRef) {
    && after == before.(lists := after.lists)
    && forall e :: EntryClear(after.lists, e) <==> EntryClear(before.lists, e) && e != entry
  }

  /** Some credential on the walk has that status entry. */
  predicate RestsOnEntry(vc: Credential, entry: StatusRef) {
    exists c :: c in WalkOf(vc) && c.body.status == Some(entry)
  }

  lemma StandsByItself(c: Credential, opts: VerifyOptions, before: World, after: World, entry: StatusRef)
    requires OneMoreRevoked(before, after, entry)
    ensures VerifyCredential(c, opts, after).Ok? <==>
            VerifyCredential(c, opts, before).Ok? && c.body.status != Some(entry)
  {
  }

  /** A credential still stands exactly when nothing on its walk has the entry. */
  lemma StandsAfter(vc: Credential, cx: Context, after: World, entry: StatusRef)
    requires OneMoreRevoked(cx.w, after, entry)
    ensures StandsIn(vc, cx.(w := after)) <==> StandsIn(vc, cx) && !RestsOnEntry(vc, entry)
  {
    forall c
      ensures VerifyCredential(c, cx.opts, after).Ok? <==>
              VerifyCredential(c, cx.opts, cx.w).Ok? && c.body.status != Some(entry)
    {
      StandsByItself(c, cx.opts, cx.w, after, entry);
    }
    Delegation.CredentialFaultFree(ChainOf(vc), cx.opts, cx.w);
    Delegation.CredentialFaultFree(ChainOf(vc), cx.opts, after);
  }

  /** Authority ends with an entry exactly as far as it rests on it: of the scopes held
      before, those are lost that no credential standing off the entry holds. */
  lemma AuthorityEndsIff(vp: Presentation, opts: VerifyOptions, before: World, after: World, entry: StatusRef,
                         s: Scope)
    requires OneMoreRevoked(before, after, entry)
    requires VpResult(vp, opts, before).Ok? && VpResult(vp, opts, after).Ok?
    requires s in VpResult(vp, opts, before).value.privilegeScopes
    ensures s !in VpResult(vp, opts, after).value.privilegeScopes <==>
            forall vc :: vc in Agents(vp.body) && StandsIn(vc, Context(vp.body, opts, before)) && s in ScopesOf(vc) ==>
              RestsOnEntry(vc, entry)
  {
    ScopesAreFormula(vp, opts, before);
    ScopesAreFormula(vp, opts, after);
    forall vc
      ensures StandsIn(vc, Context(vp.body, opts, after)) <==>
              StandsIn(vc, Context(vp.body, opts, before)) && !RestsOnEntry(vc, entry)
    {
      StandsAfter(vc, Context(vp.body, opts, before), after, entry);
    }
  }

  /** A renewed credential rests on its own new entry alone, whatever the renewed one
      was delegated from: renewing a delegation cuts it loose from its delegator. */
  lemma RenewedRestsOnItself(cfg: Platform, s: Sys, vcId: VcId, o: RenewOptions, known: bool, matches: bool, now: int,
                             id: VcId, entry: StatusRef)
    requires RenewVC(cfg, s, vcId, o, known, matches, now, id).result.Ok?
    ensures var r, issued := s.store.vcs[vcId], RenewVC(cfg, s, vcId, o, known, matches, now, id).result.value;
            && !Delegated(issued.vc) && issued.vc.body.issuer == cfg.issuer.did
            && issued.vc.body.subject.id == r.subjectDid
            && (r.subjectType.AgentSubject? ==>
                  ScopesOf(issued.vc) == (if o.privilegeScopes.Some? then o.privilegeScopes else r.privilegeScopes)
                                         .GetOr([]))
            && (RestsOnEntry(issued.vc, entry) <==> entry == EntryOnDefaultList(cfg, issued.statusListIndex))
  {
    var issued := RenewVC(cfg, s, vcId, o, known, matches, now, id).result.value;
    assert WalkOf(issued.vc) == [issued.vc];
  }
}
