/** From the store to the verifier: which of the presentations signed in a reachable
    state are accepted, then and later. */
module EndToEnd {
  import opened Common
  import opened Credentials
  import opened Verifier
  import opened VcStore
  import opened VcLifecycle
  import opened VcInvariants
  import opened AgentFlows
  import opened Presentations
  import opened Acceptance
  import opened Runs
  import opened Rows
  import opened Orphans
  import StatusList

  // ---- What the store says of a credential ---------------------------------------

  /** The verifier sees the platform's list as `st` has it, with the proofs of `w`. */
  ghost predicate SeesStore(cfg: Platform, w: World, seen: World, st: Store) {
    && seen.resolvable == w.resolvable && seen.verifies == w.verifies
    && (st.list.Some? ==> ListUrl(cfg) in seen.lists && seen.lists[ListUrl(cfg)] == st.list.value.bits)
  }

  predicate StoredAs(st: Store, c: Credential) {
    c.body.id in st.vcs && st.vcs[c.body.id].vc == c
  }

  /** Not revoked: by its row if it is on the platform's list, by the list it names
      otherwise. */
  predicate StillGood(cfg: Platform, st: Store, seen: World, c: Credential) {
    if OnDefaultList(cfg, c) then Unrevoked(st, c.body.id) else NotRevoked(c, seen)
  }

  /** What a stored credential fails with, read off its dates and its row. */
  function RowFault(cfg: Platform, st: Store, seen: World, opts: VerifyOptions, c: Credential): Option<Error> {
    if ValidityFault(c, seen.now).Some? then ValidityFault(c, seen.now)
    else if SelfSigned(c) && !opts.allowSelfSigned then Some(SelfSignedVcNotAllowed)
    else if !StillGood(cfg, st, seen, c) then Some(VcRevoked)
    else None
  }

  /** The store judges what it holds; anything else is left to verification. */
  function StoreJudge(cfg: Platform, st: Store, seen: World, opts: VerifyOptions): Judge {
    c => if StoredAs(st, c) then RowFault(cfg, st, seen, opts, c) else JudgedBy(opts, seen)(c)
  }

  lemma ListedBit(cfg: Platform, st: Store, seen: World, c: Credential)
    requires Inv(cfg, st) && StoredAs(st, c) && OnDefaultList(cfg, c)
    requires st.list.Some? ==> ListUrl(cfg) in seen.lists && seen.lists[ListUrl(cfg)] == st.list.value.bits
    ensures NotRevoked(c, seen) <==> Unrevoked(st, c.body.id)
  {
    assert Listed(cfg, st, c.body.id);
    StatusList.GetBitIsBit(st.list.value.bits, st.vcs[c.body.id].statusListIndex);
  }

  /** The store is right about every credential it holds. */
  lemma StoreIsRight(cfg: Platform, w: World, seen: World, st: Store, opts: VerifyOptions, c: Credential)
    requires Upheld(cfg, w, st) && SeesStore(cfg, w, seen, st)
    ensures StoreJudge(cfg, st, seen, opts)(c) == JudgedBy(opts, seen)(c)
  {
    if StoredAs(st, c) {
      assert TrueRow(w, st.vcs[c.body.id]);
      if OnDefaultList(cfg, c) {
        ListedBit(cfg, st, seen, c);
      }
    }
  }

  lemma StoreJudgesAll(cfg: Platform, w: World, seen: World, st: Store, opts: VerifyOptions)
    requires Upheld(cfg, w, st) && SeesStore(cfg, w, seen, st)
    ensures forall c :: StoreJudge(cfg, st, seen, opts)(c) == JudgedBy(opts, seen)(c)
  {
    forall c ensures StoreJudge(cfg, st, seen, opts)(c) == JudgedBy(opts, seen)(c) {
      StoreIsRight(cfg, w, seen, st, opts, c);
    }
  }

  // ---- Accepted, exactly when ----------------------------------------------------

  /** What is signed in one faithful state and verified against an upheld one. */
  lemma StoredAcceptedIff(cfg: Platform, dir: Directory, w: World, st: Store, after: Store, did: Did, target: string,
                          user: Option<string>, now: int, id: string, opts: VerifyOptions, seen: World)
    requires Faithful(st) && SignVp(dir, st, did, target, user, now, id).Ok?
    requires Upheld(cfg, w, after) && SeesStore(cfg, w, seen, after)
    requires GenuineHolder(WalletOf(dir, did), seen) && seen.now < now + VP_LIFETIME
    requires Truthy(opts.expectedTargetService) ==> opts.expectedTargetService == Some(target)
    ensures VpResult(SignVp(dir, st, did, target, user, now, id).value, opts, seen).Ok? <==>
            ChosenPass(Chosen(st, did, target, user, now).value, did, target, StoreJudge(cfg, after, seen, opts))
  {
    SignedVpIs(dir, st, did, target, user, now, id);
    SignedVpAcceptedIff(dir, st, did, target, user, now, id, opts, seen);
    StoreJudgesAll(cfg, w, seen, after, opts);
    SameJudgements(Chosen(st, did, target, user, now).value, did, target, StoreJudge(cfg, after, seen, opts),
                   JudgedBy(opts, seen));
  }

  lemma {:induction false} HonestPrefix(cfg: Platform, dir: Directory, w: World, events: seq<Event>, later: seq<Event>,
                                        shared: bool)
    requires HonestRun(cfg, dir, w, events + later, shared)
    ensures HonestRun(cfg, dir, w, events, shared)
    decreases |later|
  {
    if later == [] {
      assert events + later == events;
    } else {
      var all := events + later;
      HonestBefore(cfg, dir, w, all, shared);
      assert all[..|all| - 1] == events + later[..|later| - 1];
      HonestPrefix(cfg, dir, w, events, later[..|later| - 1], shared);
    }
  }

  /** Over all runs: what signVP signs after some events is accepted, by a verifier that
      sees the list as it is after any later ones, exactly when the credentials it chose
      pass by what the store then says of them. */
  lemma PresentationsAcceptedIff(cfg: Platform, dir: Directory, w: World, events: seq<Event>, later: seq<Event>,
                                 shared: bool, did: Did, target: string, user: Option<string>, now: int, id: string,
                                 opts: VerifyOptions, seen: World)
    requires HonestRun(cfg, dir, w, events + later, shared) && KeysGenuine(cfg, dir, w)
    requires SignVp(dir, Run(cfg, dir, Start(shared), events).store, did, target, user, now, id).Ok?
    requires SeesStore(cfg, w, seen, Run(cfg, dir, Start(shared), events + later).store)
    requires GenuineHolder(WalletOf(dir, did), seen) && seen.now < now + VP_LIFETIME
    requires Truthy(opts.expectedTargetService) ==> opts.expectedTargetService == Some(target)
    ensures var st := Run(cfg, dir, Start(shared), events).store;
            var after := Run(cfg, dir, Start(shared), events + later).store;
            VpResult(SignVp(dir, st, did, target, user, now, id).value, opts, seen).Ok? <==>
            ChosenPass(Chosen(st, did, target, user, now).value, did, target, StoreJudge(cfg, after, seen, opts))
  {
    HonestPrefix(cfg, dir, w, events, later, shared);
    UpheldReachable(cfg, dir, w, events, shared);
    UpheldReachable(cfg, dir, w, events + later, shared);
    UpheldIsFaithful(cfg, w, Run(cfg, dir, Start(shared), events).store);
    StoredAcceptedIff(cfg, dir, w, Run(cfg, dir, Start(shared), events).store,
                      Run(cfg, dir, Start(shared), events + later).store, did, target, user, now, id, opts, seen);
  }

  // ---- Where no delegation is orphaned ---------------------------------------------

  /** Every ancestor the verifier walks over is stored here, under a row that hangs off
      the one before. */
  ghost predicate Homegrown(st: Store, e: Credential) {
    var walk := WalkOf(e);
    && (forall c :: c in walk ==> StoredAs(st, c))
    && (forall i :: 1 <= i < |walk| ==> HangsOff(st, walk[i], walk[i - 1]))
  }

  predicate HangsOff(st: Store, child: Credential, parent: Credential) {
    child.body.id in st.vcs && st.vcs[child.body.id].parentVcId == Some(parent.body.id)
  }

  /** Up a chain grown here nothing is revoked when its leaf is not, provided nothing on
      it has expired. */
  lemma {:induction false} AncestorStands(st: Store, walk: seq<Credential>, now: int, k: nat)
    requires Faithful(st) && NoOrphans(st, now)
    requires forall c :: c in walk ==> StoredAs(st, c) && (c.body.validUntil.Some? ==> c.body.validUntil.value > now)
    requires forall i :: 1 <= i < |walk| ==> HangsOff(st, walk[i], walk[i - 1])
    requires k < |walk| && Unrevoked(st, walk[|walk| - 1].body.id)
    ensures Unrevoked(st, walk[k].body.id)
    decreases |walk| - k
  {
    if k < |walk| - 1 {
      AncestorStands(st, walk, now, k + 1);
      assert walk[k + 1] in walk && FaithfulRow(st.vcs[walk[k + 1].body.id]);
      assert HangsOff(st, walk[k + 1], walk[k]);
      assert IsActive(st.vcs[walk[k + 1].body.id], now);
    }
  }

  /** What the world outside must grant a credential: it is inside its window, is not
      self-signed unless that is allowed, and is not revoked on another list. */
  predicate OutsideHolds(cfg: Platform, seen: World, opts: VerifyOptions, c: Credential) {
    && ValidityFault(c, seen.now).None?
    && (SelfSigned(c) ==> opts.allowSelfSigned)
    && (!OnDefaultList(cfg, c) ==> NotRevoked(c, seen))
  }

  lemma UnrevokedStands(cfg: Platform, st: Store, seen: World, opts: VerifyOptions, c: Credential)
    requires OutsideHolds(cfg, seen, opts, c) && StoredAs(st, c) && Unrevoked(st, c.body.id)
    ensures StoreJudge(cfg, st, seen, opts)(c).None?
  {
    assert StillGood(cfg, st, seen, c);
    assert RowFault(cfg, st, seen, opts, c).None?;
  }

  lemma HomegrownStands(cfg: Platform, st: Store, seen: World, opts: VerifyOptions, e: Credential, now: int)
    requires Faithful(st) && NoOrphans(st, now) && now <= seen.now
    requires StoredAs(st, e) && Unrevoked(st, e.body.id) && (Delegated(e) ==> Homegrown(st, e))
    requires forall c :: c in WalkOf(e) ==> OutsideHolds(cfg, seen, opts, c)
    ensures forall c :: c in WalkOf(e) ==> StoreJudge(cfg, st, seen, opts)(c).None?
  {
    var walk := WalkOf(e);
    forall c | c in walk ensures StoreJudge(cfg, st, seen, opts)(c).None? {
      var k :| 0 <= k < |walk| && walk[k] == c;
      WindowHolds(walk, seen.now, now);
      AncestorStands(st, walk, now, k);
      UnrevokedStands(cfg, st, seen, opts, c);
    }
  }

  lemma WindowHolds(walk: seq<Credential>, later: int, now: int)
    requires now <= later && forall c :: c in walk ==> ValidityFault(c, later).None?
    ensures forall c :: c in walk ==> (c.body.validUntil.Some? ==> c.body.validUntil.value > now)
  {
  }

  lemma ChosenStored(st: Store, did: Did, target: string, user: Option<string>, now: int)
    requires Faithful(st) && Chosen(st, did, target, user, now).Ok?
    ensures var c := Chosen(st, did, target, user, now).value;
            && (forall e :: e in c.agentCredentials ==> StoredAs(st, e) && Unrevoked(st, e.body.id))
            && (forall g :: g in c.grants ==> StoredAs(st, g) && Unrevoked(st, g.body.id))
  {
    var c := Chosen(st, did, target, user, now).value;
    ChosenFit(st, did, target, user, now);
    forall e | e in c.agentCredentials ensures StoredAs(st, e) && Unrevoked(st, e.body.id) {
      assert AgentFor(st, e, did, now);
    }
    forall g | g in c.grants ensures StoredAs(st, g) && Unrevoked(st, g.body.id) {
      assert GrantCarried(st, g, c, did, target, user.value, now);
    }
  }

  /** Everything the verifier looks at holds, as far as the world outside decides it. */
  ghost predicate AllOutsideHolds(cfg: Platform, c: Inherited, seen: World, opts: VerifyOptions) {
    && (forall e, x :: e in c.agentCredentials && x in WalkOf(e) ==> OutsideHolds(cfg, seen, opts, x))
    && (forall g :: g in c.grants ==> OutsideHolds(cfg, seen, opts, g))
  }

  lemma GentleAllStand(cfg: Platform, st: Store, seen: World, opts: VerifyOptions, did: Did, target: string,
                       user: Option<string>, now: int)
    requires Faithful(st) && NoOrphans(st, now) && now <= seen.now && Chosen(st, did, target, user, now).Ok?
    requires var c := Chosen(st, did, target, user, now).value;
             && AllOutsideHolds(cfg, c, seen, opts)
             && forall e :: e in c.agentCredentials && Delegated(e) ==> Homegrown(st, e)
    ensures AllStand(Chosen(st, did, target, user, now).value, StoreJudge(cfg, st, seen, opts))
  {
    var c, judge := Chosen(st, did, target, user, now).value, StoreJudge(cfg, st, seen, opts);
    ChosenStored(st, did, target, user, now);
    forall e, x | e in c.agentCredentials && x in WalkOf(e) ensures judge(x).None? {
      HomegrownStands(cfg, st, seen, opts, e, now);
    }
    forall g | g in c.grants ensures judge(g).None? {
      UnrevokedStands(cfg, st, seen, opts, g);
    }
  }

  /** In a gentle run with a forward clock, where the delegations chosen were grown
      here, what signVP signs is accepted, as long as the world outside holds, exactly
      when what it chose is in order. */
  lemma PresentationsAreAccepted(cfg: Platform, dir: Directory, w: World, events: seq<Event>, shared: bool,
                                 did: Did, target: string, user: Option<string>, now: int, id: string,
                                 opts: VerifyOptions, seen: World)
    requires HonestRun(cfg, dir, w, events, shared) && KeysGenuine(cfg, dir, w)
    requires Forward(events, now) && GentleRun(cfg, dir, events, shared)
    requires SignVp(dir, Run(cfg, dir, Start(shared), events).store, did, target, user, now, id).Ok?
    requires SeesStore(cfg, w, seen, Run(cfg, dir, Start(shared), events).store)
    requires GenuineHolder(WalletOf(dir, did), seen) && now <= seen.now < now + VP_LIFETIME
    requires Truthy(opts.expectedTargetService) ==> opts.expectedTargetService == Some(target)
    requires var st := Run(cfg, dir, Start(shared), events).store;
             var c := Chosen(st, did, target, user, now).value;
             && AllOutsideHolds(cfg, c, seen, opts)
             && forall e :: e in c.agentCredentials && Delegated(e) ==> Homegrown(st, e)
    ensures var st := Run(cfg, dir, Start(shared), events).store;
            VpResult(SignVp(dir, st, did, target, user, now, id).value, opts, seen).Ok? <==>
            ChosenInOrder(Chosen(st, did, target, user, now).value, did, target)
  {
    var st := Run(cfg, dir, Start(shared), events).store;
    UpheldReachable(cfg, dir, w, events, shared);
    UpheldIsFaithful(cfg, w, st);
    NoOrphansReachable(cfg, dir, events, shared, now);
    GentleAllStand(cfg, st, seen, opts, did, target, user, now);
    StoreJudgesAll(cfg, w, seen, st, opts);
    SameJudgements(Chosen(st, did, target, user, now).value, did, target, StoreJudge(cfg, st, seen, opts),
                   JudgedBy(opts, seen));
    SignedVpAccepted(dir, st, did, target, user, now, id, opts, seen);
  }
}
