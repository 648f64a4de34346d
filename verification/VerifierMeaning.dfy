/** What a verdict means in plain terms: the proofs, the clock, the lists and the fields
    of the credentials, and nothing of how verifyVP goes about it. */
module VerifierMeaning {
  import opened Common
  import opened Credentials
  import opened Verifier
  import opened VerifierFormula
  import opened Delegation
  import StatusList

  // ---- One credential ----------------------------------------------------------------

  predicate Given(s: Option<string>) {
    s.Some? && s.value != ""
  }

  predicate Proven(c: Credential, w: World) {
    && w.resolvable(c.body.issuer)
    && c.proof.Some? && w.verifies(c.body.issuer, c.body, c.proof.value)
  }

  predicate Begun(c: Credential, now: int) {
    c.body.validFrom.Some? ==> c.body.validFrom.value <= now
  }

  predicate Unended(c: Credential, now: int) {
    c.body.validUntil.Some? ==> now < c.body.validUntil.value
  }

  predicate FromAnother(c: Credential, opts: VerifyOptions) {
    c.body.issuer != c.body.subject.id || opts.allowSelfSigned
  }

  /** The credential names no status entry, or one that can be read and is 0. */
  predicate Unflagged(c: Credential, w: World) {
    c.body.status.Some? ==>
      var entry := c.body.status.value;
      && entry.listUrl in w.lists && entry.index.Some?
      && 0 <= entry.index.value < 8 * |w.lists[entry.listUrl]|
      && !StatusList.Bit(w.lists[entry.listUrl], entry.index.value)
  }

  predicate Holds(c: Credential, opts: VerifyOptions, w: World) {
    Proven(c, w) && Begun(c, w.now) && Unended(c, w.now) && FromAnother(c, opts) && Unflagged(c, w)
  }

  /** It would hold, but that it has ended or is flagged. */
  predicate Lapsed(c: Credential, opts: VerifyOptions, w: World) {
    Proven(c, w) && Begun(c, w.now) && (!Unended(c, w.now) || (FromAnother(c, opts) && !Unflagged(c, w)))
  }

  lemma UnflaggedMeans(c: Credential, w: World)
    ensures NotRevoked(c, w) <==> Unflagged(c, w)
  {
    if c.body.status.Some? {
      var entry := c.body.status.value;
      if entry.listUrl in w.lists && entry.index.Some? {
        var bits, i := w.lists[entry.listUrl], entry.index.value;
        if 0 <= i < 8 * |bits| {
          StatusList.GetBitIsBit(bits, i);
        }
      }
    }
  }

  /** A credential passes exactly when it holds, and each way it can fail has its error. */
  lemma CredentialMeans(c: Credential, opts: VerifyOptions, w: World)
    ensures var r := VerifyCredential(c, opts, w);
            && (r.Ok? <==> Holds(c, opts, w))
            && (r.Ok? ==> (r.value <==> c.body.issuer == c.body.subject.id))
            && (r == Err(DidUnresolvable(c.body.issuer)) <==> !w.resolvable(c.body.issuer))
            && (r == Err(ProofMissing) <==> w.resolvable(c.body.issuer) && c.proof.None?)
            && (r == Err(VcSignatureInvalid) <==> w.resolvable(c.body.issuer) && c.proof.Some? && !Proven(c, w))
            && (r == Err(VcNotYetValid) <==> Proven(c, w) && !Begun(c, w.now))
            && (r == Err(VcExpired) <==> Proven(c, w) && Begun(c, w.now) && !Unended(c, w.now))
            && (r == Err(SelfSignedVcNotAllowed) <==>
                  Proven(c, w) && Begun(c, w.now) && Unended(c, w.now) && !FromAnother(c, opts))
            && (r == Err(VcRevoked) <==>
                  && Proven(c, w) && Begun(c, w.now) && Unended(c, w.now) && FromAnother(c, opts)
                  && !Unflagged(c, w))
            && (r.Err? && (r.error.VcRevoked? || r.error.VcExpired?) <==> Lapsed(c, opts, w))
  {
    UnflaggedMeans(c, w);
  }

  // ---- One agent credential -----------------------------------------------------------

  predicate IsAgent(e: Credential) {
    "HelixAgentCredential" in e.body.types
  }

  predicate IsGrant(e: Credential) {
    "DelegationGrantCredential" in e.body.types
  }

  /** A delegated credential is looked at with its embedded ancestors, root first. */
  function Lineage(e: Credential): seq<Credential> {
    if Given(e.body.subject.delegatedFrom) then e.body.chain + [e] else [e]
  }

  predicate AboutHolder(e: Credential, vp: VpBody) {
    && e.proof.Some? && e.body.subject.privilegeScopes.Some?
    && e.body.subject.id == vp.holder
    && (Given(e.body.targetService) ==> e.body.targetService == Some(vp.targetService))
    && (Given(e.body.subject.delegatedFrom) ==> e.body.chain != [])
  }

  /** The child's scopes are the parent's, or the first that is not is the empty one. */
  ghost predicate Narrows(parent: seq<Scope>, child: seq<Scope>) {
    || (forall s :: s in child ==> s in parent)
    || (exists k :: 0 <= k < |child| && child[k] == "" && "" !in parent
                    && forall j :: 0 <= j < k ==> child[j] in parent)
  }

  predicate Follows(parent: Credential, child: Credential, i: int, budget: int) {
    && child.body.issuer == parent.body.subject.id
    && child.body.subject.delegatedFrom == Some(parent.body.subject.id)
    && child.body.subject.parentVcId == Some(parent.body.id)
    && child.body.subject.delegationDepth == Some(i)
    && child.body.subject.maxDelegationDepth == Some(budget)
    && i <= budget
  }

  function Number(n: Option<int>): int {
    if n.Some? then n.value else 0
  }

  function Held(c: Credential): seq<Scope> {
    if c.body.subject.privilegeScopes.Some? then c.body.subject.privilegeScopes.value else []
  }

  /** From a root at depth 0 that another issued, each follows on the one before. */
  ghost predicate HandedDown(chain: seq<Credential>)
    requires chain != []
  {
    var budget := Number(chain[0].body.subject.maxDelegationDepth);
    && chain[0].body.issuer != chain[0].body.subject.id
    && Number(chain[0].body.subject.delegationDepth) == 0
    && forall i :: 1 <= i < |chain| ==>
         Follows(chain[i - 1], chain[i], i, budget) && Narrows(Held(chain[i - 1]), Held(chain[i]))
  }

  predicate Sturdy(c: Credential, opts: VerifyOptions, w: World) {
    Holds(c, opts, w) && c.body.subject.privilegeScopes.Some?
  }

  /** The credential counts: all of its lineage holds and is handed down. */
  ghost predicate Counts(e: Credential, vp: VpBody, opts: VerifyOptions, w: World) {
    && AboutHolder(e, vp)
    && (forall c :: c in Lineage(e) ==> Sturdy(c, opts, w))
    && (Given(e.body.subject.delegatedFrom) ==> HandedDown(Lineage(e)))
  }

  /** It does not count, and nothing is said against it but that it lapsed: the first of
      its lineage that is not sturdy has. */
  ghost predicate Passed(e: Credential, vp: VpBody, opts: VerifyOptions, w: World) {
    AboutHolder(e, vp) && exists k :: 0 <= k < |Lineage(e)| && FirstLapse(Lineage(e), k, opts, w)
  }

  ghost predicate FirstLapse(lineage: seq<Credential>, k: nat, opts: VerifyOptions, w: World)
    requires k < |lineage|
  {
    Lapsed(lineage[k], opts, w) && forall j :: 0 <= j < k ==> Sturdy(lineage[j], opts, w)
  }

  // ---- The walk and the lineage ---------------------------------------------------------

  lemma {:induction false} FirstMissingAt(parent: seq<Scope>, child: seq<Scope>)
    ensures FirstMissing(parent, child).Some? ==>
              exists k :: 0 <= k < |child| && FirstMissing(parent, child) == Some(child[k])
                          && MissingAt(parent, child, k)
  {
    if child != [] && child[0] in parent {
      FirstMissingAt(parent, child[1..]);
      if FirstMissing(parent, child).Some? {
        var k :| 0 <= k < |child[1..]| && FirstMissing(parent, child[1..]) == Some(child[1..][k])
          && MissingAt(parent, child[1..], k);
        assert forall j :: 0 < j <= k ==> child[j] == child[1..][j - 1];
        assert MissingAt(parent, child, k + 1);
      }
    } else if child != [] {
      assert MissingAt(parent, child, 0);
    }
  }

  ghost predicate MissingAt(parent: seq<Scope>, child: seq<Scope>, k: nat)
    requires k < |child|
  {
    child[k] !in parent && forall j :: 0 <= j < k ==> child[j] in parent
  }

  lemma NarrowsMeans(parent: seq<Scope>, child: seq<Scope>)
    ensures EscalatedScope(parent, child).None? <==> Narrows(parent, child)
  {
    FirstMissingAt(parent, child);
    if FirstMissing(parent, child).Some? {
      var k :| 0 <= k < |child| && FirstMissing(parent, child) == Some(child[k]) && MissingAt(parent, child, k);
      if Narrows(parent, child) {
        var m :| 0 <= m < |child| && child[m] == "" && "" !in parent
          && forall j :: 0 <= j < m ==> child[j] in parent;
        assert k == m;
      }
    }
  }

  lemma HandedDownMeans(chain: seq<Credential>)
    requires |chain| >= 2
    ensures StructureFault(chain).None? <==> HandedDown(chain)
  {
    var budget := MaxDepthOf(chain[0]);
    WalkMeans(chain, 1, budget);
    forall i | 1 <= i < |chain|
      ensures EscalatedScope(ScopesOf(chain[i - 1]), ScopesOf(chain[i])).None?
         <==> Narrows(Held(chain[i - 1]), Held(chain[i]))
      ensures Threads(chain[i - 1], chain[i], i, budget) && chain[i].body.issuer == chain[i - 1].body.subject.id
              && i <= budget
         <==> Follows(chain[i - 1], chain[i], i, budget)
    {
      NarrowsMeans(ScopesOf(chain[i - 1]), ScopesOf(chain[i]));
    }
    if HandedDown(chain) {
      assert Follows(chain[|chain| - 2], chain[|chain| - 1], |chain| - 1, budget);
    }
  }

  lemma {:induction false} FaultIsLapse(cs: seq<Credential>, opts: VerifyOptions, w: World)
    ensures CredentialFault(cs, opts, w).None? <==> forall c :: c in cs ==> Sturdy(c, opts, w)
    ensures var fault := CredentialFault(cs, opts, w);
            fault.Some? && (fault.value.VcRevoked? || fault.value.VcExpired?) <==>
            exists k :: 0 <= k < |cs| && FirstLapse(cs, k, opts, w)
  {
    if cs != [] {
      CredentialMeans(cs[0], opts, w);
      assert cs == [cs[0]] + cs[1..];
      FaultIsLapse(cs[1..], opts, w);
      LapseInTail(cs, opts, w);
      SturdyTail(cs, opts, w);
    }
  }

  lemma SturdyTail(cs: seq<Credential>, opts: VerifyOptions, w: World)
    requires cs != []
    ensures (forall c :: c in cs ==> Sturdy(c, opts, w)) <==>
            Sturdy(cs[0], opts, w) && forall c :: c in cs[1..] ==> Sturdy(c, opts, w)
  {
    assert cs == [cs[0]] + cs[1..];
  }

  lemma HoldsOrLapsed(c: Credential, opts: VerifyOptions, w: World)
    ensures !(Holds(c, opts, w) && Lapsed(c, opts, w))
  {
  }

  lemma LapseInTail(cs: seq<Credential>, opts: VerifyOptions, w: World)
    requires cs != []
    ensures (exists k :: 0 <= k < |cs| && FirstLapse(cs, k, opts, w)) <==>
            || Lapsed(cs[0], opts, w)
            || (Sturdy(cs[0], opts, w) && exists k :: 0 <= k < |cs[1..]| && FirstLapse(cs[1..], k, opts, w))
  {
    HoldsOrLapsed(cs[0], opts, w);
    if k :| 0 <= k < |cs| && FirstLapse(cs, k, opts, w) {
      if k > 0 {
        assert forall j :: 0 <= j < k - 1 ==> cs[1..][j] == cs[j + 1];
        assert FirstLapse(cs[1..], k - 1, opts, w);
      }
    }
    if Lapsed(cs[0], opts, w) {
      assert FirstLapse(cs, 0, opts, w);
    }
    if Sturdy(cs[0], opts, w) {
      if k :| 0 <= k < |cs[1..]| && FirstLapse(cs[1..], k, opts, w) {
        assert forall j :: 0 < j <= k ==> cs[j] == cs[1..][j - 1];
        assert FirstLapse(cs, k + 1, opts, w);
      }
    }
  }

  lemma LineageIsWalk(e: Credential)
    ensures Lineage(e) == WalkOf(e) && (Given(e.body.subject.delegatedFrom) <==> Delegated(e))
  {
  }

  /** What the verifier makes of an agent credential: it counts, is passed over, or sinks
      the presentation. */
  lemma AgentMeans(e: Credential, cx: Context)
    ensures StandsIn(e, cx) <==> Counts(e, cx.vp, cx.opts, cx.w)
    ensures AgentOutcome(e, cx).Dropped? <==> Passed(e, cx.vp, cx.opts, cx.w)
    ensures StandsIn(e, cx) ==>
              (AgentOutcome(e, cx).warn <==>
                 !Given(e.body.subject.delegatedFrom) && e.body.issuer == e.body.subject.id)
  {
    LineageIsWalk(e);
    FaultIsLapse(Lineage(e), cx.opts, cx.w);
    if AboutHolder(e, cx.vp) {
      if Delegated(e) {
        HandedDownMeans(Lineage(e));
      } else {
        CredentialMeans(e, cx.opts, cx.w);
        SingleLineage(e, cx);
      }
    }
  }

  lemma SingleLineage(e: Credential, cx: Context)
    requires !Delegated(e) && AboutHolder(e, cx.vp)
    ensures Counts(e, cx.vp, cx.opts, cx.w) <==> Holds(e, cx.opts, cx.w)
    ensures Passed(e, cx.vp, cx.opts, cx.w) <==> Lapsed(e, cx.opts, cx.w)
  {
    assert Lineage(e) == [e] && e in Lineage(e);
    if Lapsed(e, cx.opts, cx.w) {
      assert FirstLapse(Lineage(e), 0, cx.opts, cx.w);
    }
  }

  // ---- Grants ---------------------------------------------------------------------------

  /** It fits the grant schema and is this user's and this service's. */
  predicate ForThis(g: Credential, vp: VpBody) {
    var claims := g.body.subject.claims;
    && claims.fits && claims.scopes.Some? && g.proof.Some?
    && claims.userDid.Some? && claims.userDid == vp.delegatedBy
    && g.body.issuer == vp.targetService
  }

  /** The lineages of the agent credentials that count, one after the other. */
  ghost function Lineages(entries: seq<Credential>, vp: VpBody, opts: VerifyOptions, w: World): seq<Credential> {
    if entries == [] then []
    else (if IsAgent(entries[0]) && Counts(entries[0], vp, opts, w) then Lineage(entries[0]) else [])
         + Lineages(entries[1..], vp, opts, w)
  }

  /** The position is the first with its credential id. */
  ghost predicate NewId(cs: seq<Credential>, i: nat)
    requires i < |cs|
  {
    forall j :: 0 <= j < i ==> cs[j].body.id != cs[i].body.id
  }

  /** To the holder, or passed on to it from a DID of the lineages. */
  ghost predicate ReachesHolder(g: Credential, vp: VpBody, lineages: seq<Credential>) {
    || g.body.subject.id == vp.holder
    || (g.body.subject.claims.allowDelegation != Some(false)
        && exists i :: 0 <= i < |lineages| && lineages[i].body.subject.id == g.body.subject.id && NewId(lineages, i))
  }

  ghost predicate GrantInPlace(g: Credential, vp: VpBody, opts: VerifyOptions, w: World) {
    && ForThis(g, vp) && ReachesHolder(g, vp, Lineages(vp.entries, vp, opts, w))
    && (Holds(g, opts, w) || Lapsed(g, opts, w))
  }

  /** The scope is one the grant names and some counting credential holds: any, where the
      grant is the holder's; else one with the grantee in its lineage. */
  ghost predicate LetsThrough(g: Credential, s: Scope, vp: VpBody, opts: VerifyOptions, w: World) {
    && g.body.subject.claims.scopes.Some? && s in g.body.subject.claims.scopes.value
    && (g.body.subject.id == vp.holder
        || exists e :: e in vp.entries && IsAgent(e) && Counts(e, vp, opts, w) && s in Held(e)
                       && exists c :: c in Lineage(e) && c.body.subject.id == g.body.subject.id)
  }

  // ---- The presentation -------------------------------------------------------------------

  /** Neither expired nor meant for somebody else, signed by its holder. */
  predicate Presentable(vp: Presentation, opts: VerifyOptions, w: World) {
    var b := vp.body;
    && (b.expiration.Some? ==> w.now < b.expiration.value)
    && (Given(opts.expectedTargetService) ==> opts.expectedTargetService == Some(b.targetService))
    && w.resolvable(b.holder) && w.verifiesVp(b.holder, b, vp.proof)
  }

  /** Some agent credential, and as many agent and grant entries as entries. */
  ghost predicate RightKinds(entries: seq<Credential>) {
    && (exists e :: e in entries && IsAgent(e))
    && |Filter(IsAgent, entries)| + |Filter(IsGrant, entries)| == |entries|
  }

  /** And a grant when a user is named. */
  ghost predicate Composed(b: VpBody) {
    && RightKinds(b.entries)
    && (Given(b.delegatedBy) ==> exists g :: g in b.entries && IsGrant(g))
  }

  ghost predicate AgentsHold(b: VpBody, opts: VerifyOptions, w: World) {
    && (forall e :: e in b.entries && IsAgent(e) ==> Counts(e, b, opts, w) || Passed(e, b, opts, w))
    && (exists e :: e in b.entries && IsAgent(e) && Counts(e, b, opts, w))
  }

  ghost predicate GrantsHold(b: VpBody, opts: VerifyOptions, w: World) {
    && (forall g :: g in b.entries && IsGrant(g) ==> GrantInPlace(g, b, opts, w))
    && ((exists g :: g in b.entries && IsGrant(g)) ==> exists g :: g in b.entries && IsGrant(g) && Holds(g, opts, w))
  }

  ghost predicate HeldByCounting(s: Scope, b: VpBody, opts: VerifyOptions, w: World) {
    exists e :: e in b.entries && IsAgent(e) && Counts(e, b, opts, w) && s in Held(e)
  }

  ghost predicate LetThrough(s: Scope, b: VpBody, opts: VerifyOptions, w: World) {
    (exists g :: g in b.entries && IsGrant(g)) ==>
      exists g :: g in b.entries && IsGrant(g) && Holds(g, opts, w) && LetsThrough(g, s, b, opts, w)
  }

  function LinkTo(c: Credential): Link {
    Link(c.body.issuer, c.body.subject.id, c.body.id, Held(c), Number(c.body.subject.delegationDepth))
  }

  /** One link for each credential of the lineages, in their order, but none for one that
      repeats the id of an earlier one. */
  ghost function Shown(cs: seq<Credential>): seq<Link> {
    if cs == [] then []
    else if NewId(cs, |cs| - 1) then Shown(cs[..|cs| - 1]) + [LinkTo(cs[|cs| - 1])]
    else Shown(cs[..|cs| - 1])
  }

  lemma FilterByKind(entries: seq<Credential>)
    ensures Filter(IsAgent, entries) == Filter(IsAgentType, entries)
    ensures Filter(IsGrant, entries) == Filter(IsGrantType, entries)
  {
    FilterSame(IsAgent, IsAgentType, entries);
    FilterSame(IsGrant, IsGrantType, entries);
  }

  lemma {:induction false} LineagesAre(entries: seq<Credential>, cx: Context)
    ensures Lineages(entries, cx.vp, cx.opts, cx.w) == Walks(Standing(Filter(IsAgentType, entries), cx))
  {
    if entries != [] {
      var e, rest := entries[0], Standing(Filter(IsAgentType, entries[1..]), cx);
      LineagesAre(entries[1..], cx);
      AgentMeans(e, cx);
      LineageIsWalk(e);
      if IsAgent(e) && StandsIn(e, cx) {
        var all := Standing(Filter(IsAgentType, entries), cx);
        assert Filter(IsAgentType, entries) == [e] + Filter(IsAgentType, entries[1..]);
        assert ([e] + Filter(IsAgentType, entries[1..]))[1..] == Filter(IsAgentType, entries[1..]);
        assert all == [e] + rest && all[0] == e && all[1..] == rest;
      } else if IsAgent(e) {
        assert Filter(IsAgentType, entries) == [e] + Filter(IsAgentType, entries[1..]);
        assert ([e] + Filter(IsAgentType, entries[1..]))[1..] == Filter(IsAgentType, entries[1..]);
      }
    }
  }

  lemma PresentableMeans(vp: Presentation, opts: VerifyOptions, w: World)
    ensures EnvelopeFault(vp, opts, w).None? <==> Presentable(vp, opts, w) && Composed(vp.body)
  {
    FilterByKind(vp.body.entries);
    AnyOf(IsAgentType, vp.body.entries);
    AnyOf(IsGrantType, vp.body.entries);
    KindsAre();
  }

  lemma KindsAre()
    ensures forall e :: IsAgent(e) <==> IsAgentType(e)
    ensures forall g :: IsGrant(g) <==> IsGrantType(g)
  {
  }

  lemma AnyOf(p: Credential -> bool, s: seq<Credential>)
    ensures |Filter(p, s)| >= 1 <==> exists c :: c in s && p(c)
  {
    if |Filter(p, s)| >= 1 {
      assert Filter(p, s)[0] in Filter(p, s);
    }
    if c :| c in s && p(c) {
      assert c in Filter(p, s);
    }
  }

  lemma AgentsHoldMeans(cx: Context)
    ensures AgentsAccepted(cx) <==> AgentsHold(cx.vp, cx.opts, cx.w)
  {
    forall e
      ensures StandsIn(e, cx) <==> Counts(e, cx.vp, cx.opts, cx.w)
      ensures AgentOutcome(e, cx).Dropped? <==> Passed(e, cx.vp, cx.opts, cx.w)
    {
      AgentMeans(e, cx);
    }
  }

  lemma ReachMeans(g: Credential, cx: Context)
    requires ForThis(g, cx.vp)
    ensures GrantBelongs(g, cx, ReachedAmong(g.body.subject.id, Agents(cx.vp), cx)) <==>
            ReachesHolder(g, cx.vp, Lineages(cx.vp.entries, cx.vp, cx.opts, cx.w))
  {
    var cs := Lineages(cx.vp.entries, cx.vp, cx.opts, cx.w);
    LineagesAre(cx.vp.entries, cx);
    forall i | 0 <= i < |cs| ensures IsFirst(cs, i) <==> NewId(cs, i) {
    }
  }

  lemma GrantInPlaceMeans(g: Credential, cx: Context)
    ensures GrantAdmitted(g, cx) <==> GrantInPlace(g, cx.vp, cx.opts, cx.w)
    ensures GrantStands(g, cx) <==> Holds(g, cx.opts, cx.w)
  {
    CredentialMeans(g, cx.opts, cx.w);
    if ForThis(g, cx.vp) {
      ReachMeans(g, cx);
    }
  }

  lemma GrantsHoldMeans(cx: Context)
    ensures GrantsAccepted(cx) <==> GrantsHold(cx.vp, cx.opts, cx.w)
  {
    forall g
      ensures GrantAdmitted(g, cx) <==> GrantInPlace(g, cx.vp, cx.opts, cx.w)
      ensures GrantStands(g, cx) <==> Holds(g, cx.opts, cx.w)
    {
      GrantInPlaceMeans(g, cx);
    }
    AnyGrant(cx.vp);
  }

  lemma AnyGrant(b: VpBody)
    ensures Grants(b) != [] <==> exists g :: g in b.entries && IsGrant(g)
  {
    AnyOf(IsGrantType, b.entries);
    KindsAre();
  }

  /** Which presentations are accepted, in plain terms. */
  lemma AcceptanceMeans(vp: Presentation, opts: VerifyOptions, w: World)
    ensures VpResult(vp, opts, w).Ok? <==>
            && Presentable(vp, opts, w) && Composed(vp.body)
            && AgentsHold(vp.body, opts, w) && GrantsHold(vp.body, opts, w)
  {
    var cx := Context(vp.body, opts, w);
    AcceptanceIsFormula(vp, opts, w);
    PresentableMeans(vp, opts, w);
    AgentsHoldMeans(cx);
    GrantsHoldMeans(cx);
  }

  // ---- The verdict --------------------------------------------------------------------------

  lemma HeldMeans(s: Scope, cx: Context)
    ensures Privileged(s, cx) <==> HeldByCounting(s, cx.vp, cx.opts, cx.w)
  {
    forall e ensures StandsIn(e, cx) <==> Counts(e, cx.vp, cx.opts, cx.w) {
      AgentMeans(e, cx);
    }
    KindsAre();
  }

  lemma NamesMeans(g: Credential, s: Scope, cx: Context)
    requires ForThis(g, cx.vp)
    ensures NamesFor(g, s, cx) <==> LetsThrough(g, s, cx.vp, cx.opts, cx.w)
  {
    KindsAre();
    forall e
      ensures StandsIn(e, cx) <==> Counts(e, cx.vp, cx.opts, cx.w)
      ensures OnChain(g.body.subject.id, e) <==> exists c :: c in Lineage(e) && c.body.subject.id == g.body.subject.id
    {
      AgentMeans(e, cx);
      LineageIsWalk(e);
    }
  }

  lemma LetThroughMeans(s: Scope, cx: Context)
    requires GrantsHold(cx.vp, cx.opts, cx.w)
    ensures MayAct(s, cx) <==>
            HeldByCounting(s, cx.vp, cx.opts, cx.w) && LetThrough(s, cx.vp, cx.opts, cx.w)
  {
    HeldMeans(s, cx);
    AnyGrant(cx.vp);
    KindsAre();
    forall g | g in Grants(cx.vp)
      ensures GrantStands(g, cx) <==> Holds(g, cx.opts, cx.w)
      ensures NamesFor(g, s, cx) <==> LetsThrough(g, s, cx.vp, cx.opts, cx.w)
    {
      GrantInPlaceMeans(g, cx);
      assert GrantInPlace(g, cx.vp, cx.opts, cx.w);
      NamesMeans(g, s, cx);
    }
  }

  ghost predicate Warns(e: Credential, cx: Context) {
    AgentOutcome(e, cx).Stands? && AgentOutcome(e, cx).warn
  }

  ghost predicate AnyWarns(entries: seq<Credential>, cx: Context) {
    exists e :: e in entries && Warns(e, cx)
  }

  lemma WarnsTail(entries: seq<Credential>, cx: Context)
    requires entries != []
    ensures AnyWarns(entries, cx) <==> Warns(entries[0], cx) || AnyWarns(entries[1..], cx)
  {
    assert entries == [entries[0]] + entries[1..];
  }

  lemma {:induction false} TallyWarns(t: Tally, entries: seq<Credential>, cx: Context)
    requires TallyAgents(t, entries, cx).Ok?
    ensures TallyAgents(t, entries, cx).value.warn <==> t.warn || AnyWarns(entries, cx)
    decreases entries
  {
    if entries != [] {
      WarnsTail(entries, cx);
      match AgentOutcome(entries[0], cx)
      case Fatal(_) => assert false;
      case Dropped(d) => TallyWarns(t.(dropped := Some(d)), entries[1..], cx);
      case Stands(links, warn) => TallyWarns(AddAgent(t, entries[0], links, warn), entries[1..], cx);
    }
  }

  /** A credential that counts was issued by its own subject. */
  ghost predicate SelfIssuedCounts(b: VpBody, opts: VerifyOptions, w: World) {
    exists e :: e in b.entries && IsAgent(e) && Counts(e, b, opts, w)
                && !Given(e.body.subject.delegatedFrom) && e.body.issuer == e.body.subject.id
  }

  lemma WarnMeans(cx: Context)
    requires TallyAgents(NOTHING_YET, Agents(cx.vp), cx).Ok?
    ensures TallyAgents(NOTHING_YET, Agents(cx.vp), cx).value.warn <==> SelfIssuedCounts(cx.vp, cx.opts, cx.w)
  {
    TallyWarns(NOTHING_YET, Agents(cx.vp), cx);
    KindsAre();
    forall e
      ensures Warns(e, cx) <==>
              && Counts(e, cx.vp, cx.opts, cx.w)
              && !Given(e.body.subject.delegatedFrom) && e.body.issuer == e.body.subject.id
    {
      AgentMeans(e, cx);
    }
  }

  // ---- The links shown ------------------------------------------------------------------------

  ghost predicate Present(cs: seq<Credential>, id: VcId) {
    exists i :: 0 <= i < |cs| && cs[i].body.id == id
  }

  lemma PresentLonger(cs: seq<Credential>, id: VcId)
    requires cs != []
    ensures Present(cs, id) <==> Present(cs[..|cs| - 1], id) || cs[|cs| - 1].body.id == id
    ensures NewId(cs, |cs| - 1) <==> !Present(cs[..|cs| - 1], cs[|cs| - 1].body.id)
  {
    assert forall i :: 0 <= i < |cs| - 1 ==> cs[..|cs| - 1][i] == cs[i];
  }

  lemma {:induction false} ShownIds(cs: seq<Credential>, id: VcId)
    ensures HasId(Shown(cs), id) <==> Present(cs, id)
  {
    if cs != [] {
      ShownIds(cs[..|cs| - 1], id);
      PresentLonger(cs, id);
      HasIdLonger(Shown(cs[..|cs| - 1]), LinkTo(cs[|cs| - 1]), id);
    }
  }

  lemma HasIdLonger(chain: seq<Link>, link: Link, id: VcId)
    ensures HasId(chain + [link], id) <==> HasId(chain, id) || link.vcId == id
  {
    assert (chain + [link])[|chain|] == link;
    assert forall k :: 0 <= k < |chain| ==> (chain + [link])[k] == chain[k];
  }

  lemma LinkIs(c: Credential)
    ensures LinkTo(c) == ToLink(c)
  {
  }

  lemma AddOne(chain: seq<Link>, link: Link)
    ensures AddLinks(chain, [link]) == if HasId(chain, link.vcId) then chain else chain + [link]
  {
    assert [link][1..] == [];
  }

  lemma LinksOfAll(cs: seq<Credential>)
    requires cs != []
    ensures Links(cs) == Links(cs[..|cs| - 1]) + [LinkTo(cs[|cs| - 1])]
  {
    LinkIs(cs[|cs| - 1]);
  }

  lemma {:induction false} LinksShown(cs: seq<Credential>)
    ensures AddLinks([], Links(cs)) == Shown(cs)
    decreases |cs|
  {
    if cs == [] {
      assert Links(cs) == [];
    } else {
      var init, link := cs[..|cs| - 1], LinkTo(cs[|cs| - 1]);
      LinksShown(init);
      LinksOfAll(cs);
      AddLinksConcat([], Links(init), [link]);
      AddOne(Shown(init), link);
      ShownIds(init, link.vcId);
      PresentLonger(cs, link.vcId);
    }
  }

  lemma ScopesMean(vp: Presentation, opts: VerifyOptions, w: World, s: Scope)
    requires VpResult(vp, opts, w).Ok?
    ensures var r, b := VpResult(vp, opts, w).value, vp.body;
            && (s in r.privilegeScopes <==> HeldByCounting(s, b, opts, w))
            && (s in r.effectiveScopes <==> HeldByCounting(s, b, opts, w) && LetThrough(s, b, opts, w))
  {
    var cx := Context(vp.body, opts, w);
    AcceptanceMeans(vp, opts, w);
    ScopesAreFormula(vp, opts, w);
    HeldMeans(s, cx);
    LetThroughMeans(s, cx);
  }

  lemma ChainMeans(cx: Context)
    requires TallyAgents(NOTHING_YET, Agents(cx.vp), cx).Ok?
    ensures TallyAgents(NOTHING_YET, Agents(cx.vp), cx).value.chain
         == Shown(Lineages(cx.vp.entries, cx.vp, cx.opts, cx.w))
  {
    TallyChain(NOTHING_YET, Agents(cx.vp), cx);
    LineagesAre(cx.vp.entries, cx);
    LinksShown(Lineages(cx.vp.entries, cx.vp, cx.opts, cx.w));
  }

  lemma RestMeans(vp: Presentation, opts: VerifyOptions, w: World)
    requires VpResult(vp, opts, w).Ok?
    ensures var r, b := VpResult(vp, opts, w).value, vp.body;
            && r.agentDid == b.holder && r.vpId == b.id
            && (r.warn <==> SelfIssuedCounts(b, opts, w))
            && r.delegationChain == Shown(Lineages(b.entries, b, opts, w))
  {
    var cx := Context(vp.body, opts, w);
    WarnMeans(cx);
    ChainMeans(cx);
  }

  /** What an accepted presentation's verdict says, in plain terms. */
  lemma VerdictMeans(vp: Presentation, opts: VerifyOptions, w: World)
    requires VpResult(vp, opts, w).Ok?
    ensures var r, b := VpResult(vp, opts, w).value, vp.body;
            && r.agentDid == b.holder && r.vpId == b.id
            && (forall s :: s in r.privilegeScopes <==> HeldByCounting(s, b, opts, w))
            && (forall s :: s in r.effectiveScopes <==> HeldByCounting(s, b, opts, w) && LetThrough(s, b, opts, w))
            && (r.warn <==> SelfIssuedCounts(b, opts, w))
            && r.delegationChain == Shown(Lineages(b.entries, b, opts, w))
  {
    forall s
      ensures s in VpResult(vp, opts, w).value.privilegeScopes <==> HeldByCounting(s, vp.body, opts, w)
      ensures s in VpResult(vp, opts, w).value.effectiveScopes <==>
              HeldByCounting(s, vp.body, opts, w) && LetThrough(s, vp.body, opts, w)
    {
      ScopesMean(vp, opts, w, s);
    }
    RestMeans(vp, opts, w);
  }

  /** How a presentation fails before its credentials are looked at. */
  lemma EnvelopeErrors(vp: Presentation, opts: VerifyOptions, w: World)
    ensures var r, b := VpResult(vp, opts, w), vp.body;
            var expired := b.expiration.Some? && b.expiration.value <= w.now;
            var elsewhere := Given(opts.expectedTargetService) && opts.expectedTargetService != Some(b.targetService);
            && (expired ==> r == Err(VpExpired))
            && (!expired && elsewhere ==> r == Err(VpInvalidStructure))
            && (!expired && !elsewhere && !w.resolvable(b.holder) ==> r == Err(DidUnresolvable(b.holder)))
            && (!expired && !elsewhere && w.resolvable(b.holder) && !w.verifiesVp(b.holder, b, vp.proof) ==>
                  r == Err(VpSignatureInvalid))
            && (Presentable(vp, opts, w) && !RightKinds(b.entries) ==> r == Err(VpInvalidStructure))
            && (Presentable(vp, opts, w) && RightKinds(b.entries) && !Composed(b) ==>
                  Given(b.delegatedBy) && r == Err(ConsentGrantRequired(b.delegatedBy.value)))
  {
    FilterByKind(vp.body.entries);
    AnyOf(IsAgentType, vp.body.entries);
    AnyOf(IsGrantType, vp.body.entries);
    KindsAre();
  }

  /** As its issuer signed it, inside its window and unflagged. */
  predicate Intact(c: Credential, w: World) {
    c.proof.Some? && w.verifies(c.body.issuer, c.body, c.proof.value) && Unended(c, w.now) && Unflagged(c, w)
  }

  /** The scopes of an edited credential are worth nothing: every privilege is held by a
      presented credential about the holder whose whole lineage is intact. */
  lemma NothingForged(vp: Presentation, opts: VerifyOptions, w: World, s: Scope)
    requires VpResult(vp, opts, w).Ok? && s in VpResult(vp, opts, w).value.privilegeScopes
    ensures w.verifiesVp(vp.body.holder, vp.body, vp.proof)
    ensures exists e :: e in vp.body.entries && IsAgent(e) && e.body.subject.id == vp.body.holder && s in Held(e)
                        && forall c :: c in Lineage(e) ==> Intact(c, w)
  {
    AcceptanceMeans(vp, opts, w);
    VerdictMeans(vp, opts, w);
    var e :| e in vp.body.entries && IsAgent(e) && Counts(e, vp.body, opts, w) && s in Held(e);
    forall c | c in Lineage(e) ensures Intact(c, w) {
      assert Sturdy(c, opts, w);
    }
  }

  /** And where grants are shown, each effective scope is named by an intact one that the
      service issued. */
  lemma NoConsentForged(vp: Presentation, opts: VerifyOptions, w: World, s: Scope)
    requires VpResult(vp, opts, w).Ok? && s in VpResult(vp, opts, w).value.effectiveScopes
    requires exists g :: g in vp.body.entries && IsGrant(g)
    ensures exists g :: g in vp.body.entries && IsGrant(g) && Intact(g, w) && g.body.issuer == vp.body.targetService
                        && g.body.subject.claims.scopes.Some? && s in g.body.subject.claims.scopes.value
  {
    AcceptanceMeans(vp, opts, w);
    VerdictMeans(vp, opts, w);
    assert LetThrough(s, vp.body, opts, w);
    var g :| g in vp.body.entries && IsGrant(g) && Holds(g, opts, w) && LetsThrough(g, s, vp.body, opts, w);
    assert GrantInPlace(g, vp.body, opts, w);
  }
}
