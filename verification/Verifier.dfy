/** verifyVP and the checks under it. Each method follows the source's loops and
    is proved equal to the function that specifies it. */
module Verifier {
  import opened Common
  import opened Credentials
  import StatusList

  /** What a verification can see of the outside: the clock, which DIDs resolve,
      which proofs verify under a resolved document, and every status list that
      can be fetched and read, by URL. */
  datatype World = World(
    now: int,
    resolvable: Did -> bool,
    verifies: (Did, Body, Proof) -> bool,
    verifiesVp: (Did, VpBody, Proof) -> bool,
    lists: map<string, StatusList.Bits>)

  datatype VerifyOptions = VerifyOptions(expectedTargetService: Option<string>, allowSelfSigned: bool)

  datatype Link = Link(issuer: Did, subject: Did, vcId: VcId, scopes: seq<Scope>, depth: int)

  function ToLink(vc: Credential): Link {
    Link(vc.body.issuer, vc.body.subject.id, vc.body.id, ScopesOf(vc), DepthOf(vc))
  }

  /** The entry's list can be read and its bit is 0. */
  predicate EntryClear(lists: map<string, StatusList.Bits>, entry: StatusRef) {
    && entry.listUrl in lists
    && entry.index.Some?
    && StatusList.GetBit(lists[entry.listUrl], entry.index.value) == Some(false)
  }

  /** verifyRevocation: anything but a readable 0 counts as revoked. */
  predicate NotRevoked(vc: Credential, w: World) {
    vc.body.status.Some? ==> EntryClear(w.lists, vc.body.status.value)
  }

  function ValidityFault(vc: Credential, now: int): Option<Error> {
    if vc.body.validFrom.Some? && vc.body.validFrom.value > now then Some(VcNotYetValid)
    else if vc.body.validUntil.Some? && vc.body.validUntil.value <= now then Some(VcExpired)
    else None
  }

  predicate SelfSigned(vc: Credential) {
    vc.body.issuer == vc.body.subject.id
  }

  function SignatureFault(vc: Credential, w: World): Option<Error> {
    if !w.resolvable(vc.body.issuer) then Some(DidUnresolvable(vc.body.issuer))
    else if vc.proof.None? then Some(ProofMissing)
    else if !w.verifies(vc.body.issuer, vc.body, vc.proof.value) then Some(VcSignatureInvalid)
    else None
  }

  /** verifyCredential; the value says whether to warn about self-signing. */
  function VerifyCredential(vc: Credential, opts: VerifyOptions, w: World): Result<bool, Error> {
    var badSignature := SignatureFault(vc, w);
    var badWindow := ValidityFault(vc, w.now);
    if badSignature.Some? then Err(badSignature.value)
    else if badWindow.Some? then Err(badWindow.value)
    else if SelfSigned(vc) && !opts.allowSelfSigned then Err(SelfSignedVcNotAllowed)
    else if (!SelfSigned(vc) || vc.body.status.Some?) && !NotRevoked(vc, w) then Err(VcRevoked)
    else Ok(SelfSigned(vc))
  }

  // ---- Delegation chains ---------------------------------------------------

  function FirstMissing(parent: seq<Scope>, child: seq<Scope>): (r: Option<Scope>)
    ensures r.None? <==> forall s :: s in child ==> s in parent
    ensures r.Some? ==> r.value in child && r.value !in parent
  {
    if child == [] then None
    else if child[0] !in parent then Some(child[0])
    else
      assert child == [child[0]] + child[1..];
      FirstMissing(parent, child[1..])
  }

  /** assertSubset of the verifier: the first missing scope is reported only
      when it is truthy, so a missing empty scope ends the check quietly. */
  function EscalatedScope(parent: seq<Scope>, child: seq<Scope>): Option<Scope> {
    var denied := FirstMissing(parent, child);
    if Truthy(denied) then denied else None
  }

  /** The checks between one credential and the next. */
  function LinkFault(parent: Credential, child: Credential, index: int, maxDepth: int): Option<ChainFault> {
    if child.body.issuer != parent.body.subject.id then Some(IssuerMismatch)
    else if child.body.subject.delegatedFrom != Some(parent.body.subject.id) then Some(DelegatedFromMismatch)
    else if child.body.subject.parentVcId != Some(parent.body.id) then Some(ParentIdMismatch)
    else if child.body.subject.delegationDepth != Some(index) then Some(DepthNotSequential)
    else if child.body.subject.maxDelegationDepth != Some(maxDepth) then Some(MaxDepthChanged)
    else if DepthOf(child) > maxDepth then Some(DepthExceeded)
    else
      var denied := EscalatedScope(ScopesOf(parent), ScopesOf(child));
      if denied.Some? then Some(Escalation(denied.value)) else None
  }

  /** First failure of the signature, window, status and shape checks, root first. */
  function CredentialFault(chain: seq<Credential>, opts: VerifyOptions, w: World): Option<Error> {
    if chain == [] then None else
    match VerifyCredential(chain[0], opts, w)
    case Err(e) => Some(e)
    case Ok(_) =>
      if chain[0].body.subject.privilegeScopes.None? then Some(VpInvalidStructure)
      else CredentialFault(chain[1..], opts, w)
  }

  function FirstLinkFault(chain: seq<Credential>, index: nat, maxDepth: int): Option<ChainFault>
    requires 1 <= index <= |chain|
    decreases |chain| - index
  {
    if index == |chain| then None else
    var fault := LinkFault(chain[index - 1], chain[index], index, maxDepth);
    if fault.Some? then fault else FirstLinkFault(chain, index + 1, maxDepth)
  }

  function StructureFault(chain: seq<Credential>): Option<ChainFault>
    requires |chain| >= 1
  {
    if SelfSigned(chain[0]) then Some(SelfIssuedRoot)
    else if DepthOf(chain[0]) != 0 then Some(RootDepth)
    else FirstLinkFault(chain, 1, MaxDepthOf(chain[0]))
  }

  function Links(chain: seq<Credential>): (r: seq<Link>)
    ensures |r| == |chain| && forall i :: 0 <= i < |chain| ==> r[i] == ToLink(chain[i])
  {
    seq(|chain|, i requires 0 <= i < |chain| => ToLink(chain[i]))
  }

  function ChainResult(leaf: Credential, opts: VerifyOptions, w: World): Result<seq<Link>, Error> {
    if !Delegated(leaf) then Ok([ToLink(leaf)]) else
    var chain := ChainOf(leaf);
    if |chain| < 2 then Err(DelegationChainInvalid(MissingParents)) else
    var bad := CredentialFault(chain, opts, w);
    if bad.Some? then Err(bad.value) else
    var fault := StructureFault(chain);
    if fault.Some? then Err(DelegationChainInvalid(fault.value)) else Ok(Links(chain))
  }

  method VerifyDelegationChain(leaf: Credential, opts: VerifyOptions, w: World)
    returns (r: Result<seq<Link>, Error>)
    ensures r == ChainResult(leaf, opts, w)
  {
    if !Delegated(leaf) {
      return Ok([ToLink(leaf)]);
    }
    var chain := ChainOf(leaf);
    if |chain| < 2 {
      return Err(DelegationChainInvalid(MissingParents));
    }
    var i := 0;
    while i < |chain|
      invariant 0 <= i <= |chain|
      invariant CredentialFault(chain, opts, w) == CredentialFault(chain[i..], opts, w)
    {
      assert chain[i..][1..] == chain[i + 1..];
      var checked := VerifyCredential(chain[i], opts, w);
      if checked.Err? {
        return Err(checked.error);
      }
      if chain[i].body.subject.privilegeScopes.None? {
        return Err(VpInvalidStructure);
      }
      i := i + 1;
    }
    var root := chain[0];
    if root.body.issuer == root.body.subject.id {
      return Err(DelegationChainInvalid(SelfIssuedRoot));
    }
    if DepthOf(root) != 0 {
      return Err(DelegationChainInvalid(RootDepth));
    }
    var maxDepth := MaxDepthOf(root);
    var index := 1;
    while index < |chain|
      invariant 1 <= index <= |chain|
      invariant StructureFault(chain) == FirstLinkFault(chain, index, maxDepth)
    {
      var fault := LinkFault(chain[index - 1], chain[index], index, maxDepth);
      if fault.Some? {
        return Err(DelegationChainInvalid(fault.value));
      }
      index := index + 1;
    }
    return Ok(Links(chain));
  }

  // ---- Presentations -------------------------------------------------------

  /** One verification: what is presented, how, and in which world. */
  datatype Context = Context(vp: VpBody, opts: VerifyOptions, w: World)

  datatype Outcome = Stands(links: seq<Link>, warn: bool) | Dropped(error: Error) | Fatal(error: Error)

  /** Revoked and expired credentials are dropped, anything else is fatal. */
  function Sunk(e: Error): Outcome {
    if e.VcRevoked? || e.VcExpired? then Dropped(e) else Fatal(e)
  }

  function AgentOutcome(vc: Credential, cx: Context): Outcome {
    if vc.proof.None? then Fatal(VpInvalidStructure)
    else if vc.body.subject.privilegeScopes.None? then Fatal(VpInvalidStructure)
    else if vc.body.subject.id != cx.vp.holder then Fatal(VpInvalidStructure)
    else if Truthy(vc.body.targetService) && vc.body.targetService.value != cx.vp.targetService
    then Fatal(VpInvalidStructure)
    else
      var own := if Delegated(vc) then Ok(false) else VerifyCredential(vc, cx.opts, cx.w);
      if own.Err? then Sunk(own.error) else
      match ChainResult(vc, cx.opts, cx.w)
      case Err(e) => Sunk(e)
      case Ok(links) => Stands(links, own.value)
  }

  /** The scopes of a standing credential and the DIDs on its chain. */
  datatype Authority = Authority(scopes: seq<Scope>, subjects: seq<Did>)

  function Subjects(links: seq<Link>): (r: seq<Did>)
    ensures |r| == |links| && forall i :: 0 <= i < |links| ==> r[i] == links[i].subject
  {
    seq(|links|, i requires 0 <= i < |links| => links[i].subject)
  }

  predicate HasId(chain: seq<Link>, id: VcId) {
    exists i :: 0 <= i < |chain| && chain[i].vcId == id
  }

  function AddLinks(chain: seq<Link>, links: seq<Link>): seq<Link>
    decreases links
  {
    if links == [] then chain
    else AddLinks(if HasId(chain, links[0].vcId) then chain else chain + [links[0]], links[1..])
  }

  /** What the loop over the agent credentials has gathered. */
  datatype Tally = Tally(
    privilege: seq<Scope>,
    authorities: seq<Authority>,
    chain: seq<Link>,
    warn: bool,
    valid: nat,
    dropped: Option<Error>)

  const NOTHING_YET := Tally([], [], [], false, 0, None)

  function AddAgent(t: Tally, vc: Credential, links: seq<Link>, warn: bool): Tally {
    Tally(
      AddAll(t.privilege, ScopesOf(vc)),
      t.authorities + [Authority(ScopesOf(vc), Subjects(links))],
      AddLinks(t.chain, links),
      t.warn || warn,
      t.valid + 1,
      t.dropped)
  }

  function TallyAgents(t: Tally, entries: seq<Credential>, cx: Context): Result<Tally, Error>
    decreases entries
  {
    if entries == [] then Ok(t) else
    match AgentOutcome(entries[0], cx)
    case Fatal(e) => Err(e)
    case Dropped(e) => TallyAgents(t.(dropped := Some(e)), entries[1..], cx)
    case Stands(links, warn) => TallyAgents(AddAgent(t, entries[0], links, warn), entries[1..], cx)
  }

  /** What a standing grant lets through: its scopes met with the holder's whole
      authority, or only with what was delegated down from the DID it names. */
  function Covered(grant: Credential, cx: Context, t: Tally): set<Scope> {
    if ConsentOf(grant).None? then {}
    else
      var scopes := ConsentOf(grant).value.scopes;
      if grant.body.subject.id == cx.vp.holder
      then set s | s in scopes && s in t.privilege
      else set s | s in scopes && DelegatedThrough(s, grant.body.subject.id, t.authorities)
  }

  predicate DelegatedThrough(s: Scope, did: Did, authorities: seq<Authority>) {
    exists i :: 0 <= i < |authorities| && did in authorities[i].subjects && s in authorities[i].scopes
  }

  function GrantOutcome(grant: Credential, cx: Context, chainDids: seq<Did>): Outcome {
    if ConsentOf(grant).None? || grant.proof.None? then Fatal(ConsentGrantInvalid)
    else
      var consent := ConsentOf(grant).value;
      var direct := grant.body.subject.id == cx.vp.holder;
      if !(direct || grant.body.subject.id in chainDids) || Some(consent.userDid) != cx.vp.delegatedBy
      then Fatal(ConsentGrantSubjectMismatch)
      else if grant.body.issuer != cx.vp.targetService
      then Fatal(ConsentGrantWrongService(grant.body.issuer, cx.vp.targetService))
      else if !direct && consent.allowDelegation == Some(false) then Fatal(ConsentGrantNotDelegable)
      else
        match VerifyCredential(grant, cx.opts, cx.w)
        case Err(e) => Sunk(e)
        case Ok(_) => Stands([], false)
  }

  datatype GrantTally = GrantTally(allowed: set<Scope>, valid: nat, dropped: Option<Error>)

  function TallyGrants(g: GrantTally, grants: seq<Credential>, cx: Context, t: Tally): Result<GrantTally, Error>
    decreases grants
  {
    if grants == [] then Ok(g) else
    match GrantOutcome(grants[0], cx, Subjects(t.chain))
    case Fatal(e) => Err(e)
    case Dropped(e) => TallyGrants(g.(dropped := Some(e)), grants[1..], cx, t)
    case Stands(_, _) =>
      TallyGrants(GrantTally(g.allowed + Covered(grants[0], cx, t), g.valid + 1, g.dropped), grants[1..], cx, t)
  }

  datatype Verdict = Verdict(
    agentDid: Did,
    privilegeScopes: seq<Scope>,
    effectiveScopes: seq<Scope>,
    vpId: string,
    delegationChain: seq<Link>,
    warn: bool)

  /** The checks made before any credential is looked at. */
  function EnvelopeFault(vp: Presentation, opts: VerifyOptions, w: World): Option<Error> {
    var b := vp.body;
    if b.expiration.Some? && b.expiration.value <= w.now then Some(VpExpired)
    else if Truthy(opts.expectedTargetService) && Some(b.targetService) != opts.expectedTargetService
    then Some(VpInvalidStructure)
    else if !w.resolvable(b.holder) then Some(DidUnresolvable(b.holder))
    else if !w.verifiesVp(b.holder, b, vp.proof) then Some(VpSignatureInvalid)
    else if |b.entries| < 1 then Some(VpInvalidStructure)
    else if !ComposedRight(b.entries) then Some(VpInvalidStructure)
    else if Truthy(b.delegatedBy) && |Filter(IsGrantType, b.entries)| == 0
    then Some(ConsentGrantRequired(b.delegatedBy.value))
    else None
  }

  function Effective(privilege: seq<Scope>, allowed: set<Scope>): (r: seq<Scope>)
    ensures forall s :: s in r <==> s in privilege && s in allowed
  {
    Filter(s => s in allowed, privilege)
  }

  function Conclude(cx: Context, t: Tally, effective: seq<Scope>): Verdict {
    Verdict(cx.vp.holder, t.privilege, effective, cx.vp.id, t.chain, t.warn)
  }

  function VpResult(vp: Presentation, opts: VerifyOptions, w: World): Result<Verdict, Error> {
    var cx := Context(vp.body, opts, w);
    var grants := Filter(IsGrantType, vp.body.entries);
    var fault := EnvelopeFault(vp, opts, w);
    if fault.Some? then Err(fault.value) else
    match TallyAgents(NOTHING_YET, Filter(IsAgentType, vp.body.entries), cx)
    case Err(e) => Err(e)
    case Ok(t) =>
      if t.valid == 0 then Err(t.dropped.GetOr(VcRevoked))
      else if grants == [] then Ok(Conclude(cx, t, t.privilege))
      else
        match TallyGrants(GrantTally({}, 0, None), grants, cx, t)
        case Err(e) => Err(e)
        case Ok(g) =>
          if g.valid == 0 then Err(g.dropped.GetOr(VcRevoked))
          else Ok(Conclude(cx, t, Effective(t.privilege, g.allowed)))
  }

  method CollectScopes(known: seq<Scope>, more: seq<Scope>) returns (r: seq<Scope>)
    ensures r == AddAll(known, more)
  {
    r := known;
    var i := 0;
    while i < |more|
      invariant 0 <= i <= |more|
      invariant AddAll(known, more) == AddAll(r, more[i..])
    {
      assert more[i..][1..] == more[i + 1..];
      if more[i] !in r {
        r := r + [more[i]];
      }
      i := i + 1;
    }
  }

  /** The inner loop that appends the links of a chain, each VC once. */
  method CollectLinks(chain: seq<Link>, links: seq<Link>) returns (r: seq<Link>)
    ensures r == AddLinks(chain, links)
  {
    r := chain;
    var i := 0;
    while i < |links|
      invariant 0 <= i <= |links|
      invariant AddLinks(chain, links) == AddLinks(r, links[i..])
    {
      assert links[i..][1..] == links[i + 1..];
      if !HasId(r, links[i].vcId) {
        r := r + [links[i]];
      }
      i := i + 1;
    }
  }

  /** One agent credential, with the try/catch that tells dropped from fatal. */
  method VerifyAgent(vc: Credential, cx: Context) returns (r: Outcome)
    ensures r == AgentOutcome(vc, cx)
  {
    if vc.proof.None? || vc.body.subject.privilegeScopes.None? || vc.body.subject.id != cx.vp.holder {
      return Fatal(VpInvalidStructure);
    }
    if Truthy(vc.body.targetService) && vc.body.targetService.value != cx.vp.targetService {
      return Fatal(VpInvalidStructure);
    }
    var warn := false;
    if !Delegated(vc) {
      var own := VerifyCredential(vc, cx.opts, cx.w);
      if own.Err? {
        return Sunk(own.error);
      }
      warn := own.value;
    }
    var chain := VerifyDelegationChain(vc, cx.opts, cx.w);
    if chain.Err? {
      return Sunk(chain.error);
    }
    return Stands(chain.value, warn);
  }

  /** What the loop does with a credential that stands. */
  method TakeIn(t: Tally, vc: Credential, links: seq<Link>, warn: bool) returns (r: Tally)
    ensures r == AddAgent(t, vc, links, warn)
  {
    var privilege := CollectScopes(t.privilege, ScopesOf(vc));
    var chain := CollectLinks(t.chain, links);
    var authority := Authority(ScopesOf(vc), Subjects(links));
    r := Tally(privilege, t.authorities + [authority], chain, t.warn || warn, t.valid + 1, t.dropped);
  }

  /** The loop over the agent credentials. */
  method VerifyAgents(entries: seq<Credential>, cx: Context) returns (r: Result<Tally, Error>)
    ensures r == TallyAgents(NOTHING_YET, entries, cx)
  {
    var t := NOTHING_YET;
    var i := 0;
    while i < |entries|
      invariant 0 <= i <= |entries|
      invariant TallyAgents(NOTHING_YET, entries, cx) == TallyAgents(t, entries[i..], cx)
    {
      assert entries[i..][1..] == entries[i + 1..];
      var outcome := VerifyAgent(entries[i], cx);
      match outcome {
        case Fatal(e) => return Err(e);
        case Dropped(e) => t := t.(dropped := Some(e));
        case Stands(links, warn) =>
          t := TakeIn(t, entries[i], links, warn);
      }
      i := i + 1;
    }
    return Ok(t);
  }

  /** The loop over the consent grants. */
  method VerifyGrants(grants: seq<Credential>, cx: Context, t: Tally) returns (r: Result<GrantTally, Error>)
    ensures r == TallyGrants(GrantTally({}, 0, None), grants, cx, t)
  {
    var chainDids := Subjects(t.chain);
    var allowed, valid, dropped: Option<Error> := {}, 0, None;
    var i := 0;
    while i < |grants|
      invariant 0 <= i <= |grants|
      invariant TallyGrants(GrantTally({}, 0, None), grants, cx, t)
             == TallyGrants(GrantTally(allowed, valid, dropped), grants[i..], cx, t)
    {
      assert grants[i..][1..] == grants[i + 1..];
      var outcome := GrantOutcome(grants[i], cx, chainDids);
      match outcome {
        case Fatal(e) => return Err(e);
        case Dropped(e) => dropped := Some(e);
        case Stands(_, _) =>
          valid := valid + 1;
          allowed := allowed + Covered(grants[i], cx, t);
      }
      i := i + 1;
    }
    return Ok(GrantTally(allowed, valid, dropped));
  }

  method VerifyVP(vp: Presentation, opts: VerifyOptions, w: World) returns (r: Result<Verdict, Error>)
    ensures r == VpResult(vp, opts, w)
  {
    var cx := Context(vp.body, opts, w);
    var fault := EnvelopeFault(vp, opts, w);
    if fault.Some? {
      return Err(fault.value);
    }
    var grants := Filter(IsGrantType, vp.body.entries);
    var agents := VerifyAgents(Filter(IsAgentType, vp.body.entries), cx);
    if agents.Err? {
      return Err(agents.error);
    }
    var t := agents.value;
    if t.valid == 0 {
      return Err(t.dropped.GetOr(VcRevoked));
    }
    var effective := t.privilege;
    if |grants| > 0 {
      var consents := VerifyGrants(grants, cx, t);
      if consents.Err? {
        return Err(consents.error);
      }
      if consents.value.valid == 0 {
        return Err(consents.value.dropped.GetOr(VcRevoked));
      }
      effective := Effective(t.privilege, consents.value.allowed);
    }
    return Ok(Conclude(cx, t, effective));
  }
}
