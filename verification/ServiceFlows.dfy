/** What ServiceProviderService does: a service's consent grant to an agent. */
module ServiceFlows {
  import opened Common
  import opened Credentials
  import opened VcStore
  import opened VcLifecycle
  import opened AgentFlows
  import Scopes
  import VcService

  const ACCEPT_TERMS := "accept-terms"
  const STANDING_MS := 315360000000
  const SESSION_MS := 86400000

  datatype Durability = Standing | Session

  datatype GrantInput = GrantInput(
    serviceDid: Did,
    agentDid: Did,
    userDid: string,
    scopes: seq<Scope>,
    durability: Durability,
    revokeExisting: bool,
    allowDelegation: Option<bool>)

  /** The agent's own credentials: active and not delegated to it. */
  function OwnVCs(st: Store, did: Did, now: int): seq<Credential> {
    Filter(vc => !Delegated(vc), ActiveAgentVCs(st, did, now))
  }

  function UnionOfScopes(known: seq<Scope>, vcs: seq<Credential>): (r: seq<Scope>)
    ensures forall s :: s in r <==> s in known || exists vc :: vc in vcs && s in ScopesOf(vc)
    decreases vcs
  {
    if vcs == [] then known else
    assert vcs == [vcs[0]] + vcs[1..];
    UnionOfScopes(AddAll(known, ScopesOf(vcs[0])), vcs[1..])
  }

  function AgentScopes(dir: Directory, st: Store, did: Did, now: int): Result<seq<Scope>, Error> {
    if !(DID_SCHEME <= did) then Err(ValidationError)
    else if did !in dir.keys || !dir.keys[did].owner.AgentKey? then Err(DelegateeNotAnAgent(did))
    else if OwnVCs(st, did, now) == [] then Err(AgentActiveCredentialNotFound(did))
    else Ok(UnionOfScopes([], OwnVCs(st, did, now)))
  }

  /** The checks on the request itself and on the service that signs. */
  function GrantFault(dir: Directory, input: GrantInput): Option<Error> {
    if input.scopes == [] then Some(ValidationError)
    else if Scopes.ScopeProblemOf(input.scopes).Some? then Some(ValidationError)
    else if !(DID_SCHEME <= input.userDid) || !(DID_SCHEME <= input.agentDid) then Some(ValidationError)
    else if input.agentDid == input.serviceDid then Some(ValidationError)
    else if input.serviceDid !in dir.services then Some(ServiceNotFound(input.serviceDid))
    else if dir.services[input.serviceDid].Some? then Some(ServiceRevoked(input.serviceDid))
    else if input.serviceDid !in dir.keys || !dir.keys[input.serviceDid].owner.ServiceKey?
    then Some(ServiceKeyNotFound(input.serviceDid))
    else None
  }

  /** The scopes a grant may carry, or why it may not. */
  function GrantableScopes(held: seq<Scope>, asked: seq<Scope>): Result<seq<Scope>, Error> {
    var scopes := Scopes.NormalizeScopes(asked);
    if Filter(s => s != ACCEPT_TERMS && s !in held, scopes) != [] then Err(ConsentScopesNotHeld)
    else if Filter(s => s != ACCEPT_TERMS, scopes) == [] then Err(ConsentNoGrantableScopes)
    else Ok(scopes)
  }

  /** issueGrant. */
  function GrantCredential(cfg: Platform, input: GrantInput, scopes: seq<Scope>, wallet: Wallet, index: nat, now: int,
                           id: VcId): Credential
  {
    var claims := Claims(Some(input.userDid), Some(scopes), input.allowDelegation, true);
    var subject := Subject(input.agentDid, None, None, None, None, None, None, None, claims);
    var lifetime := if input.durability.Standing? then STANDING_MS else SESSION_MS;
    var body := Body(id, [BASE_TYPE, GRANT_TYPE], wallet.did, Some(now), Some(now + lifetime),
                     Some(EntryOnDefaultList(cfg, index)), subject, [], None, false);
    Credential(body, Some(wallet.sign(body)))
  }

  datatype Granted = Granted(grant: Credential, reconciled: Reconciled)

  /** Once the scopes are settled: claim an entry, sign, store. */
  function GrantFrom(cfg: Platform, dir: Directory, s: Sys, input: GrantInput, scopes: seq<Scope>, agentKnown: bool,
                     now: int, id: VcId): Outcome<Granted>
    requires input.serviceDid in dir.keys
  {
    var entry := ClaimStatusListEntry(cfg, s, now);
    if entry.result.Err? then Outcome(entry.sys, Err(entry.result.error))
    else
      var grant := GrantCredential(cfg, input, scopes, WalletOf(dir, input.serviceDid), entry.result.value, now, id);
      var r := RegisterIssuedGrant(cfg, entry.sys, grant, agentKnown, input.revokeExisting, now);
      Outcome(r.sys, if r.result.Err? then Err(r.result.error) else Ok(Granted(grant, r.result.value)))
  }

  /** The scopes the new grant will carry, or why there will be none. */
  function GrantScopes(dir: Directory, st: Store, input: GrantInput, now: int): Result<seq<Scope>, Error> {
    var fault := GrantFault(dir, input);
    if fault.Some? then Err(fault.value)
    else
      match AgentScopes(dir, st, input.agentDid, now)
      case Err(e) => Err(e)
      case Ok(held) => GrantableScopes(held, input.scopes)
  }

  function ConsentOutcome(cfg: Platform, dir: Directory, s: Sys, input: GrantInput, agentKnown: bool, now: int,
                          id: VcId)
    : Outcome<Granted>
  {
    match GrantScopes(dir, s.store, input, now)
    case Err(e) => Outcome(s, Err(e))
    case Ok(scopes) => GrantFrom(cfg, dir, s, input, scopes, agentKnown, now, id)
  }

  class ServiceProviderService {
    const vcs: VcService.VcService

    constructor (vcs: VcService.VcService)
      ensures this.vcs == vcs
    {
      this.vcs := vcs;
    }

    /** The union of the scopes the agent holds as itself. */
    method GetAgentScopes(dir: Directory, did: Did, now: int) returns (r: Result<seq<Scope>, Error>)
      ensures r == AgentScopes(dir, vcs.driver.State(), did, now)
    {
      if !(DID_SCHEME <= did) {
        return Err(ValidationError);
      }
      if did !in dir.keys || !dir.keys[did].owner.AgentKey? {
        return Err(DelegateeNotAnAgent(did));
      }
      var own := OwnVCs(vcs.driver.State(), did, now);
      if |own| == 0 {
        return Err(AgentActiveCredentialNotFound(did));
      }
      var scopes := [];
      var i := 0;
      while i < |own|
        invariant 0 <= i <= |own|
        invariant UnionOfScopes([], own) == UnionOfScopes(scopes, own[i..])
      {
        assert own[i..][1..] == own[i + 1..];
        scopes := AddAll(scopes, ScopesOf(own[i]));
        i := i + 1;
      }
      return Ok(scopes);
    }

    method IssueDelegationGrant(dir: Directory, input: GrantInput, agentKnown: bool, now: int, id: VcId)
      returns (r: Result<Granted, Error>)
      modifies vcs.Footprint()
      ensures Outcome(vcs.State(), r) == ConsentOutcome(vcs.Cfg(), dir, old(vcs.State()), input, agentKnown, now, id)
    {
      var fault := GrantFault(dir, input);
      if fault.Some? {
        return Err(fault.value);
      }
      var held := GetAgentScopes(dir, input.agentDid, now);
      if held.Err? {
        return Err(held.error);
      }
      var scopes := GrantableScopes(held.value, input.scopes);
      if scopes.Err? {
        return Err(scopes.error);
      }
      var entry := vcs.ClaimStatusListEntry(now);
      if entry.Err? {
        return Err(entry.error);
      }
      var wallet := WalletOf(dir, input.serviceDid);
      var grant := GrantCredential(vcs.Cfg(), input, scopes.value, wallet, entry.value, now, id);
      var stored := vcs.RegisterIssuedGrant(grant, agentKnown, input.revokeExisting, now);
      return if stored.Err? then Err(stored.error) else Ok(Granted(grant, stored.value));
    }
  }
}
