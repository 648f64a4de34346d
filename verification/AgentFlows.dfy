/** What AgentService does with credentials: signing a presentation from the
    stored ones, and delegating a slice of an agent's authority. */
module AgentFlows {
  import opened Common
  import opened Credentials
  import opened Delegation
  import opened VcStore
  import opened VcLifecycle
  import VcService

  datatype KeyOwner = AgentKey | ServiceKey

  /** A key the platform holds, as its signing functions. */
  datatype KeyRecord = KeyRecord(owner: KeyOwner, sign: Body -> Proof, signVp: VpBody -> Proof)

  /** The did_keys and services tables; a service maps to its revocation time. */
  datatype Directory = Directory(keys: map<Did, KeyRecord>, services: map<Did, Option<int>>)

  function WalletOf(dir: Directory, did: Did): Wallet
    requires did in dir.keys
  {
    Wallet(did, dir.keys[did].sign, dir.keys[did].signVp)
  }

  const DID_SCHEME := "did:"
  const VP_LIFETIME := 300000

  // ---- Queries -------------------------------------------------------------

  function ActiveAgentVCs(st: Store, did: Did, now: int): seq<Credential> {
    CredentialsAt(st, ActiveBySubject(st, did, AGENT_TYPE, now))
  }

  function ListActiveGrants(st: Store, agent: Did, service: Did, user: string, now: int): seq<Credential> {
    CredentialsAt(st, ActiveByIdentity(st, Identity(Some(GRANT_TYPE), Some(service), agent, Some(user)), now))
  }

  function ActiveByIdForSubject(st: Store, id: VcId, did: Did, vcType: string, now: int): Option<Credential> {
    if id !in st.vcs || st.vcs[id].subjectDid != did || !IsActive(st.vcs[id], now) then None
    else if vcType !in st.vcs[id].vc.body.types then None
    else Some(st.vcs[id].vc)
  }

  // ---- findDelegatorGrants -------------------------------------------------

  /** The DIDs of the embedded ancestors, nearest first. */
  function ChainDids(chain: seq<Credential>): (dids: seq<Did>)
    ensures forall did :: did in dids <==> exists c :: c in chain && c.body.subject.id == did
  {
    if chain == [] then [] else
    assert chain == [chain[0]] + chain[1..];
    ChainDids(chain[1..]) + [chain[0].body.subject.id]
  }

  function AllChainDids(vcs: seq<Credential>): (dids: seq<Did>)
    ensures forall did :: did in dids <==> exists vc :: vc in vcs && did in ChainDids(vc.body.chain)
  {
    if vcs == [] then [] else
    assert vcs == [vcs[0]] + vcs[1..];
    ChainDids(vcs[0].body.chain) + AllChainDids(vcs[1..])
  }

  predicate PassesOn(grant: Credential) {
    grant.body.subject.claims.allowDelegation != Some(false)
  }

  function OpenGrants(st: Store, did: Did, service: Did, user: string, now: int): seq<Credential> {
    Filter(PassesOn, ListActiveGrants(st, did, service, user, now))
  }

  datatype Holder = Holder(did: Did, grants: seq<Credential>)

  /** The Map from each DID to its open grants, in the order of the DIDs. */
  function Holders(known: seq<Holder>, st: Store, dids: seq<Did>, service: Did, user: string, now: int): seq<Holder>
    decreases dids
  {
    if dids == [] then known else
    var found := OpenGrants(st, dids[0], service, user, now);
    Holders(if found == [] then known else known + [Holder(dids[0], found)], st, dids[1..], service, user, now)
  }

  predicate ReachesHolder(vc: Credential, holders: seq<Holder>) {
    exists i :: 0 <= i < |holders| && holders[i].did in ChainDids(vc.body.chain)
  }

  function IndexOfId(grants: seq<Credential>, id: VcId): (i: nat)
    ensures i <= |grants|
    ensures i < |grants| ==> grants[i].body.id == id
    ensures i == |grants| ==> forall k :: 0 <= k < |grants| ==> grants[k].body.id != id
  {
    if grants == [] || grants[0].body.id == id then 0 else 1 + IndexOfId(grants[1..], id)
  }

  /** A JavaScript Map keyed by grant id: a known id keeps its place. */
  function MergeGrants(known: seq<Credential>, more: seq<Credential>): seq<Credential>
    decreases more
  {
    if more == [] then known else
    var i := IndexOfId(known, more[0].body.id);
    MergeGrants(if i < |known| then known[i := more[0]] else known + [more[0]], more[1..])
  }

  function MergeHolders(known: seq<Credential>, holders: seq<Holder>): seq<Credential>
    decreases holders
  {
    if holders == [] then known else MergeHolders(MergeGrants(known, holders[0].grants), holders[1..])
  }

  datatype Inherited = Inherited(agentCredentials: seq<Credential>, grants: seq<Credential>)

  function DelegatorGrants(st: Store, agentVCs: seq<Credential>, service: Did, user: string,
                           now: int): Option<Inherited> {
    var holders := Holders([], st, AddAll([], AllChainDids(agentVCs)), service, user, now);
    if holders == [] then None
    else Some(Inherited(Filter(vc => ReachesHolder(vc, holders), agentVCs), MergeHolders([], holders)))
  }

  method CollectHolders(st: Store, dids: seq<Did>, service: Did, user: string, now: int) returns (holders: seq<Holder>)
    ensures holders == Holders([], st, dids, service, user, now)
  {
    holders := [];
    var i := 0;
    while i < |dids|
      invariant 0 <= i <= |dids|
      invariant Holders([], st, dids, service, user, now) == Holders(holders, st, dids[i..], service, user, now)
    {
      assert dids[i..][1..] == dids[i + 1..];
      var found := OpenGrants(st, dids[i], service, user, now);
      if |found| > 0 {
        holders := holders + [Holder(dids[i], found)];
      }
      i := i + 1;
    }
  }

  method CollectGrants(holders: seq<Holder>) returns (grants: seq<Credential>)
    ensures grants == MergeHolders([], holders)
  {
    grants := [];
    var i := 0;
    while i < |holders|
      invariant 0 <= i <= |holders|
      invariant MergeHolders([], holders) == MergeHolders(grants, holders[i..])
    {
      assert holders[i..][1..] == holders[i + 1..];
      grants := MergeGrants(grants, holders[i].grants);
      i := i + 1;
    }
  }

  method FindDelegatorGrants(st: Store, agentVCs: seq<Credential>, service: Did, user: string, now: int)
    returns (r: Option<Inherited>)
    ensures r == DelegatorGrants(st, agentVCs, service, user, now)
  {
    var holders := CollectHolders(st, AddAll([], AllChainDids(agentVCs)), service, user, now);
    if |holders| == 0 {
      return None;
    }
    var grants := CollectGrants(holders);
    return Some(Inherited(Filter(vc => ReachesHolder(vc, holders), agentVCs), grants));
  }

  // ---- signVP --------------------------------------------------------------

  /** VPBuilder: the composition check of its constructor, then sign. */
  function BuildVp(credentials: seq<Credential>, wallet: Wallet, user: Option<string>, target: string, now: int,
                   id: string): Result<Presentation, Error>
  {
    if |credentials| < 1 || !ComposedRight(credentials) then Err(VpInvalidStructure)
    else
      var body := VpBody(id, wallet.did, credentials, Some(now + VP_LIFETIME), user, target);
      Ok(Presentation(body, wallet.signVp(body)))
  }

  /** The credentials and grants a presentation of `did` carries. */
  function Chosen(st: Store, did: Did, target: string, user: Option<string>, now: int): Result<Inherited, Error> {
    var agentVCs := ActiveAgentVCs(st, did, now);
    if agentVCs == [] then Err(AgentActiveCredentialNotFound(did))
    else if !Truthy(user) then Ok(Inherited(agentVCs, []))
    else
      var own := ListActiveGrants(st, did, target, user.value, now);
      var inherited := DelegatorGrants(st, agentVCs, target, user.value, now);
      if own != [] then Ok(Inherited(agentVCs, own))
      else if inherited.Some? && inherited.value.grants != [] then Ok(inherited.value)
      else Err(ConsentGrantNotFound)
  }

  function SignVp(dir: Directory, st: Store, did: Did, target: string, user: Option<string>, now: int, id: string)
    : Result<Presentation, Error>
  {
    if !(DID_SCHEME <= target) then Err(ValidationError)
    else if did !in dir.keys then Err(AgentKeyNotFound(did))
    else
      match Chosen(st, did, target, user, now)
      case Err(e) => Err(e)
      case Ok(c) =>
        BuildVp(c.agentCredentials + c.grants, WalletOf(dir, did), Kept(user), target, now, id)
  }

  // ---- delegateAuthority ---------------------------------------------------

  datatype DelegateInput = DelegateInput(
    did: Did,
    to: Did,
    scopes: seq<Scope>,
    expiresIn: int,
    vcId: Option<VcId>,
    revokeExisting: bool)

  datatype DelegationMade = DelegationMade(vc: Credential, reconciled: Reconciled)

  function DelegationSource(st: Store, input: DelegateInput, now: int): Result<Option<Credential>, Error> {
    if Truthy(input.vcId) then Ok(ActiveByIdForSubject(st, input.vcId.value, input.did, AGENT_TYPE, now))
    else ResolveDelegationSource(ActiveAgentVCs(st, input.did, now), input.scopes)
  }

  /** The delegatee is an agent onboarded here that is still active. */
  predicate DelegateeActive(dir: Directory, st: Store, to: Did, now: int) {
    to in dir.keys && dir.keys[to].owner.AgentKey? && ActiveAgentVCs(st, to, now) != []
  }

  /** Once the source is known: claim an entry, build, store. */
  function DelegateFrom(cfg: Platform, dir: Directory, s: Sys, input: DelegateInput, from: Credential, now: int,
                        id: VcId)
    : Outcome<DelegationMade>
    requires input.did in dir.keys
  {
    var entry := ClaimStatusListEntry(cfg, s, now);
    if entry.result.Err? then Outcome(entry.sys, Err(entry.result.error))
    else
      var status := Some(EntryOnDefaultList(cfg, entry.result.value));
      var o := DelegateOptions(input.to, input.scopes, input.expiresIn, from, status);
      var built := BuildDelegationVC(o, WalletOf(dir, input.did), now, id);
      if built.Err? then Outcome(entry.sys, Err(built.error))
      else
        var r := RegisterSignedVC(cfg, entry.sys, built.value, input.revokeExisting, now);
        Outcome(r.sys, if r.result.Err? then Err(r.result.error) else Ok(DelegationMade(built.value, r.result.value)))
  }

  function DelegateOutcome(cfg: Platform, dir: Directory, s: Sys, input: DelegateInput, now: int, id: VcId)
    : Outcome<DelegationMade>
  {
    if input.did !in dir.keys then Outcome(s, Err(AgentKeyNotFound(input.did)))
    else
      match DelegationSource(s.store, input, now)
      case Err(e) => Outcome(s, Err(e))
      case Ok(None) => Outcome(s, Err(AgentActiveCredentialNotFound(input.did)))
      case Ok(Some(from)) =>
        if !DelegateeActive(dir, s.store, input.to, now) then Outcome(s, Err(DelegateeNotAnAgent(input.to)))
        else DelegateFrom(cfg, dir, s, input, from, now, id)
  }

  class AgentService {
    const vcs: VcService.VcService

    constructor (vcs: VcService.VcService)
      ensures this.vcs == vcs
    {
      this.vcs := vcs;
    }

    method SignVP(dir: Directory, did: Did, target: string, user: Option<string>, now: int, id: string)
      returns (r: Result<Presentation, Error>)
      ensures r == SignVp(dir, vcs.driver.State(), did, target, user, now, id)
    {
      if !(DID_SCHEME <= target) {
        return Err(ValidationError);
      }
      if did !in dir.keys {
        return Err(AgentKeyNotFound(did));
      }
      var st := vcs.driver.State();
      var agentVCs := ActiveAgentVCs(st, did, now);
      if |agentVCs| == 0 {
        return Err(AgentActiveCredentialNotFound(did));
      }
      var credentials, grants := agentVCs, [];
      if Truthy(user) {
        grants := ListActiveGrants(st, did, target, user.value, now);
        if |grants| == 0 {
          var inherited := FindDelegatorGrants(st, agentVCs, target, user.value, now);
          if inherited.Some? {
            credentials, grants := inherited.value.agentCredentials, inherited.value.grants;
          }
        }
        if |grants| == 0 {
          return Err(ConsentGrantNotFound);
        }
      }
      return BuildVp(credentials + grants, WalletOf(dir, did), Kept(user), target, now, id);
    }

    method DelegateAuthority(dir: Directory, input: DelegateInput, now: int, id: VcId)
      returns (r: Result<DelegationMade, Error>)
      modifies vcs.Footprint()
      ensures Outcome(vcs.State(), r)
           == DelegateOutcome(vcs.Cfg(), dir, old(vcs.State()), input, now, id)
    {
      if input.did !in dir.keys {
        return Err(AgentKeyNotFound(input.did));
      }
      var st := vcs.driver.State();
      var source := DelegationSource(st, input, now);
      if source.Err? {
        return Err(source.error);
      }
      if source.value.None? {
        return Err(AgentActiveCredentialNotFound(input.did));
      }
      if !DelegateeActive(dir, st, input.to, now) {
        return Err(DelegateeNotAnAgent(input.to));
      }
      var entry := vcs.ClaimStatusListEntry(now);
      if entry.Err? {
        return Err(entry.error);
      }
      var o := DelegateOptions(input.to, input.scopes, input.expiresIn, source.value.value,
                               Some(EntryOnDefaultList(vcs.Cfg(), entry.value)));
      var built := BuildDelegationVC(o, WalletOf(dir, input.did), now, id);
      if built.Err? {
        return Err(built.error);
      }
      var stored := vcs.RegisterSignedVC(built.value, input.revokeExisting, now);
      return if stored.Err? then Err(stored.error) else Ok(DelegationMade(built.value, stored.value));
    }
  }
}
