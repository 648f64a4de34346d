/** Credentials, presentations and the errors raised about them. */
module Credentials {
  import opened Common

  type Did = string
  type Scope = string
  type VcId = string

  const BASE_TYPE := "VerifiableCredential"
  const AGENT_TYPE := "HelixAgentCredential"
  const USER_TYPE := "HelixUserCredential"
  const GRANT_TYPE := "DelegationGrantCredential"

  /** A status entry; `index` is None when the stored text is no integer. */
  datatype StatusRef = StatusRef(listUrl: string, index: Option<int>)

  /** What a consent grant adds to a subject, each value None when the JSON holds no
      such text, list of texts or truth value there; `fits` when everything else in
      the credential fits the consent grant schema. */
  datatype Claims = Claims(
    userDid: Option<string>,
    scopes: Option<seq<Scope>>,
    allowDelegation: Option<bool>,
    fits: bool)

  const NO_CLAIMS := Claims(None, None, None, false)

  /** The consent a credential that fits the grant schema records. */
  datatype Consent = Consent(userDid: string, scopes: seq<Scope>, allowDelegation: Option<bool>)

  /** `privilegeScopes` is None when the JSON holds no array there. */
  datatype Subject = Subject(
    id: Did,
    privilegeScopes: Option<seq<Scope>>,
    agentName: Option<string>,
    userId: Option<string>,
    delegatedFrom: Option<Did>,
    delegationDepth: Option<int>,
    maxDelegationDepth: Option<int>,
    parentVcId: Option<VcId>,
    claims: Claims)

  datatype Proof = Proof(value: string)

  /** What is signed. A missing or unreadable date is None: it then never fails
      the window check it belongs to. `untilUnreadable` tells an end date that is
      there but no date from a missing one. */
  datatype Body = Body(
    id: VcId,
    types: seq<string>,
    issuer: Did,
    validFrom: Option<int>,
    validUntil: Option<int>,
    status: Option<StatusRef>,
    subject: Subject,
    chain: seq<Credential>,
    targetService: Option<string>,
    untilUnreadable: bool)

  datatype Credential = Credential(body: Body, proof: Option<Proof>)

  datatype VpBody = VpBody(
    id: string,
    holder: Did,
    entries: seq<Credential>,
    expiration: Option<int>,
    delegatedBy: Option<string>,
    targetService: string)

  datatype Presentation = Presentation(body: VpBody, proof: Proof)

  /** A DID with the signing function of its private key. */
  datatype Wallet = Wallet(did: Did, sign: Body -> Proof, signVp: VpBody -> Proof)

  datatype ChainFault =
    | MissingParents
    | SelfIssuedRoot
    | RootDepth
    | IssuerMismatch
    | DelegatedFromMismatch
    | ParentIdMismatch
    | DepthNotSequential
    | MaxDepthChanged
    | DepthExceeded
    | Escalation(scope: Scope)

  datatype Error =
    // presentations
    | VpExpired
    | VpInvalidStructure
    | VpSignatureInvalid
    | ConsentGrantRequired(userDid: string)
    | ConsentGrantInvalid
    | ConsentGrantSubjectMismatch
    | ConsentGrantWrongService(issuer: Did, service: string)
    | ConsentGrantNotDelegable
    // single credentials
    | DidUnresolvable(did: Did)
    | ProofMissing
    | VcSignatureInvalid
    | VcNotYetValid
    | VcExpired
    | VcRevoked
    | SelfSignedVcNotAllowed
    | DelegationChainInvalid(fault: ChainFault)
    // building delegations
    | SelfDelegationNotAllowed(did: Did)
    | ScopeEscalationDenied(scope: Scope)
    | MaxDelegationDepthExceeded
    // services
    | ValidationError
    | InvalidScopes
    | VcNotFound
    | VcAlreadyRevoked
    | VcIssuerNotFound
    | VcSubjectDidNotFound
    | StatusListMissing
    | StatusIndexOutOfBounds
    | StatusListIndexExhausted
    | StatusListNotFound
    | IssuerKeyMismatch
    | AgentKeyNotFound(did: Did)
    | AgentActiveCredentialNotFound(did: Did)
    | MultipleActiveVc
    | DelegateeNotAnAgent(did: Did)
    | ConsentGrantNotFound
    | ServiceNotFound(did: Did)
    | ServiceRevoked(did: Did)
    | ServiceKeyNotFound(did: Did)
    | ConsentScopesNotHeld
    | ConsentNoGrantableScopes

  predicate IsAgentType(vc: Credential) {
    AGENT_TYPE in vc.body.types
  }

  predicate IsGrantType(vc: Credential) {
    GRANT_TYPE in vc.body.types
  }

  /** The VC names a delegator, so it counts as delegated. */
  predicate Delegated(vc: Credential) {
    Truthy(vc.body.subject.delegatedFrom)
  }

  function ConsentOf(vc: Credential): Option<Consent> {
    var claims := vc.body.subject.claims;
    if claims.fits && claims.userDid.Some? && claims.scopes.Some?
    then Some(Consent(claims.userDid.value, claims.scopes.value, claims.allowDelegation)) else None
  }

  function ScopesOf(vc: Credential): seq<Scope> {
    vc.body.subject.privilegeScopes.GetOr([])
  }

  function DepthOf(vc: Credential): int {
    vc.body.subject.delegationDepth.GetOr(0)
  }

  function MaxDepthOf(vc: Credential): int {
    vc.body.subject.maxDelegationDepth.GetOr(0)
  }

  /** Root to leaf: the embedded ancestors and the credential itself. */
  function ChainOf(vc: Credential): seq<Credential> {
    vc.body.chain + [vc]
  }

  /** What the verifier walks over: the chain of a delegated credential, any other
      credential alone. */
  function WalkOf(vc: Credential): seq<Credential> {
    if Delegated(vc) then ChainOf(vc) else [vc]
  }

  /** The composition rule shared by VPBuilder and verifyVP: some agent
      credential, and as many agent and grant entries as entries. */
  predicate ComposedRight(entries: seq<Credential>) {
    && |Filter(IsAgentType, entries)| >= 1
    && |Filter(IsAgentType, entries)| + |Filter(IsGrantType, entries)| == |entries|
  }
}
