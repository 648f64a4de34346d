/** The credential lifecycle as functions from state to state, one per service
    call. Each call is atomic; fresh ids, the clock and the answers of the DID
    registry are arguments. */
module VcLifecycle {
  import opened Common
  import opened Credentials
  import opened Cache
  import opened VcStore
  import Scopes
  import StatusList

  const LIST_ID := "helix-status-list-1"
  const DEFAULT_VALIDITY := 7776000

  datatype Platform = Platform(issuer: Wallet, apiBase: string, cacheTtl: int, lifetimes: Lifetimes)

  function ListUrl(cfg: Platform): string {
    cfg.apiBase + "/v1/status-list/" + LIST_ID
  }

  /** pointsAtDefaultList: the status entry is on the platform's own list. */
  predicate OnDefaultList(cfg: Platform, vc: Credential) {
    vc.body.status.Some? && vc.body.status.value.listUrl == ListUrl(cfg)
  }

  function EntryOnDefaultList(cfg: Platform, index: int): StatusRef {
    StatusRef(ListUrl(cfg), Some(index))
  }

  datatype Sys = Sys(store: Store, cache: Layers<StatusList.Bits>)

  datatype Outcome<T> = Outcome(sys: Sys, result: Result<T, Error>)

  // ---- Revoking ------------------------------------------------------------

  /** Sets the row's revocation and, if its entry is on the default list, its bit. */
  function RevokeRow(cfg: Platform, s: Sys, id: VcId, now: int): Outcome<int> {
    if s.store.list.None? then Outcome(s, Err(StatusListMissing))
    else if id !in s.store.vcs then Outcome(s, Err(VcNotFound))
    else
      var record, list := s.store.vcs[id], s.store.list.value;
      var owns := OnDefaultList(cfg, record.vc);
      var bits := if owns then StatusList.SetBitSpec(list.bits, record.statusListIndex, true) else Some(list.bits);
      if bits.None? then Outcome(s, Err(StatusIndexOutOfBounds))
      else Outcome(
        Sys(RowRevoked(WithBits(s.store, bits.value), id, now),
            if owns then AfterDelete(s.cache, cfg.lifetimes, LIST_ID) else s.cache),
        Ok(now))
  }

  function RevokeVC(cfg: Platform, s: Sys, id: VcId, now: int): Outcome<int> {
    if id !in s.store.vcs then Outcome(s, Err(VcNotFound))
    else if s.store.vcs[id].revokedAt.Some? then Outcome(s, Err(VcAlreadyRevoked))
    else RevokeRow(cfg, s, id, now)
  }

  /** Revokes unless active delegations hang off the credential. */
  function Retire(cfg: Platform, s: Sys, id: VcId, now: int): Outcome<bool> {
    if ActiveChildren(s.store, id, now) != [] then Outcome(s, Ok(false))
    else
      var o := RevokeRow(cfg, s, id, now);
      Outcome(o.sys, if o.result.Err? then Err(o.result.error) else Ok(true))
  }

  datatype Retirements = Retirements(retired: seq<VcId>, retained: seq<VcId>)

  function Record(done: Retirements, id: VcId, retired: bool): Retirements {
    if retired then done.(retired := done.retired + [id]) else done.(retained := done.retained + [id])
  }

  /** One turn of a loop of reconcileActive; `successor` is the credential the row
      is chained to, if it is. */
  function RetireStep(cfg: Platform, s: Sys, id: VcId, successor: Option<VcId>, now: int): Outcome<bool> {
    if id !in s.store.vcs then Outcome(s, Err(VcNotFound))
    else
      var marked := if successor.Some? then s.(store := RowRenewed(s.store, id, successor.value)) else s;
      Retire(cfg, marked, id, now)
  }

  function RetireAll(cfg: Platform, s: Sys, ids: seq<VcId>, successor: Option<VcId>, done: Retirements, now: int)
    : Outcome<Retirements>
    decreases ids
  {
    if ids == [] then Outcome(s, Ok(done))
    else
      var o := RetireStep(cfg, s, ids[0], successor, now);
      if o.result.Err? then Outcome(o.sys, Err(o.result.error))
      else RetireAll(cfg, o.sys, ids[1..], successor, Record(done, ids[0], o.result.value), now)
  }

  datatype Reconciled = Reconciled(replaced: seq<VcId>, revoked: seq<VcId>, retained: seq<VcId>)

  function IdentityFor(vc: Credential): Identity {
    var c := LookupColumns(vc);
    Identity(c.vcType, c.issuerDid, vc.body.subject.id, c.userDid)
  }

  function Siblings(st: Store, vc: Credential, now: int): seq<VcId> {
    Filter(id => id != vc.body.id, ActiveByIdentity(st, IdentityFor(vc), now))
  }

  predicate SameScopes(st: Store, id: VcId, vc: Credential) {
    id in st.vcs && st.vcs[id].columns.scopeKey == LookupColumns(vc).scopeKey
  }

  predicate HasIdentity(vc: Credential) {
    Truthy(LookupColumns(vc).vcType) && Truthy(LookupColumns(vc).issuerDid)
  }

  function Reconcile(cfg: Platform, s: Sys, vc: Credential, revokeExisting: bool, now: int): Outcome<Reconciled> {
    if !HasIdentity(vc) then Outcome(s, Ok(Reconciled([], [], [])))
    else
      var siblings := Siblings(s.store, vc, now);
      var same := Filter(id => SameScopes(s.store, id, vc), siblings);
      var others := if revokeExisting then Filter(id => !SameScopes(s.store, id, vc), siblings) else [];
      var a := RetireAll(cfg, s, same, Some(vc.body.id), Retirements([], []), now);
      if a.result.Err? then Outcome(a.sys, Err(a.result.error))
      else
        var b := RetireAll(cfg, a.sys, others, None, Retirements([], a.result.value.retained), now);
        if b.result.Err? then Outcome(b.sys, Err(b.result.error))
        else Outcome(b.sys, Ok(Reconciled(a.result.value.retired, b.result.value.retired, b.result.value.retained)))
  }

  // ---- Registering signed credentials --------------------------------------

  /** The row of a signed credential, as registerSignedVC stores it. */
  function SignedRow(cfg: Platform, vc: Credential): VcRecord {
    var index := if OnDefaultList(cfg, vc) then vc.body.status.value.index.GetOr(0) else 0;
    VcRecord(vc.body.id, vc.body.subject.id, AgentSubject, vc, vc.body.subject.privilegeScopes, index,
             vc.body.validUntil, None, None, vc.body.subject.parentVcId, LookupColumns(vc))
  }

  /** The row of a grant: its own index whatever list it is on, no parent. */
  function GrantRow(vc: Credential): VcRecord {
    var index := if vc.body.status.Some? then vc.body.status.value.index.GetOr(0) else 0;
    VcRecord(vc.body.id, vc.body.subject.id, AgentSubject, vc,
             vc.body.subject.claims.scopes, index, vc.body.validUntil, None, None, None, LookupColumns(vc))
  }

  /** The row of a credential signed elsewhere: placeholder index 0, no parent. */
  function ExternalRow(vc: Credential): VcRecord {
    var subject := vc.body.subject;
    var scopes := if subject.privilegeScopes.Some? then subject.privilegeScopes else subject.claims.scopes;
    VcRecord(vc.body.id, subject.id, AgentSubject, vc, scopes, 0, vc.body.validUntil, None, None, None,
             LookupColumns(vc))
  }

  function Register(cfg: Platform, s: Sys, row: VcRecord, revokeExisting: bool, now: int): Outcome<Reconciled> {
    Reconcile(cfg, s.(store := WithRow(s.store, row)), row.vc, revokeExisting, now)
  }

  function RegisterSignedVC(cfg: Platform, s: Sys, vc: Credential, revokeExisting: bool,
                            now: int): Outcome<Reconciled> {
    Register(cfg, s, SignedRow(cfg, vc), revokeExisting, now)
  }

  function RegisterIssuedGrant(cfg: Platform, s: Sys, vc: Credential, subjectKnown: bool, revokeExisting: bool,
                               now: int)
    : Outcome<Reconciled>
  {
    if !subjectKnown then Outcome(s, Err(VcSubjectDidNotFound))
    else Register(cfg, s, GrantRow(vc), revokeExisting, now)
  }

  /** What the proof check of an external credential found. */
  datatype ProofCheck = Verified | NoProof | IssuerUnresolved | Forged

  datatype Registered = AlreadyRegistered | NewlyRegistered(reconciled: Reconciled)

  function RegisterExternalVC(cfg: Platform, s: Sys, vc: Credential, check: ProofCheck, subjectKnown: bool,
                              revokeExisting: bool, now: int): Outcome<Registered>
  {
    if vc.body.id in s.store.vcs then Outcome(s, Ok(AlreadyRegistered))
    else if check.NoProof? then Outcome(s, Err(ValidationError))
    else if check.IssuerUnresolved? then Outcome(s, Err(VcIssuerNotFound))
    else if check.Forged? then Outcome(s, Err(VcSignatureInvalid))
    else if vc.body.untilUnreadable then Outcome(s, Err(ValidationError))
    else if vc.body.validUntil.Some? && vc.body.validUntil.value <= now then Outcome(s, Err(VcExpired))
    else if !subjectKnown then Outcome(s, Err(VcSubjectDidNotFound))
    else
      var o := Register(cfg, s, ExternalRow(vc), revokeExisting, now);
      Outcome(o.sys, if o.result.Err? then Err(o.result.error) else Ok(NewlyRegistered(o.result.value)))
  }

  // ---- Claiming and issuing ------------------------------------------------

  /** First use creates the default list, in the store and in the cache. */
  function WithDefaultList(cfg: Platform, s: Sys, now: int): (r: Sys)
    ensures r.store.list.Some?
  {
    if s.store.list.Some? then s
    else
      var bits := StatusList.Empty(StatusList.DEFAULT_BITS);
      Sys(WithList(s.store, bits), AfterSet(s.cache, cfg.lifetimes, LIST_ID, bits, cfg.cacheTtl, now))
  }

  function ClaimStatusListEntry(cfg: Platform, s: Sys, now: int): Outcome<nat> {
    var ready := WithDefaultList(cfg, s, now);
    var next := ready.store.list.value.nextIndex;
    if next >= StatusList.DEFAULT_BITS then Outcome(ready, Err(StatusListIndexExhausted))
    else Outcome(ready.(store := Claimed(ready.store)), Ok(next))
  }

  /** `expiresAt` is absent, explicitly never, or a time. */
  datatype Expiry = FromSeconds(seconds: Option<int>) | Never | At(time: int)

  datatype IssueParams = IssueParams(
    subjectDid: Did,
    subjectType: SubjectType,
    privilegeScopes: Option<seq<Scope>>,
    agentName: Option<string>,
    userId: Option<string>,
    expiry: Expiry,
    delegatedFrom: Option<Did>,
    delegationDepth: Option<int>,
    maxDelegationDepth: Option<int>,
    parentVcId: Option<VcId>,
    revokeExisting: bool)

  function ExpiresAt(expiry: Expiry, now: int): Option<int> {
    match expiry
    case Never => None
    case At(t) => Some(t)
    case FromSeconds(n) => Some(now + (if n.Some? && n.value != 0 then n.value else DEFAULT_VALIDITY) * 1000)
  }

  function IssueFault(p: IssueParams, subjectKnown: bool): Option<Error> {
    if !subjectKnown then Some(VcSubjectDidNotFound)
    else if p.subjectType.AgentSubject? && (p.privilegeScopes.None? || !Truthy(p.agentName)) then Some(ValidationError)
    else if p.subjectType.UserSubject? && (!Truthy(p.userId) || p.privilegeScopes.GetOr([]) != [])
    then Some(ValidationError)
    else if Scopes.ScopeProblemOf(p.privilegeScopes.GetOr([])).Some? then Some(InvalidScopes)
    else None
  }

  /** An empty text is dropped from the JSON like an absent one. */
  function Kept(s: Option<string>): Option<string> {
    if Truthy(s) then s else None
  }

  function IssuedCredential(cfg: Platform, p: IssueParams, index: nat, now: int, id: VcId): Credential {
    var agent := p.subjectType.AgentSubject?;
    var subject :=
      if agent then Subject(p.subjectDid, p.privilegeScopes, p.agentName, None, Kept(p.delegatedFrom),
                            p.delegationDepth, p.maxDelegationDepth, Kept(p.parentVcId), NO_CLAIMS)
      else Subject(p.subjectDid, None, None, p.userId, None, None, None, None, NO_CLAIMS);
    var body := Body(id, [BASE_TYPE, if agent then AGENT_TYPE else USER_TYPE], cfg.issuer.did, Some(now),
                     ExpiresAt(p.expiry, now), Some(EntryOnDefaultList(cfg, index)), subject, [], None, false);
    Credential(body, Some(cfg.issuer.sign(body)))
  }

  function IssuedRow(p: IssueParams, vc: Credential, index: nat): VcRecord {
    VcRecord(vc.body.id, p.subjectDid, p.subjectType, vc, p.privilegeScopes, index, vc.body.validUntil,
             None, None, p.parentVcId, LookupColumns(vc))
  }

  datatype Issued = Issued(vc: Credential, statusListIndex: nat, reconciled: Reconciled)

  function IssueVC(cfg: Platform, s: Sys, p: IssueParams, subjectKnown: bool, keyMatches: bool, now: int, id: VcId)
    : Outcome<Issued>
  {
    if IssueFault(p, subjectKnown).Some? then Outcome(s, Err(IssueFault(p, subjectKnown).value))
    else
      var ready := WithDefaultList(cfg, s, now);
      var index := ready.store.list.value.nextIndex;
      if index >= StatusList.DEFAULT_BITS then Outcome(ready, Err(StatusListIndexExhausted))
      else if !keyMatches then Outcome(ready, Err(IssuerKeyMismatch))
      else
        var vc := IssuedCredential(cfg, p, index, now, id);
        StoreIssued(cfg, ready.(store := Claimed(ready.store)), p, vc, index, now)
  }

  function StoreIssued(cfg: Platform, s: Sys, p: IssueParams, vc: Credential, index: nat, now: int): Outcome<Issued> {
    var o := Register(cfg, s, IssuedRow(p, vc, index), p.revokeExisting, now);
    Outcome(o.sys, if o.result.Err? then Err(o.result.error) else Ok(Issued(vc, index, o.result.value)))
  }

  datatype RenewOptions = RenewOptions(privilegeScopes: Option<seq<Scope>>, expiresInSeconds: Option<int>)

  function RenewParams(r: VcRecord, o: RenewOptions): IssueParams {
    IssueParams(r.subjectDid, r.subjectType,
                if o.privilegeScopes.Some? then o.privilegeScopes else r.privilegeScopes,
                r.vc.body.subject.agentName, r.vc.body.subject.userId, FromSeconds(o.expiresInSeconds),
                None, None, None, None, false)
  }

  function RenewVC(cfg: Platform, s: Sys, id: VcId, o: RenewOptions, subjectKnown: bool, keyMatches: bool, now: int,
                   newId: VcId): Outcome<Issued>
  {
    if id !in s.store.vcs then Outcome(s, Err(VcNotFound))
    else if s.store.vcs[id].revokedAt.Some? then Outcome(s, Err(VcAlreadyRevoked))
    else
      var issued := IssueVC(cfg, s, RenewParams(s.store.vcs[id], o), subjectKnown, keyMatches, now, newId);
      if issued.result.Err? || id !in issued.sys.store.vcs then issued
      else Outcome(issued.sys.(store := RowRenewed(issued.sys.store, id, newId)), issued.result)
  }

  // ---- Reading the list ----------------------------------------------------

  function GetStatusList(cfg: Platform, s: Sys, now: int): Outcome<StatusList.Bits> {
    var cached := GetResult(s.cache, cfg.lifetimes, LIST_ID, now);
    var read := s.(cache := AfterGet(s.cache, cfg.lifetimes, LIST_ID, now));
    if cached.Some? then Outcome(read, Ok(cached.value))
    else if s.store.list.None? then Outcome(read, Err(StatusListNotFound))
    else
      var bits := s.store.list.value.bits;
      Outcome(read.(cache := AfterSet(read.cache, cfg.lifetimes, LIST_ID, bits, cfg.cacheTtl, now)), Ok(bits))
  }
}
