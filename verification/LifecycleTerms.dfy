/** On which terms the lifecycle calls succeed, what they fail with and what they leave: read
    off the request, the rows, the list and the clock alone. */
module LifecycleTerms {
  import opened Common
  import opened Cache
  import opened Credentials
  import opened VcStore
  import opened VcLifecycle
  import opened VcInvariants
  import opened Runs
  import opened Success
  import VerifierMeaning
  import Scopes
  import StatusList

  // ---- Rows and the list ---------------------------------------------------------------

  /** Neither revoked nor past its end. */
  predicate Live(r: VcRecord, now: int) {
    r.revokedAt.None? && (r.expiresAt.Some? ==> now < r.expiresAt.value)
  }

  /** The list has an index left, or is still to be made. */
  predicate Room(st: Store) {
    st.list.None? || st.list.value.nextIndex < 131072
  }

  // ---- Scope lists -------------------------------------------------------------------------

  /** Not empty, no longer than 255, and with neither white space nor a comma in it. */
  predicate GoodScope(s: string) {
    s != "" && |s| <= 255 && forall i :: 0 <= i < |s| ==> s[i] !in Scopes.SEPARATORS
  }

  predicate GoodScopes(scopes: seq<string>) {
    |scopes| <= 50 && forall s :: s in scopes ==> GoodScope(s)
  }

  lemma GoodScopesAre(scopes: seq<string>)
    ensures Scopes.ScopeProblemOf(scopes).None? <==> GoodScopes(scopes)
  {
    forall s ensures Scopes.IsWord(s) && |s| <= Scopes.MAX_SCOPE_LENGTH <==> GoodScope(s) {
      forall i | 0 <= i < |s| ensures Scopes.IsSeparator(s[i]) <==> s[i] in Scopes.SEPARATORS {
        Scopes.SeparatorsAre(s[i]);
      }
    }
  }

  // ---- What storing leaves --------------------------------------------------------------

  lemma RetireStepKeepsNext(cfg: Platform, s: Sys, id: VcId, next: Option<VcId>, now: int)
    requires s.store.list.Some?
    ensures var t := RetireStep(cfg, s, id, next, now).sys.store.list;
            t.Some? && t.value.nextIndex == s.store.list.value.nextIndex
  {
  }

  /** Storing claims no index. */
  lemma KeepsNext(cfg: Platform, s: Sys, row: VcRecord, revokeExisting: bool, now: int)
    requires s.store.list.Some?
    ensures var t := Register(cfg, s, row, revokeExisting, now).sys.store.list;
            t.Some? && t.value.nextIndex == s.store.list.value.nextIndex
  {
    var stored := s.(store := WithRow(s.store, row));
    var good := (t: Sys) => t.store.list.Some? && t.store.list.value.nextIndex == s.store.list.value.nextIndex;
    forall t, id, next | good(t) && id in Siblings(stored.store, row.vc, now) && next in {None, Some(row.vc.body.id)}
      ensures good(RetireStep(cfg, t, id, next, now).sys)
    {
      RetireStepKeepsNext(cfg, t, id, next, now);
    }
    ReconcileInduction(cfg, stored, row.vc, revokeExisting, now, good, false);
  }

  /** The entry the next claim gives out. */
  function NextIndex(st: Store): nat {
    if st.list.Some? then st.list.value.nextIndex else 0
  }

  function EntryAt(cfg: Platform, index: int): StatusRef {
    StatusRef(cfg.apiBase + "/v1/status-list/" + "helix-status-list-1", Some(index))
  }

  /** The new row says what its credential says, and is not revoked. */
  predicate StoredAs(r: VcRecord, c: Credential, index: int) {
    && r.vcId == c.body.id && r.vc == c && r.subjectDid == c.body.subject.id
    && r.expiresAt == c.body.validUntil && r.revokedAt.None? && r.renewedBy.None? && r.statusListIndex == index
  }

  lemma EntryIs(cfg: Platform, index: int)
    ensures EntryAt(cfg, index) == EntryOnDefaultList(cfg, index)
  {
  }

  /** A row with the entry just claimed goes in as it is, and takes that entry. */
  lemma ClaimAndStore(cfg: Platform, s: Sys, row: VcRecord, revokeExisting: bool, now: int)
    requires Inv(cfg, s.store) && Room(s.store) && row.vcId !in s.store.vcs
    requires StoredAs(row, row.vc, NextIndex(s.store)) && row.vc.body.status == Some(EntryAt(cfg, NextIndex(s.store)))
    ensures var entry := ClaimStatusListEntry(cfg, s, now);
            var st := Register(cfg, entry.sys, row, revokeExisting, now).sys.store;
            && entry.result == Ok(NextIndex(s.store))
            && Register(cfg, entry.sys, row, revokeExisting, now).result.Ok?
            && st.vcs.Keys == s.store.vcs.Keys + {row.vcId} && st.vcs[row.vcId] == row
            && st.list.Some? && st.list.value.nextIndex == NextIndex(s.store) + 1
  {
    var entry := ClaimStatusListEntry(cfg, s, now);
    ClaimEntryKeeps(cfg, s, now);
    ClaimSucceedsIff(cfg, s, now);
    ClaimedRowIsNew(cfg, entry.sys.store, row, entry.result.value);
    RegisterKeeps(cfg, entry.sys, row, revokeExisting, now);
    KeepsNext(cfg, entry.sys, row, revokeExisting, now);
  }

  // ---- issueVC -------------------------------------------------------------------------------

  function Asked(p: IssueParams): seq<Scope> {
    if p.privilegeScopes.Some? then p.privilegeScopes.value else []
  }

  /** An agent is named and has a list of scopes, a user has an id and no scopes. */
  predicate WellAsked(p: IssueParams) {
    match p.subjectType
    case AgentSubject => p.privilegeScopes.Some? && VerifierMeaning.Given(p.agentName)
    case UserSubject => VerifierMeaning.Given(p.userId) && Asked(p) == []
  }

  lemma IssueFaultIs(p: IssueParams, known: bool)
    ensures var fault := IssueFault(p, known);
            if !known then fault == Some(VcSubjectDidNotFound)
            else if !WellAsked(p) then fault == Some(ValidationError)
            else if !GoodScopes(Asked(p)) then fault == Some(InvalidScopes)
            else fault.None?
  {
    GoodScopesAre(Asked(p));
  }

  /** What issuing comes to, the first that applies. */
  lemma IssueErrors(cfg: Platform, s: Sys, p: IssueParams, known: bool, matches: bool, now: int, id: VcId)
    requires Inv(cfg, s.store) && id !in s.store.vcs
    ensures var r := IssueVC(cfg, s, p, known, matches, now, id).result;
            if !known then r == Err(VcSubjectDidNotFound)
            else if !WellAsked(p) then r == Err(ValidationError)
            else if !GoodScopes(Asked(p)) then r == Err(InvalidScopes)
            else if !Room(s.store) then r == Err(StatusListIndexExhausted)
            else if !matches then r == Err(IssuerKeyMismatch)
            else r.Ok?
  {
    IssueFaultIs(p, known);
    IssueSucceedsIff(cfg, s, p, known, matches, now, id);
  }

  /** A credential is issued exactly on these terms. */
  lemma IssueTerms(cfg: Platform, s: Sys, p: IssueParams, known: bool, matches: bool, now: int, id: VcId)
    requires Inv(cfg, s.store) && id !in s.store.vcs
    ensures IssueVC(cfg, s, p, known, matches, now, id).result.Ok? <==>
            known && WellAsked(p) && GoodScopes(Asked(p)) && Room(s.store) && matches
  {
    IssueErrors(cfg, s, p, known, matches, now, id);
  }

  /** For ever, until a time, for some seconds, or for 90 days. */
  predicate EndsAs(until: Option<int>, expiry: Expiry, now: int) {
    match expiry
    case Never => until.None?
    case At(time) => until == Some(time)
    case FromSeconds(n) =>
      until == Some(now + 1000 * if n.Some? && n.value != 0 then n.value else 90 * 24 * 60 * 60)
  }

  /** A text of the request, where there is one. */
  predicate Carries(field: Option<string>, asked: Option<string>) {
    if VerifierMeaning.Given(asked) then field == asked else field.None?
  }

  /** The platform's credential on this request. */
  predicate IssuedOn(c: Credential, issuer: Wallet, p: IssueParams, now: int) {
    var subject := c.body.subject;
    && c.proof == Some(issuer.sign(c.body)) && c.body.issuer == issuer.did && c.body.chain == []
    && c.body.validFrom == Some(now) && EndsAs(c.body.validUntil, p.expiry, now)
    && c.body.targetService.None? && !c.body.untilUnreadable
    && subject.id == p.subjectDid && subject.claims == Claims(None, None, None, false)
    && match p.subjectType
       case AgentSubject =>
         && c.body.types == ["VerifiableCredential", "HelixAgentCredential"]
         && subject.privilegeScopes == p.privilegeScopes && subject.agentName == p.agentName && subject.userId.None?
         && Carries(subject.delegatedFrom, p.delegatedFrom) && Carries(subject.parentVcId, p.parentVcId)
         && subject.delegationDepth == p.delegationDepth && subject.maxDelegationDepth == p.maxDelegationDepth
       case UserSubject =>
         && c.body.types == ["VerifiableCredential", "HelixUserCredential"]
         && subject.privilegeScopes.None? && subject.userId == p.userId && subject.agentName.None?
         && subject.delegatedFrom.None? && subject.parentVcId.None?
         && subject.delegationDepth.None? && subject.maxDelegationDepth.None?
  }

  lemma IssuedIs(cfg: Platform, p: IssueParams, index: nat, now: int, id: VcId)
    ensures var c := IssuedCredential(cfg, p, index, now, id);
            var row := IssuedRow(p, c, index);
            && IssuedOn(c, cfg.issuer, p, now) && c.body.id == id && c.body.status == Some(EntryAt(cfg, index))
            && StoredAs(row, c, index) && row.subjectType == p.subjectType
            && row.privilegeScopes == p.privilegeScopes && row.parentVcId == p.parentVcId
  {
  }

  /** What is issued says what was asked for, and is stored with the next index. */
  lemma IssueMeans(cfg: Platform, s: Sys, p: IssueParams, known: bool, matches: bool, now: int, id: VcId)
    requires Inv(cfg, s.store) && id !in s.store.vcs
    requires IssueVC(cfg, s, p, known, matches, now, id).result.Ok?
    ensures var o := IssueVC(cfg, s, p, known, matches, now, id);
            var c, st, index := o.result.value.vc, o.sys.store, NextIndex(s.store);
            && IssuedOn(c, cfg.issuer, p, now) && c.body.id == id && c.body.status == Some(EntryAt(cfg, index))
            && o.result.value.statusListIndex == index
            && st.vcs.Keys == s.store.vcs.Keys + {id} && StoredAs(st.vcs[id], c, index)
            && st.vcs[id].subjectType == p.subjectType && st.vcs[id].privilegeScopes == p.privilegeScopes
            && st.vcs[id].parentVcId == p.parentVcId
            && st.list.Some? && st.list.value.nextIndex == index + 1
  {
    var index := NextIndex(s.store);
    IssueTerms(cfg, s, p, known, matches, now, id);
    IssuedIs(cfg, p, index, now, id);
    ClaimAndStore(cfg, s, IssuedRow(p, IssuedCredential(cfg, p, index, now, id), index), p.revokeExisting, now);
  }

  // ---- renewVC -------------------------------------------------------------------------------

  /** The request a renewal stands for: the row's subject, its scopes unless others are asked
      for, nothing delegated. */
  predicate RenewalOf(p: IssueParams, r: VcRecord, o: RenewOptions) {
    && p.subjectDid == r.subjectDid && p.subjectType == r.subjectType
    && p.privilegeScopes == (if o.privilegeScopes.Some? then o.privilegeScopes else r.privilegeScopes)
    && p.agentName == r.vc.body.subject.agentName && p.userId == r.vc.body.subject.userId
    && p.expiry == FromSeconds(o.expiresInSeconds)
    && p.delegatedFrom.None? && p.delegationDepth.None? && p.maxDelegationDepth.None? && p.parentVcId.None?
    && !p.revokeExisting
  }

  /** A renewal comes to what issuing would, but for rows missing or revoked. */
  lemma RenewErrors(cfg: Platform, s: Sys, at: VcId, o: RenewOptions, known: bool, matches: bool, now: int, id: VcId,
                    p: IssueParams)
    requires Inv(cfg, s.store) && id !in s.store.vcs
    requires at in s.store.vcs ==> RenewalOf(p, s.store.vcs[at], o)
    ensures var r := RenewVC(cfg, s, at, o, known, matches, now, id).result;
            if at !in s.store.vcs then r == Err(VcNotFound)
            else if s.store.vcs[at].revokedAt.Some? then r == Err(VcAlreadyRevoked)
            else r == IssueVC(cfg, s, p, known, matches, now, id).result
  {
    if at in s.store.vcs {
      assert p == RenewParams(s.store.vcs[at], o);
    }
  }

  /** The renewed row points at the new one, which is as issued; the renewal of the row is
      its only other trace. */
  lemma RenewMeans(cfg: Platform, s: Sys, at: VcId, o: RenewOptions, known: bool, matches: bool, now: int, id: VcId,
                   p: IssueParams)
    requires Inv(cfg, s.store) && id !in s.store.vcs
    requires RenewVC(cfg, s, at, o, known, matches, now, id).result.Ok?
    requires at in s.store.vcs && RenewalOf(p, s.store.vcs[at], o)
    ensures var a, b := IssueVC(cfg, s, p, known, matches, now, id), RenewVC(cfg, s, at, o, known, matches, now, id);
            && b.result == a.result
            && b.sys.cache == a.sys.cache && b.sys.store.list == a.sys.store.list
            && b.sys.store.order == a.sys.store.order && b.sys.store.vcs.Keys == a.sys.store.vcs.Keys
            && at in b.sys.store.vcs && b.sys.store.vcs[at] == a.sys.store.vcs[at].(renewedBy := Some(id))
            && forall x :: x in a.sys.store.vcs && x != at ==> b.sys.store.vcs[x] == a.sys.store.vcs[x]
  {
    assert p == RenewParams(s.store.vcs[at], o);
    IssueKeeps(cfg, s, p, known, matches, now, id);
  }

  // ---- revokeVC and claimStatusListEntry -------------------------------------------------------

  /** The row's entry is on the platform's list. */
  predicate OnList(cfg: Platform, r: VcRecord) {
    && r.vc.body.status.Some?
    && r.vc.body.status.value.listUrl == cfg.apiBase + "/v1/status-list/" + "helix-status-list-1"
  }

  /** Revoking marks the row and, where its entry is on the list, sets its bit, drops the list
      from the caches and changes nothing else. */
  lemma RevokeTerms(cfg: Platform, s: Sys, id: VcId, now: int)
    requires Inv(cfg, s.store)
    ensures var o, st := RevokeVC(cfg, s, id, now), s.store;
            var after := o.sys.store;
            if id !in st.vcs then o.result == Err(VcNotFound) && o.sys == s
            else if st.vcs[id].revokedAt.Some? then o.result == Err(VcAlreadyRevoked) && o.sys == s
            else if st.list.None? then o.result == Err(StatusListMissing) && o.sys == s
            else
              && o.result == Ok(now) && after.order == st.order && after.vcs.Keys == st.vcs.Keys
              && after.vcs[id] == st.vcs[id].(revokedAt := Some(now))
              && (forall x :: x in st.vcs && x != id ==> after.vcs[x] == st.vcs[x])
              && after.list.Some? && after.list.value.nextIndex == st.list.value.nextIndex
              && (if OnList(cfg, st.vcs[id])
                  then BitSet(st, after, st.vcs[id].statusListIndex) && ListDropped(cfg, s, o.sys)
                  else after.list == st.list && o.sys.cache == s.cache)
  {
    RevokeRowKeeps(cfg, s, id, now);
    if id in s.store.vcs && s.store.list.Some? {
      if OnList(cfg, s.store.vcs[id]) {
        assert Listed(cfg, s.store, id);
        SetOne(s.store.list.value.bits, s.store.vcs[id].statusListIndex);
      }
    }
  }

  ghost predicate BitSet(st: Store, after: Store, index: int) {
    && st.list.Some? && after.list.Some? && |after.list.value.bits| == |st.list.value.bits|
    && forall i :: 0 <= i < 131072 ==>
         StatusList.GetBit(after.list.value.bits, i)
         == if i == index then Some(true) else StatusList.GetBit(st.list.value.bits, i)
  }

  lemma SetOne(bits: StatusList.Bits, index: int)
    requires 0 <= index < 8 * |bits|
    ensures var after := StatusList.SetBitSpec(bits, index, true);
            && after.Some? && |after.value| == |bits|
            && forall i :: 0 <= i < 8 * |bits| ==>
                 StatusList.GetBit(after.value, i) == if i == index then Some(true) else StatusList.GetBit(bits, i)
  {
    forall i | 0 <= i < 8 * |bits|
      ensures StatusList.GetBit(StatusList.SetBitSpec(bits, index, true).value, i)
           == if i == index then Some(true) else StatusList.GetBit(bits, i)
    {
      StatusList.WriteThenRead(bits, index, true, i);
    }
  }

  predicate ListDropped(cfg: Platform, s: Sys, t: Sys) {
    && t.cache.l1 == s.cache.l1 - {"helix-status-list-1"}
    && (t.cache.l2.Some? <==> s.cache.l2.Some?)
    && (s.cache.l2.Some? ==> t.cache.l2.value == s.cache.l2.value - {cfg.lifetimes.prefix + "helix-status-list-1"})
  }

  /** A claim gives out the next index once; the first makes the list, 131072 bits of 0, and
      caches it; no row or bit changes. */
  lemma ClaimTerms(cfg: Platform, s: Sys, now: int)
    ensures var o, st := ClaimStatusListEntry(cfg, s, now), s.store;
            && o.sys.store.vcs == st.vcs && o.sys.store.order == st.order
            && if !Room(st) then o.result == Err(StatusListIndexExhausted) && o.sys == s
               else
                 && o.result == Ok(NextIndex(st)) && o.sys.store.list.Some?
                 && o.sys.store.list.value.nextIndex == NextIndex(st) + 1
                 && (st.list.Some? ==> o.sys.store.list.value.bits == st.list.value.bits && o.sys.cache == s.cache)
                 && (st.list.None? ==>
                       && AllClear(o.sys.store.list.value.bits)
                       && o.sys.cache == AfterSet(s.cache, cfg.lifetimes, "helix-status-list-1",
                                                  o.sys.store.list.value.bits, cfg.cacheTtl, now))
  {
    if s.store.list.None? {
      ClearList();
    }
  }

  ghost predicate AllClear(bits: StatusList.Bits) {
    8 * |bits| == 131072 && forall i :: 0 <= i < 131072 ==> StatusList.GetBit(bits, i) == Some(false)
  }

  lemma ClearList()
    ensures AllClear(StatusList.Empty(131072))
  {
    var bits := StatusList.Empty(131072);
    forall i | 0 <= i < 131072 ensures StatusList.GetBit(bits, i) == Some(false) {
      StatusList.GetBitIsBit(bits, i);
    }
  }

  // ---- registerSignedVC and registerIssuedGrant --------------------------------------------------

  function IndexNamed(c: Credential): int {
    if c.body.status.Some? && c.body.status.value.index.Some? then c.body.status.value.index.value else 0
  }

  /** A credential signed for the platform is filed under the index it names if that is one of
      the platform's list, else under 0, with its parent; a grant under the index it names. */
  lemma SignedTerms(cfg: Platform, s: Sys, c: Credential, revokeExisting: bool, now: int)
    requires Inv(cfg, s.store) && s.store.list.Some?
    ensures NewRow(cfg, s.store, SignedRow(cfg, c)) ==>
              var o, r := RegisterSignedVC(cfg, s, c, revokeExisting, now), SignedRow(cfg, c);
              && o.result.Ok? && c.body.id in o.sys.store.vcs && o.sys.store.vcs[c.body.id] == r
              && StoredAs(r, c, if OnList(cfg, r) then IndexNamed(c) else 0)
              && r.parentVcId == c.body.subject.parentVcId && r.privilegeScopes == c.body.subject.privilegeScopes
    ensures NewRow(cfg, s.store, GrantRow(c)) ==>
              var o, r := RegisterIssuedGrant(cfg, s, c, true, revokeExisting, now), GrantRow(c);
              && o.result.Ok? && c.body.id in o.sys.store.vcs && o.sys.store.vcs[c.body.id] == r
              && StoredAs(r, c, IndexNamed(c))
              && r.parentVcId.None? && r.privilegeScopes == c.body.subject.claims.scopes
    ensures RegisterIssuedGrant(cfg, s, c, false, revokeExisting, now).result == Err(VcSubjectDidNotFound)
    ensures RegisterIssuedGrant(cfg, s, c, false, revokeExisting, now).sys == s
  {
    if NewRow(cfg, s.store, SignedRow(cfg, c)) {
      RegisterKeeps(cfg, s, SignedRow(cfg, c), revokeExisting, now);
    }
    if NewRow(cfg, s.store, GrantRow(c)) {
      RegisterKeeps(cfg, s, GrantRow(c), revokeExisting, now);
    }
  }
}
