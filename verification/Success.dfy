/** When the calls succeed: exactly on conditions a caller can check beforehand. */
module Success {
  import opened Common
  import opened Credentials
  import opened Delegation
  import opened VcStore
  import opened VcLifecycle
  import opened VcInvariants
  import opened AgentFlows
  import opened ServiceFlows
  import opened Runs
  import StatusList

  /** The default list has an index to give, or is still to be created. */
  predicate RoomLeft(st: Store) {
    st.list.None? || st.list.value.nextIndex < StatusList.DEFAULT_BITS
  }

  lemma ClaimSucceedsIff(cfg: Platform, s: Sys, now: int)
    ensures ClaimStatusListEntry(cfg, s, now).result.Ok? <==> RoomLeft(s.store)
  {
  }

  /** Nothing after the checks of the call itself can fail: a claimed index is free,
      and storing and reconciling go through. */
  lemma IssueSucceedsIff(cfg: Platform, s: Sys, p: IssueParams, known: bool, matches: bool, now: int, id: VcId)
    requires Inv(cfg, s.store) && id !in s.store.vcs
    ensures IssueVC(cfg, s, p, known, matches, now, id).result.Ok? <==>
            IssueFault(p, known).None? && RoomLeft(s.store) && matches
  {
    if IssueFault(p, known).None? && RoomLeft(s.store) && matches {
      var ready := WithDefaultList(cfg, s, now);
      var index := ready.store.list.value.nextIndex;
      DefaultListKeeps(cfg, s, now);
      ClaimKeeps(cfg, ready.store);
      var claimed := ready.(store := Claimed(ready.store));
      var row := IssuedRow(p, IssuedCredential(cfg, p, index, now, id), index);
      ClaimedRowIsNew(cfg, claimed.store, row, index);
      RegisterKeeps(cfg, claimed, row, p.revokeExisting, now);
    }
  }

  /** A stored, unrevoked credential can be revoked once there is a list. */
  lemma RevokeSucceedsIff(cfg: Platform, s: Sys, id: VcId, now: int)
    requires Inv(cfg, s.store)
    ensures RevokeVC(cfg, s, id, now).result.Ok? <==>
            id in s.store.vcs && s.store.vcs[id].revokedAt.None? && s.store.list.Some?
  {
    RevokeRowKeeps(cfg, s, id, now);
  }

  /** The builder takes the source: another DID, no scope beyond it, depth left. */
  predicate Delegable(from: Credential, did: Did, to: Did, scopes: seq<Scope>) {
    && to != did
    && from.body.subject.privilegeScopes.Some? && (forall x :: x in scopes ==> x in ScopesOf(from))
    && DepthOf(from) + 1 <= MaxDepthOf(from)
  }

  lemma DelegateFromSucceedsIff(cfg: Platform, dir: Directory, s: Sys, input: DelegateInput, from: Credential, now: int,
                                id: VcId)
    requires Inv(cfg, s.store) && id !in s.store.vcs && input.did in dir.keys
    ensures DelegateFrom(cfg, dir, s, input, from, now, id).result.Ok? <==>
            RoomLeft(s.store) && Delegable(from, input.did, input.to, input.scopes)
  {
    var entry := ClaimStatusListEntry(cfg, s, now);
    ClaimEntryKeeps(cfg, s, now);
    ClaimSucceedsIff(cfg, s, now);
    if entry.result.Ok? {
      var o := DelegateOptions(input.to, input.scopes, input.expiresIn, from,
                               Some(EntryOnDefaultList(cfg, entry.result.value)));
      var built := BuildDelegationVC(o, WalletOf(dir, input.did), now, id);
      assert built.Ok? <==> Delegable(from, input.did, input.to, input.scopes);
      if built.Ok? {
        ClaimedRowIsNew(cfg, entry.sys.store, SignedRow(cfg, built.value), entry.result.value);
        RegisterKeeps(cfg, entry.sys, SignedRow(cfg, built.value), input.revokeExisting, now);
      }
    }
  }

  lemma GrantFromSucceedsIff(cfg: Platform, dir: Directory, s: Sys, input: GrantInput, scopes: seq<Scope>, known: bool,
                             now: int, id: VcId)
    requires Inv(cfg, s.store) && id !in s.store.vcs && input.serviceDid in dir.keys
    ensures GrantFrom(cfg, dir, s, input, scopes, known, now, id).result.Ok? <==> RoomLeft(s.store) && known
  {
    var entry := ClaimStatusListEntry(cfg, s, now);
    ClaimEntryKeeps(cfg, s, now);
    ClaimSucceedsIff(cfg, s, now);
    if entry.result.Ok? && known {
      var vc := GrantCredential(cfg, input, scopes, WalletOf(dir, input.serviceDid), entry.result.value, now, id);
      ClaimedRowIsNew(cfg, entry.sys.store, GrantRow(vc), entry.result.value);
      RegisterKeeps(cfg, entry.sys, GrantRow(vc), input.revokeExisting, now);
    }
  }

  /** A consent is recorded when its scopes may be granted and the list has room. */
  lemma ConsentSucceedsIff(cfg: Platform, dir: Directory, s: Sys, input: GrantInput, known: bool, now: int, id: VcId)
    requires Inv(cfg, s.store) && id !in s.store.vcs
    ensures ConsentOutcome(cfg, dir, s, input, known, now, id).result.Ok? <==>
            GrantScopes(dir, s.store, input, now).Ok? && RoomLeft(s.store) && known
  {
    var scopes := GrantScopes(dir, s.store, input, now);
    if scopes.Ok? {
      GrantFromSucceedsIff(cfg, dir, s, input, scopes.value, known, now, id);
    }
  }
}
