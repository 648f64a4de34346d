/** The row each call adds, and what therefore holds of the rows in every run. */
module Rows {
  import opened Common
  import opened Credentials
  import opened Delegation
  import opened Verifier
  import opened VcStore
  import opened VcLifecycle
  import opened VcInvariants
  import opened AgentFlows
  import opened ServiceFlows
  import opened Presentations
  import opened Runs

  // ---- The row a call adds -------------------------------------------------

  function IssuedHere(cfg: Platform, s: Sys, p: IssueParams, now: int, id: VcId): VcRecord {
    var index := WithDefaultList(cfg, s, now).store.list.value.nextIndex;
    IssuedRow(p, IssuedCredential(cfg, p, index, now, id), index)
  }

  function Built(cfg: Platform, dir: Directory, s: Sys, input: DelegateInput, from: Credential, now: int, id: VcId)
    : Result<Credential, Error>
    requires input.did in dir.keys
  {
    var index := WithDefaultList(cfg, s, now).store.list.value.nextIndex;
    var o := DelegateOptions(input.to, input.scopes, input.expiresIn, from, Some(EntryOnDefaultList(cfg, index)));
    BuildDelegationVC(o, WalletOf(dir, input.did), now, id)
  }

  /** `r` is what the call stores as a new row, if it stores one. */
  ghost predicate RowMade(cfg: Platform, dir: Directory, s: Sys, call: Call, now: int, r: VcRecord) {
    match call
    case Issue(p, known, _, id) => IssueFault(p, known).None? && r == IssuedHere(cfg, s, p, now, id)
    case Renew(vcId, o, known, _, id) =>
      && vcId in s.store.vcs
      && var p := RenewParams(s.store.vcs[vcId], o);
         IssueFault(p, known).None? && r == IssuedHere(cfg, s, p, now, id)
    case Delegate(input, id) =>
      && input.did in dir.keys && DelegateeActive(dir, s.store, input.to, now)
      && var source := DelegationSource(s.store, input, now);
         && source.Ok? && source.value.Some?
         && var built := Built(cfg, dir, s, input, source.value.value, now, id);
            built.Ok? && r == SignedRow(cfg, built.value)
    case Consent(input, _, id) =>
      && input.serviceDid in dir.keys && GrantScopes(dir, s.store, input, now).Ok?
      && var scopes := GrantScopes(dir, s.store, input, now).value;
         var index := WithDefaultList(cfg, s, now).store.list.value.nextIndex;
         r == GrantRow(GrantCredential(cfg, input, scopes, WalletOf(dir, input.serviceDid), index, now, id))
    case External(vc, check, _, _) => check.Verified? && r == ExternalRow(vc)
    case _ => false
  }

  /** All rows of `b` are rows of `a`, or what `made` says, up to their marks. */
  ghost predicate AddsOnly(a: Store, b: Store, made: VcRecord -> bool) {
    forall id :: id in b.vcs && id !in a.vcs ==> exists r :: made(r) && SameButMarks(r, b.vcs[id])
  }

  lemma RegisterAdds(cfg: Platform, s: Sys, row: VcRecord, revokeExisting: bool, now: int, made: VcRecord -> bool)
    requires Inv(cfg, s.store) && NewRow(cfg, s.store, row) && made(row)
    ensures AddsOnly(s.store, Register(cfg, s, row, revokeExisting, now).sys.store, made)
  {
    RegisterKeeps(cfg, s, row, revokeExisting, now);
  }

  lemma ClaimedRoom(cfg: Platform, s: Sys, now: int)
    requires Inv(cfg, s.store)
    ensures var entry := ClaimStatusListEntry(cfg, s, now);
            && Inv(cfg, entry.sys.store) && entry.sys.store.vcs == s.store.vcs
            && (entry.result.Ok? ==>
                  && entry.result.value == WithDefaultList(cfg, s, now).store.list.value.nextIndex
                  && entry.sys.store.list.Some? && entry.result.value < entry.sys.store.list.value.nextIndex
                  && forall x :: Listed(cfg, entry.sys.store, x) ==>
                       entry.sys.store.vcs[x].statusListIndex != entry.result.value)
  {
    ClaimEntryKeeps(cfg, s, now);
  }

  lemma IssueIsClaim(cfg: Platform, s: Sys, p: IssueParams, known: bool, matches: bool, now: int, id: VcId)
    ensures var o, entry := IssueVC(cfg, s, p, known, matches, now, id), ClaimStatusListEntry(cfg, s, now);
            || (o.sys.store.vcs == s.store.vcs)
            || (IssueFault(p, known).None? && entry.result.Ok? && o.sys
                == Register(cfg, entry.sys, IssuedHere(cfg, s, p, now, id), p.revokeExisting, now).sys)
  {
  }

  lemma IssueAdds(cfg: Platform, s: Sys, p: IssueParams, known: bool, matches: bool, now: int, id: VcId,
                  made: VcRecord -> bool)
    requires Inv(cfg, s.store) && id !in s.store.vcs
    requires IssueFault(p, known).None? ==> made(IssuedHere(cfg, s, p, now, id))
    ensures AddsOnly(s.store, IssueVC(cfg, s, p, known, matches, now, id).sys.store, made)
  {
    IssueIsClaim(cfg, s, p, known, matches, now, id);
    if IssueVC(cfg, s, p, known, matches, now, id).sys.store.vcs != s.store.vcs {
      var entry := ClaimStatusListEntry(cfg, s, now);
      ClaimedRoom(cfg, s, now);
      ClaimedRowIsNew(cfg, entry.sys.store, IssuedHere(cfg, s, p, now, id), entry.result.value);
      RegisterAdds(cfg, entry.sys, IssuedHere(cfg, s, p, now, id), p.revokeExisting, now, made);
    }
  }

  lemma RenewAdds(cfg: Platform, s: Sys, vcId: VcId, o: RenewOptions, known: bool, matches: bool, now: int, id: VcId,
                  made: VcRecord -> bool)
    requires Inv(cfg, s.store) && id !in s.store.vcs
    requires vcId in s.store.vcs ==>
               var p := RenewParams(s.store.vcs[vcId], o);
               IssueFault(p, known).None? ==> made(IssuedHere(cfg, s, p, now, id))
    ensures AddsOnly(s.store, RenewVC(cfg, s, vcId, o, known, matches, now, id).sys.store, made)
  {
    if vcId in s.store.vcs && s.store.vcs[vcId].revokedAt.None? {
      var p := RenewParams(s.store.vcs[vcId], o);
      IssueAdds(cfg, s, p, known, matches, now, id, made);
      var issued := IssueVC(cfg, s, p, known, matches, now, id).sys.store;
      MarkAdds(s.store, issued, vcId, id, made);
    }
  }

  lemma MarkAdds(a: Store, b: Store, vcId: VcId, next: VcId, made: VcRecord -> bool)
    requires AddsOnly(a, b, made)
    ensures vcId in b.vcs ==> AddsOnly(a, RowRenewed(b, vcId, next), made)
  {
    if vcId in b.vcs {
      var after := RowRenewed(b, vcId, next);
      forall id | id in after.vcs && id !in a.vcs ensures exists r :: made(r) && SameButMarks(r, after.vcs[id]) {
        var r :| made(r) && SameButMarks(r, b.vcs[id]);
        assert SameButMarks(r, after.vcs[id]);
      }
    }
  }

  lemma DelegateFromIs(cfg: Platform, dir: Directory, s: Sys, input: DelegateInput, from: Credential, now: int,
                       id: VcId)
    requires input.did in dir.keys
    ensures var o, entry := DelegateFrom(cfg, dir, s, input, from, now, id), ClaimStatusListEntry(cfg, s, now);
            || (o.sys == entry.sys)
            || (entry.result.Ok? && Built(cfg, dir, s, input, from, now, id).Ok?
                && o.sys == RegisterSignedVC(cfg, entry.sys, Built(cfg, dir, s, input, from, now, id).value,
                                             input.revokeExisting, now).sys)
  {
  }

  lemma BuiltEntry(o: DelegateOptions, wallet: Wallet, now: int, id: VcId)
    requires BuildDelegationVC(o, wallet, now, id).Ok?
    ensures var vc := BuildDelegationVC(o, wallet, now, id).value; vc.body.id == id && vc.body.status == o.status
  {
  }

  lemma DelegateFromAdds(cfg: Platform, dir: Directory, s: Sys, input: DelegateInput, from: Credential, now: int,
                         id: VcId, made: VcRecord -> bool)
    requires Inv(cfg, s.store) && id !in s.store.vcs && input.did in dir.keys
    requires var built := Built(cfg, dir, s, input, from, now, id);
             built.Ok? ==> made(SignedRow(cfg, built.value))
    ensures AddsOnly(s.store, DelegateFrom(cfg, dir, s, input, from, now, id).sys.store, made)
  {
    var entry := ClaimStatusListEntry(cfg, s, now);
    ClaimedRoom(cfg, s, now);
    DelegateFromIs(cfg, dir, s, input, from, now, id);
    if DelegateFrom(cfg, dir, s, input, from, now, id).sys != entry.sys {
      var status := Some(EntryOnDefaultList(cfg, entry.result.value));
      var o := DelegateOptions(input.to, input.scopes, input.expiresIn, from, status);
      var vc := Built(cfg, dir, s, input, from, now, id).value;
      BuiltEntry(o, WalletOf(dir, input.did), now, id);
      ClaimedRowIsNew(cfg, entry.sys.store, SignedRow(cfg, vc), entry.result.value);
      RegisterAdds(cfg, entry.sys, SignedRow(cfg, vc), input.revokeExisting, now, made);
    }
  }

  lemma GrantFromAdds(cfg: Platform, dir: Directory, s: Sys, input: GrantInput, scopes: seq<Scope>, known: bool,
                      now: int, id: VcId, made: VcRecord -> bool)
    requires Inv(cfg, s.store) && id !in s.store.vcs && input.serviceDid in dir.keys
    requires var index := WithDefaultList(cfg, s, now).store.list.value.nextIndex;
             made(GrantRow(GrantCredential(cfg, input, scopes, WalletOf(dir, input.serviceDid), index, now, id)))
    ensures AddsOnly(s.store, GrantFrom(cfg, dir, s, input, scopes, known, now, id).sys.store, made)
  {
    var entry := ClaimStatusListEntry(cfg, s, now);
    ClaimedRoom(cfg, s, now);
    if entry.result.Ok? && known {
      var vc := GrantCredential(cfg, input, scopes, WalletOf(dir, input.serviceDid), entry.result.value, now, id);
      ClaimedRowIsNew(cfg, entry.sys.store, GrantRow(vc), entry.result.value);
      RegisterAdds(cfg, entry.sys, GrantRow(vc), input.revokeExisting, now, made);
    }
  }

  lemma ExternalAdds(cfg: Platform, s: Sys, vc: Credential, check: ProofCheck, known: bool, re: bool, now: int,
                     made: VcRecord -> bool)
    requires Inv(cfg, s.store) && !OnDefaultList(cfg, vc) && (check.Verified? ==> made(ExternalRow(vc)))
    ensures AddsOnly(s.store, RegisterExternalVC(cfg, s, vc, check, known, re, now).sys.store, made)
  {
    var o := RegisterExternalVC(cfg, s, vc, check, known, re, now);
    if o.sys != s {
      assert o.sys == Register(cfg, s, ExternalRow(vc), re, now).sys;
      RegisterAdds(cfg, s, ExternalRow(vc), re, now, made);
    }
  }

  /** Every row a call leaves was there before, or is the one it makes; only marks
      change. */
  lemma ApplyAdds(cfg: Platform, dir: Directory, s: Sys, call: Call, now: int)
    requires Inv(cfg, s.store) && Allowed(cfg, s, call)
    ensures AddsOnly(s.store, Apply(cfg, dir, s, call, now).store, r => RowMade(cfg, dir, s, call, now, r))
  {
    var made := r => RowMade(cfg, dir, s, call, now, r);
    match call
    case Issue(p, known, matches, id) => IssueAdds(cfg, s, p, known, matches, now, id, made);
    case Renew(vcId, o, known, matches, id) => RenewAdds(cfg, s, vcId, o, known, matches, now, id, made);
    case Delegate(input, id) =>
      if DelegateOutcome(cfg, dir, s, input, now, id).sys != s {
        var from := DelegationSource(s.store, input, now).value.value;
        DelegateFromAdds(cfg, dir, s, input, from, now, id, made);
      }
    case Consent(input, known, id) =>
      if ConsentOutcome(cfg, dir, s, input, known, now, id).sys != s {
        GrantFromAdds(cfg, dir, s, input, GrantScopes(dir, s.store, input, now).value, known, now, id, made);
      }
    case External(vc, check, known, re) => ExternalAdds(cfg, s, vc, check, known, re, now, made);
    case Revoke(vcId) => RevokeAdds(cfg, s, vcId, now, made);
    case Claim => ClaimedRoom(cfg, s, now);
    case ReadList =>
  }

  lemma RevokeAdds(cfg: Platform, s: Sys, id: VcId, now: int, made: VcRecord -> bool)
    requires Inv(cfg, s.store)
    ensures AddsOnly(s.store, RevokeVC(cfg, s, id, now).sys.store, made)
  {
    RevokeRowKeeps(cfg, s, id, now);
  }

  // ---- What holds of every row ---------------------------------------------

  /** Keys held by the platform resolve to themselves. */
  ghost predicate KeysGenuine(cfg: Platform, dir: Directory, w: World) {
    Genuine(cfg.issuer, w) && forall did :: did in dir.keys ==> Genuine(WalletOf(dir, did), w)
  }

  /** A proof found to verify at registration does verify. */
  predicate Honest(w: World, call: Call) {
    call.External? && call.check.Verified? ==> SignatureFault(call.vc, w).None?
  }

  /** A run of any calls, each allowed in the state it meets. */
  ghost predicate HonestRun(cfg: Platform, dir: Directory, w: World, events: seq<Event>, shared: bool) {
    Legal(cfg, dir, Start(shared), events) && forall e :: e in events ==> Honest(w, e.call)
  }

  /** A row that says what its credential says, and whose proof verifies. */
  ghost predicate TrueRow(w: World, r: VcRecord) {
    FaithfulRow(r) && SignatureFault(r.vc, w).None?
  }

  ghost predicate Upheld(cfg: Platform, w: World, st: Store) {
    Inv(cfg, st) && forall id :: id in st.vcs ==> TrueRow(w, st.vcs[id])
  }

  lemma RowMadeIsTrue(cfg: Platform, dir: Directory, w: World, s: Sys, call: Call, now: int, r: VcRecord)
    requires KeysGenuine(cfg, dir, w) && Honest(w, call) && RowMade(cfg, dir, s, call, now, r)
    ensures TrueRow(w, r)
  {
    match call
    case Issue(p, _, _, id) =>
      assert Genuine(cfg.issuer, w);
    case Renew(vcId, o, _, _, id) =>
      assert Genuine(cfg.issuer, w);
    case Delegate(input, id) =>
      assert Genuine(WalletOf(dir, input.did), w);
    case Consent(input, _, id) =>
      assert Genuine(WalletOf(dir, input.serviceDid), w);
    case External(vc, _, _, _) =>
    case _ => assert false;
  }

  lemma UpheldStep(cfg: Platform, w: World, a: Store, b: Store, made: VcRecord -> bool)
    requires Upheld(cfg, w, a) && Inv(cfg, b) && Evolves(a, b) && AddsOnly(a, b, made)
    requires forall r :: made(r) ==> TrueRow(w, r)
    ensures Upheld(cfg, w, b)
  {
    forall id | id in b.vcs ensures TrueRow(w, b.vcs[id]) {
      if id in a.vcs {
        assert SameButMarks(a.vcs[id], b.vcs[id]);
      } else {
        var r :| made(r) && SameButMarks(r, b.vcs[id]);
      }
    }
  }

  lemma FaithfulStep(cfg: Platform, a: Store, b: Store, made: VcRecord -> bool)
    requires Faithful(a) && Inv(cfg, b) && Evolves(a, b) && AddsOnly(a, b, made)
    requires forall r :: made(r) ==> FaithfulRow(r)
    ensures Faithful(b)
  {
    forall id | id in b.vcs ensures FaithfulRow(b.vcs[id]) {
      if id in a.vcs {
        assert SameButMarks(a.vcs[id], b.vcs[id]) && FaithfulRow(a.vcs[id]);
      } else {
        var r :| made(r) && SameButMarks(r, b.vcs[id]);
      }
    }
  }

  lemma ApplyUpholds(cfg: Platform, dir: Directory, w: World, s: Sys, call: Call, now: int)
    requires Upheld(cfg, w, s.store) && Allowed(cfg, s, call) && Honest(w, call) && KeysGenuine(cfg, dir, w)
    ensures Upheld(cfg, w, Apply(cfg, dir, s, call, now).store)
  {
    ApplyKeeps(cfg, dir, s, call, now);
    ApplyAdds(cfg, dir, s, call, now);
    forall r | RowMade(cfg, dir, s, call, now, r) ensures TrueRow(w, r) {
      RowMadeIsTrue(cfg, dir, w, s, call, now, r);
    }
    UpheldStep(cfg, w, s.store, Apply(cfg, dir, s, call, now).store, r => RowMade(cfg, dir, s, call, now, r));
  }

  lemma HonestBefore(cfg: Platform, dir: Directory, w: World, events: seq<Event>, shared: bool)
    requires HonestRun(cfg, dir, w, events, shared) && events != []
    ensures HonestRun(cfg, dir, w, events[..|events| - 1], shared)
    ensures var last := events[|events| - 1];
            Honest(w, last.call) && Allowed(cfg, Run(cfg, dir, Start(shared), events[..|events| - 1]), last.call)
  {
    assert forall e :: e in events[..|events| - 1] ==> e in events;
    assert events[|events| - 1] in events;
  }

  /** In every state of every run, each row says what its credential says and each
      stored proof verifies. */
  lemma {:induction false} UpheldReachable(cfg: Platform, dir: Directory, w: World, events: seq<Event>, shared: bool)
    requires HonestRun(cfg, dir, w, events, shared) && KeysGenuine(cfg, dir, w)
    ensures Upheld(cfg, w, Run(cfg, dir, Start(shared), events).store)
    decreases |events|
  {
    if events != [] {
      var before, last := events[..|events| - 1], events[|events| - 1];
      HonestBefore(cfg, dir, w, events, shared);
      UpheldReachable(cfg, dir, w, before, shared);
      ApplyUpholds(cfg, dir, w, Run(cfg, dir, Start(shared), before), last.call, last.at);
    } else {
      assert forall id :: !Listed(cfg, EMPTY_STORE, id);
    }
  }

  lemma UpheldIsFaithful(cfg: Platform, w: World, st: Store)
    requires Upheld(cfg, w, st)
    ensures Faithful(st)
  {
    forall id | id in st.vcs ensures FaithfulRow(st.vcs[id]) {
      assert TrueRow(w, st.vcs[id]);
    }
  }
}
