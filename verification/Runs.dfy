/** Whole runs of the platform's calls, and what holds in every state they reach. */
module Runs {
  import opened Common
  import opened Credentials
  import opened Cache
  import opened Delegation
  import opened Verifier
  import opened VcStore
  import opened VcLifecycle
  import opened VcInvariants
  import opened AgentFlows
  import opened ServiceFlows
  import StatusList

  datatype Call =
    | Issue(params: IssueParams, subjectKnown: bool, keyMatches: bool, id: VcId)
    | Delegate(input: DelegateInput, id: VcId)
    | Consent(grant: GrantInput, agentKnown: bool, id: VcId)
    | External(vc: Credential, check: ProofCheck, subjectKnown: bool, revokeExisting: bool)
    | Renew(vcId: VcId, options: RenewOptions, subjectKnown: bool, keyMatches: bool, id: VcId)
    | Revoke(vcId: VcId)
    | Claim
    | ReadList

  function Apply(cfg: Platform, dir: Directory, s: Sys, call: Call, now: int): Sys {
    match call
    case Issue(p, known, matches, id) => IssueVC(cfg, s, p, known, matches, now, id).sys
    case Delegate(input, id) => DelegateOutcome(cfg, dir, s, input, now, id).sys
    case Consent(grant, known, id) => ConsentOutcome(cfg, dir, s, grant, known, now, id).sys
    case External(vc, check, known, re) => RegisterExternalVC(cfg, s, vc, check, known, re, now).sys
    case Renew(vcId, o, known, matches, id) => RenewVC(cfg, s, vcId, o, known, matches, now, id).sys
    case Revoke(vcId) => RevokeVC(cfg, s, vcId, now).sys
    case Claim => ClaimStatusListEntry(cfg, s, now).sys
    case ReadList => GetStatusList(cfg, s, now).sys
  }

  /** Ids are fresh, and an external credential stays off the platform's list. */
  predicate Allowed(cfg: Platform, s: Sys, call: Call) {
    match call
    case Issue(_, _, _, id) => id !in s.store.vcs
    case Delegate(_, id) => id !in s.store.vcs
    case Consent(_, _, id) => id !in s.store.vcs
    case Renew(_, _, _, _, id) => id !in s.store.vcs
    case External(vc, _, _, _) => !OnDefaultList(cfg, vc)
    case _ => true
  }

  datatype Event = Event(call: Call, at: int)

  const EMPTY_STORE := Store(map[], [], None)

  function Start(shared: bool): Sys {
    Sys(EMPTY_STORE, Layers(map[], if shared then Some(map[]) else None))
  }

  function Run(cfg: Platform, dir: Directory, s: Sys, events: seq<Event>): Sys
    decreases events
  {
    if events == [] then s
    else
      var last := events[|events| - 1];
      Apply(cfg, dir, Run(cfg, dir, s, events[..|events| - 1]), last.call, last.at)
  }

  /** Each call is allowed in the state it meets. */
  ghost predicate Legal(cfg: Platform, dir: Directory, s: Sys, events: seq<Event>)
    decreases events
  {
    events != [] ==>
      && Legal(cfg, dir, s, events[..|events| - 1])
      && Allowed(cfg, Run(cfg, dir, s, events[..|events| - 1]), events[|events| - 1].call)
  }

  // ---- The invariant of all runs -------------------------------------------

  /** A row with a claimed entry of its own is a new row. */
  lemma ClaimedRowIsNew(cfg: Platform, st: Store, r: VcRecord, index: nat)
    requires Inv(cfg, st) && st.list.Some? && index < st.list.value.nextIndex
    requires forall id :: Listed(cfg, st, id) ==> st.vcs[id].statusListIndex != index
    requires r.vcId !in st.vcs && r.vc.body.id == r.vcId && r.revokedAt.None? && r.renewedBy.None?
    requires r.vc.body.status == Some(EntryOnDefaultList(cfg, index)) && r.statusListIndex == index
    ensures NewRow(cfg, st, r)
  {
  }

  lemma DelegateKeeps(cfg: Platform, dir: Directory, s: Sys, input: DelegateInput, from: Credential, now: int, id: VcId)
    requires Inv(cfg, s.store) && id !in s.store.vcs && input.did in dir.keys
    ensures var o := DelegateFrom(cfg, dir, s, input, from, now, id);
            Inv(cfg, o.sys.store) && Evolves(s.store, o.sys.store)
  {
    var entry := ClaimStatusListEntry(cfg, s, now);
    ClaimEntryKeeps(cfg, s, now);
    if entry.result.Ok? {
      var status := Some(EntryOnDefaultList(cfg, entry.result.value));
      var o := DelegateOptions(input.to, input.scopes, input.expiresIn, from, status);
      var built := BuildDelegationVC(o, WalletOf(dir, input.did), now, id);
      if built.Ok? {
        ClaimedRowIsNew(cfg, entry.sys.store, SignedRow(cfg, built.value), entry.result.value);
        SignedKeeps(cfg, entry.sys, built.value, input.revokeExisting, now);
        EvolvesTrans(s.store, entry.sys.store,
                     RegisterSignedVC(cfg, entry.sys, built.value, input.revokeExisting, now).sys.store);
      }
    }
  }

  lemma ConsentKeeps(cfg: Platform, dir: Directory, s: Sys, input: GrantInput, scopes: seq<Scope>, known: bool,
                     now: int, id: VcId)
    requires Inv(cfg, s.store) && id !in s.store.vcs && input.serviceDid in dir.keys
    ensures var o := GrantFrom(cfg, dir, s, input, scopes, known, now, id);
            Inv(cfg, o.sys.store) && Evolves(s.store, o.sys.store)
  {
    var entry := ClaimStatusListEntry(cfg, s, now);
    ClaimEntryKeeps(cfg, s, now);
    if entry.result.Ok? && known {
      var vc := GrantCredential(cfg, input, scopes, WalletOf(dir, input.serviceDid), entry.result.value, now, id);
      ClaimedRowIsNew(cfg, entry.sys.store, GrantRow(vc), entry.result.value);
      RegisterKeeps(cfg, entry.sys, GrantRow(vc), input.revokeExisting, now);
      EvolvesTrans(s.store, entry.sys.store,
                   Register(cfg, entry.sys, GrantRow(vc), input.revokeExisting, now).sys.store);
    }
  }

  lemma DelegateOutcomeKeeps(cfg: Platform, dir: Directory, s: Sys, input: DelegateInput, now: int, id: VcId)
    requires Inv(cfg, s.store) && id !in s.store.vcs
    ensures var o := DelegateOutcome(cfg, dir, s, input, now, id);
            Inv(cfg, o.sys.store) && Evolves(s.store, o.sys.store)
  {
    if DelegateOutcome(cfg, dir, s, input, now, id).sys != s {
      DelegateKeeps(cfg, dir, s, input, DelegationSource(s.store, input, now).value.value, now, id);
    }
  }

  lemma ConsentOutcomeKeeps(cfg: Platform, dir: Directory, s: Sys, input: GrantInput, known: bool, now: int, id: VcId)
    requires Inv(cfg, s.store) && id !in s.store.vcs
    ensures var o := ConsentOutcome(cfg, dir, s, input, known, now, id);
            Inv(cfg, o.sys.store) && Evolves(s.store, o.sys.store)
  {
    if ConsentOutcome(cfg, dir, s, input, known, now, id).sys != s {
      ConsentKeeps(cfg, dir, s, input, GrantScopes(dir, s.store, input, now).value, known, now, id);
    }
  }

  lemma ApplyKeeps(cfg: Platform, dir: Directory, s: Sys, call: Call, now: int)
    requires Inv(cfg, s.store) && Allowed(cfg, s, call)
    ensures Inv(cfg, Apply(cfg, dir, s, call, now).store) && Evolves(s.store, Apply(cfg, dir, s, call, now).store)
  {
    match call
    case Issue(p, known, matches, id) => IssueKeeps(cfg, s, p, known, matches, now, id);
    case Delegate(input, id) => DelegateOutcomeKeeps(cfg, dir, s, input, now, id);
    case Consent(grant, known, id) => ConsentOutcomeKeeps(cfg, dir, s, grant, known, now, id);
    case External(vc, check, known, re) => ExternalKeeps(cfg, s, vc, check, known, re, now);
    case Renew(vcId, o, known, matches, id) => RenewKeeps(cfg, s, vcId, o, known, matches, now, id);
    case Revoke(vcId) => RevokeKeeps(cfg, s, vcId, now);
    case Claim => ClaimEntryKeeps(cfg, s, now);
    case ReadList =>
  }

  /** In every reachable state the rows and the bits agree and renewal links point
      forward. */
  lemma {:induction false} ReachableInv(cfg: Platform, dir: Directory, events: seq<Event>, shared: bool)
    requires Legal(cfg, dir, Start(shared), events)
    ensures Inv(cfg, Run(cfg, dir, Start(shared), events).store)
  {
    if events != [] {
      var before := events[..|events| - 1];
      ReachableInv(cfg, dir, before, shared);
      var last := events[|events| - 1];
      ApplyKeeps(cfg, dir, Run(cfg, dir, Start(shared), before), last.call, last.at);
    } else {
      assert forall id :: !Listed(cfg, EMPTY_STORE, id);
    }
  }

  /** The row and the bit: in any reachable state two records on the default list
      have different indexes below 131072, a record's bit reads 1 exactly when it
      is revoked, and an index no record has reads 0. */
  lemma RowAndBitAgree(cfg: Platform, dir: Directory, events: seq<Event>, shared: bool)
    requires Legal(cfg, dir, Start(shared), events)
    requires Run(cfg, dir, Start(shared), events).store.list.Some?
    ensures var st := Run(cfg, dir, Start(shared), events).store;
            var bits := st.list.value.bits;
            && StatusList.Length(bits) == 131072
            && (forall id :: Listed(cfg, st, id) ==>
                  && 0 <= st.vcs[id].statusListIndex < 131072
                  && StatusList.GetBit(bits, st.vcs[id].statusListIndex) == Some(st.vcs[id].revokedAt.Some?))
            && (forall a, b :: Listed(cfg, st, a) && Listed(cfg, st, b) && a != b ==>
                  st.vcs[a].statusListIndex != st.vcs[b].statusListIndex)
            && (forall i ::
                  0 <= i < 131072 && (forall id :: Listed(cfg, st, id) ==> st.vcs[id].statusListIndex != i) ==>
                  StatusList.GetBit(bits, i) == Some(false))
  {
    var st := Run(cfg, dir, Start(shared), events).store;
    ReachableInv(cfg, dir, events, shared);
    forall i | 0 <= i < 131072
      ensures StatusList.GetBit(st.list.value.bits, i) == Some(StatusList.Bit(st.list.value.bits, i))
    {
      StatusList.GetBitIsBit(st.list.value.bits, i);
    }
  }
}
