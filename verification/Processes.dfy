/** Several server processes, each with its own first cache layer, over one shared
    layer and one store: how long a revocation can stay unseen. */
module Processes {
  import opened Common
  import opened Credentials
  import Cache
  import opened VcStore
  import opened VcLifecycle
  import opened VcInvariants
  import opened AgentFlows
  import opened ServiceFlows
  import opened Runs
  import Delegation
  import StatusList

  type Bits = StatusList.Bits

  datatype System = System(store: Store, l1: map<nat, Cache.Layer<Bits>>, l2: Option<Cache.Layer<Bits>>)

  function OwnLayer(y: System, p: nat): Cache.Layer<Bits> {
    if p in y.l1 then y.l1[p] else map[]
  }

  /** What process `p` works on. */
  function View(y: System, p: nat): Sys {
    Sys(y.store, Cache.Layers(OwnLayer(y, p), y.l2))
  }

  datatype Turn = Turn(pid: nat, call: Call, at: int)

  /** The system once process `p` has brought its view to `s`. */
  function WrittenBack(y: System, p: nat, s: Sys): System {
    System(s.store, y.l1[p := s.cache.l1], s.cache.l2)
  }

  function After(cfg: Platform, dir: Directory, y: System, e: Turn): System {
    WrittenBack(y, e.pid, Apply(cfg, dir, View(y, e.pid), e.call, e.at))
  }

  function RunAll(cfg: Platform, dir: Directory, y: System, turns: seq<Turn>): System
    decreases turns
  {
    if turns == [] then y
    else After(cfg, dir, RunAll(cfg, dir, y, turns[..|turns| - 1]), turns[|turns| - 1])
  }

  /** Every turn is allowed where it comes and no turn is later than `now`. */
  ghost predicate LegalTurns(cfg: Platform, dir: Directory, y: System, turns: seq<Turn>, now: int)
    decreases turns
  {
    turns != [] ==>
      var before, last := turns[..|turns| - 1], turns[|turns| - 1];
      && LegalTurns(cfg, dir, y, before, last.at)
      && Allowed(cfg, View(RunAll(cfg, dir, y, before), last.pid), last.call)
      && last.at <= now
  }

  function Boot(shared: bool): System {
    System(EMPTY_STORE, map[], if shared then Some(map[]) else None)
  }

  // ---- What a call does to the caches --------------------------------------

  predicate HasBit(bits: Bits, i: int) {
    0 <= i < 8 * |bits| && StatusList.Bit(bits, i)
  }

  lemma DeleteTwice(c: Cache.Layers<Bits>, lifetimes: Cache.Lifetimes)
    ensures var d := Cache.AfterDelete(c, lifetimes, LIST_ID);
            Cache.AfterDelete(d, lifetimes, LIST_ID) == d
  {
    assert c.l1 - {LIST_ID} - {LIST_ID} == c.l1 - {LIST_ID};
    var key := lifetimes.prefix + LIST_ID;
    assert c.l2.Some? ==> c.l2.value - {key} - {key} == c.l2.value - {key};
  }

  /** The caches are as they were, the list too; or the entry was dropped. */
  ghost predicate Unserved(cfg: Platform, s: Sys, t: Sys) {
    || (t.cache == s.cache
        && (s.store.list.Some? ==> t.store.list.Some? && t.store.list.value.bits == s.store.list.value.bits))
    || t.cache == Cache.AfterDelete(s.cache, cfg.lifetimes, LIST_ID)
  }

  lemma RetireStepUnserved(cfg: Platform, s: Sys, t: Sys, id: VcId, next: Option<VcId>, now: int)
    requires Unserved(cfg, s, t)
    ensures Unserved(cfg, s, RetireStep(cfg, t, id, next, now).sys)
  {
    DeleteTwice(s.cache, cfg.lifetimes);
  }

  lemma RegisterUnserved(cfg: Platform, s: Sys, row: VcRecord, revokeExisting: bool, now: int)
    ensures Unserved(cfg, s, Register(cfg, s, row, revokeExisting, now).sys)
  {
    var stored := s.(store := WithRow(s.store, row));
    var good := (t: Sys) => Unserved(cfg, s, t);
    forall t, id, next | good(t) && id in Siblings(stored.store, row.vc, now) && next in {None, Some(row.vc.body.id)}
      ensures good(RetireStep(cfg, t, id, next, now).sys)
    {
      RetireStepUnserved(cfg, s, t, id, next, now);
    }
    ReconcileInduction(cfg, stored, row.vc, revokeExisting, now, good, false);
  }

  /** `t` is `s` with rows or claims changed, nothing a reader of the list sees. */
  lemma UnservedFrom(cfg: Platform, s: Sys, t: Sys, u: Sys)
    requires Unserved(cfg, t, u) && t.cache == s.cache
    requires s.store.list.Some? && t.store.list.Some? && t.store.list.value.bits == s.store.list.value.bits
    ensures Unserved(cfg, s, u)
  {
  }

  lemma IssueUnserved(cfg: Platform, s: Sys, p: IssueParams, known: bool, matches: bool, now: int, id: VcId)
    requires s.store.list.Some?
    ensures Unserved(cfg, s, IssueVC(cfg, s, p, known, matches, now, id).sys)
  {
    var index := s.store.list.value.nextIndex;
    var claimed := s.(store := Claimed(s.store));
    var row := IssuedRow(p, IssuedCredential(cfg, p, index, now, id), index);
    RegisterUnserved(cfg, claimed, row, p.revokeExisting, now);
    UnservedFrom(cfg, s, claimed, Register(cfg, claimed, row, p.revokeExisting, now).sys);
  }

  lemma DelegateUnserved(cfg: Platform, dir: Directory, s: Sys, input: DelegateInput, from: Credential, now: int,
                         id: VcId)
    requires s.store.list.Some? && input.did in dir.keys
    ensures Unserved(cfg, s, DelegateFrom(cfg, dir, s, input, from, now, id).sys)
  {
    var entry := ClaimStatusListEntry(cfg, s, now);
    if entry.result.Ok? {
      var o := Delegation.DelegateOptions(input.to, input.scopes, input.expiresIn, from,
                                          Some(EntryOnDefaultList(cfg, entry.result.value)));
      var built := Delegation.BuildDelegationVC(o, WalletOf(dir, input.did), now, id);
      if built.Ok? {
        var row := SignedRow(cfg, built.value);
        RegisterUnserved(cfg, entry.sys, row, input.revokeExisting, now);
        UnservedFrom(cfg, s, entry.sys, Register(cfg, entry.sys, row, input.revokeExisting, now).sys);
      }
    }
  }

  lemma ConsentUnserved(cfg: Platform, dir: Directory, s: Sys, input: GrantInput, scopes: seq<Scope>, known: bool,
                        now: int, id: VcId)
    requires s.store.list.Some? && input.serviceDid in dir.keys
    ensures Unserved(cfg, s, GrantFrom(cfg, dir, s, input, scopes, known, now, id).sys)
  {
    var entry := ClaimStatusListEntry(cfg, s, now);
    if entry.result.Ok? && known {
      var grant := GrantCredential(cfg, input, scopes, WalletOf(dir, input.serviceDid), entry.result.value, now, id);
      RegisterUnserved(cfg, entry.sys, GrantRow(grant), input.revokeExisting, now);
      UnservedFrom(cfg, s, entry.sys, Register(cfg, entry.sys, GrantRow(grant), input.revokeExisting, now).sys);
    }
  }

  lemma DelegateOutcomeUnserved(cfg: Platform, dir: Directory, s: Sys, input: DelegateInput, now: int, id: VcId)
    requires s.store.list.Some?
    ensures Unserved(cfg, s, DelegateOutcome(cfg, dir, s, input, now, id).sys)
  {
    if DelegateOutcome(cfg, dir, s, input, now, id).sys != s {
      DelegateUnserved(cfg, dir, s, input, DelegationSource(s.store, input, now).value.value, now, id);
    }
  }

  lemma ConsentOutcomeUnserved(cfg: Platform, dir: Directory, s: Sys, input: GrantInput, known: bool, now: int,
                               id: VcId)
    requires s.store.list.Some?
    ensures Unserved(cfg, s, ConsentOutcome(cfg, dir, s, input, known, now, id).sys)
  {
    if ConsentOutcome(cfg, dir, s, input, known, now, id).sys != s {
      ConsentUnserved(cfg, dir, s, input, GrantScopes(dir, s.store, input, now).value, known, now, id);
    }
  }

  lemma ExternalUnserved(cfg: Platform, s: Sys, vc: Credential, check: ProofCheck, known: bool, re: bool, now: int)
    ensures Unserved(cfg, s, RegisterExternalVC(cfg, s, vc, check, known, re, now).sys)
  {
    var t := RegisterExternalVC(cfg, s, vc, check, known, re, now).sys;
    assert t == s || t == Register(cfg, s, ExternalRow(vc), re, now).sys;
    RegisterUnserved(cfg, s, ExternalRow(vc), re, now);
  }

  lemma RenewUnserved(cfg: Platform, s: Sys, vcId: VcId, o: RenewOptions, known: bool, matches: bool, now: int,
                      id: VcId)
    requires s.store.list.Some?
    ensures Unserved(cfg, s, RenewVC(cfg, s, vcId, o, known, matches, now, id).sys)
  {
    if vcId in s.store.vcs {
      IssueUnserved(cfg, s, RenewParams(s.store.vcs[vcId], o), known, matches, now, id);
    }
  }

  lemma RevokeUnserved(cfg: Platform, s: Sys, vcId: VcId, now: int)
    ensures Unserved(cfg, s, RevokeVC(cfg, s, vcId, now).sys)
  {
  }

  lemma ClaimUnserved(cfg: Platform, s: Sys, now: int)
    requires s.store.list.Some?
    ensures Unserved(cfg, s, ClaimStatusListEntry(cfg, s, now).sys)
  {
  }

  /** Once the list exists, a call other than reading it leaves both layers alone
      or drops the list from them, and it drops it whenever it changes a bit. */
  lemma CallUnserved(cfg: Platform, dir: Directory, s: Sys, call: Call, now: int)
    requires s.store.list.Some? && !call.ReadList?
    ensures Unserved(cfg, s, Apply(cfg, dir, s, call, now))
  {
    match call
    case Issue(p, known, matches, id) => IssueUnserved(cfg, s, p, known, matches, now, id);
    case Delegate(input, id) => DelegateOutcomeUnserved(cfg, dir, s, input, now, id);
    case Consent(grant, known, id) => ConsentOutcomeUnserved(cfg, dir, s, grant, known, now, id);
    case External(vc, check, known, re) => ExternalUnserved(cfg, s, vc, check, known, re, now);
    case Renew(vcId, o, known, matches, id) => RenewUnserved(cfg, s, vcId, o, known, matches, now, id);
    case Revoke(vcId) => RevokeUnserved(cfg, s, vcId, now);
    case Claim => ClaimUnserved(cfg, s, now);
  }

  // ---- The staleness bound -------------------------------------------------

  /** No first layer keeps the list longer than its lifetime from now. */
  ghost predicate ShortLived(cfg: Platform, y: System, now: int) {
    forall p :: LIST_ID in OwnLayer(y, p) ==> OwnLayer(y, p)[LIST_ID].expiresAt <= now + cfg.lifetimes.l1 * 1000
  }

  ghost predicate LapsesBy(l1: Cache.Layer<Bits>, time: int) {
    LIST_ID in l1 ==> l1[LIST_ID].expiresAt <= time
  }

  lemma UnservedShortLived(cfg: Platform, s: Sys, t: Sys, time: int)
    requires Unserved(cfg, s, t) && LapsesBy(s.cache.l1, time)
    ensures LapsesBy(t.cache.l1, time)
  {
  }

  lemma IssueFirst(cfg: Platform, s: Sys, p: IssueParams, known: bool, matches: bool, now: int, id: VcId)
    requires s.store.list.None?
    ensures var t, ready := IssueVC(cfg, s, p, known, matches, now, id).sys, WithDefaultList(cfg, s, now);
            Unserved(cfg, s, t) || Unserved(cfg, ready, t)
  {
    var ready := WithDefaultList(cfg, s, now);
    assert WithDefaultList(cfg, ready, now) == ready;
    IssueUnserved(cfg, ready, p, known, matches, now, id);
  }

  lemma RenewFirst(cfg: Platform, s: Sys, vcId: VcId, o: RenewOptions, known: bool, matches: bool, now: int, id: VcId)
    requires s.store.list.None?
    ensures var t, ready := RenewVC(cfg, s, vcId, o, known, matches, now, id).sys, WithDefaultList(cfg, s, now);
            Unserved(cfg, s, t) || Unserved(cfg, ready, t)
  {
    if vcId in s.store.vcs {
      IssueFirst(cfg, s, RenewParams(s.store.vcs[vcId], o), known, matches, now, id);
    }
  }

  lemma DelegateFirst(cfg: Platform, dir: Directory, s: Sys, input: DelegateInput, now: int, id: VcId)
    requires s.store.list.None?
    ensures var t, ready := DelegateOutcome(cfg, dir, s, input, now, id).sys, WithDefaultList(cfg, s, now);
            Unserved(cfg, s, t) || Unserved(cfg, ready, t)
  {
    if DelegateOutcome(cfg, dir, s, input, now, id).sys != s {
      var ready, from := WithDefaultList(cfg, s, now), DelegationSource(s.store, input, now).value.value;
      assert ClaimStatusListEntry(cfg, ready, now) == ClaimStatusListEntry(cfg, s, now);
      DelegateUnserved(cfg, dir, ready, input, from, now, id);
    }
  }

  lemma ConsentFirst(cfg: Platform, dir: Directory, s: Sys, input: GrantInput, known: bool, now: int, id: VcId)
    requires s.store.list.None?
    ensures var t, ready := ConsentOutcome(cfg, dir, s, input, known, now, id).sys, WithDefaultList(cfg, s, now);
            Unserved(cfg, s, t) || Unserved(cfg, ready, t)
  {
    if ConsentOutcome(cfg, dir, s, input, known, now, id).sys != s {
      var ready, scopes := WithDefaultList(cfg, s, now), GrantScopes(dir, s.store, input, now).value;
      assert ClaimStatusListEntry(cfg, ready, now) == ClaimStatusListEntry(cfg, s, now);
      ConsentUnserved(cfg, dir, ready, input, scopes, known, now, id);
    }
  }

  lemma ClaimFirst(cfg: Platform, s: Sys, now: int)
    requires s.store.list.None?
    ensures Unserved(cfg, WithDefaultList(cfg, s, now), ClaimStatusListEntry(cfg, s, now).sys)
  {
  }

  /** Before the list exists a call may create it, and then goes on as if it had
      been there. */
  lemma FirstUse(cfg: Platform, dir: Directory, s: Sys, call: Call, now: int)
    requires s.store.list.None? && !call.ReadList?
    ensures var t, ready := Apply(cfg, dir, s, call, now), WithDefaultList(cfg, s, now);
            Unserved(cfg, s, t) || Unserved(cfg, ready, t)
  {
    match call
    case Issue(p, known, matches, id) => IssueFirst(cfg, s, p, known, matches, now, id);
    case Delegate(input, id) => DelegateFirst(cfg, dir, s, input, now, id);
    case Consent(grant, known, id) => ConsentFirst(cfg, dir, s, grant, known, now, id);
    case External(vc, check, known, re) => ExternalUnserved(cfg, s, vc, check, known, re, now);
    case Renew(vcId, o, known, matches, id) => RenewFirst(cfg, s, vcId, o, known, matches, now, id);
    case Revoke(vcId) => RevokeUnserved(cfg, s, vcId, now);
    case Claim => ClaimFirst(cfg, s, now);
  }

  lemma LayerShortLived(cfg: Platform, dir: Directory, s: Sys, call: Call, now: int)
    requires cfg.lifetimes.l1 >= 0
    requires LapsesBy(s.cache.l1, now + cfg.lifetimes.l1 * 1000)
    ensures LapsesBy(Apply(cfg, dir, s, call, now).cache.l1, now + cfg.lifetimes.l1 * 1000)
  {
    var time, t := now + cfg.lifetimes.l1 * 1000, Apply(cfg, dir, s, call, now);
    if !call.ReadList? && s.store.list.Some? {
      CallUnserved(cfg, dir, s, call, now);
      UnservedShortLived(cfg, s, t, time);
    } else if !call.ReadList? {
      var ready := WithDefaultList(cfg, s, now);
      FirstUse(cfg, dir, s, call, now);
      UnservedShortLived(cfg, if Unserved(cfg, s, t) then s else ready, t, time);
    }
  }

  lemma WrittenBackShortLived(cfg: Platform, y: System, p: nat, s: Sys, early: int, late: int)
    requires ShortLived(cfg, y, early) && early <= late
    requires LapsesBy(s.cache.l1, late + cfg.lifetimes.l1 * 1000)
    ensures ShortLived(cfg, WrittenBack(y, p, s), late)
  {
    forall q ensures OwnLayer(WrittenBack(y, p, s), q) == if q == p then s.cache.l1 else OwnLayer(y, q) {
    }
  }

  lemma {:induction false} AlwaysShortLived(cfg: Platform, dir: Directory, turns: seq<Turn>, shared: bool, now: int)
    requires cfg.lifetimes.l1 >= 0 && LegalTurns(cfg, dir, Boot(shared), turns, now)
    ensures ShortLived(cfg, RunAll(cfg, dir, Boot(shared), turns), now)
    ensures Inv(cfg, RunAll(cfg, dir, Boot(shared), turns).store)
    decreases turns
  {
    if turns != [] {
      var before, last := turns[..|turns| - 1], turns[|turns| - 1];
      AlwaysShortLived(cfg, dir, before, shared, last.at);
      var y := RunAll(cfg, dir, Boot(shared), before);
      var s := View(y, last.pid);
      assert LapsesBy(s.cache.l1, last.at + cfg.lifetimes.l1 * 1000);
      LayerShortLived(cfg, dir, s, last.call, last.at);
      WrittenBackShortLived(cfg, y, last.pid, Apply(cfg, dir, s, last.call, last.at), last.at, last.at);
      WrittenBackShortLived(cfg, y, last.pid, Apply(cfg, dir, s, last.call, last.at), last.at, now);
      ApplyKeeps(cfg, dir, s, last.call, last.at);
    } else {
      assert forall id :: !Listed(cfg, EMPTY_STORE, id);
    }
  }

  /** Bit `i` is set in the store and in the shared layer; a first layer without
      it lapses by `deadline`. */
  ghost predicate Spreading(cfg: Platform, y: System, i: int, deadline: int) {
    && y.store.list.Some? && HasBit(y.store.list.value.bits, i)
    && (y.l2.Some? && cfg.lifetimes.prefix + LIST_ID in y.l2.value ==>
          HasBit(y.l2.value[cfg.lifetimes.prefix + LIST_ID].value, i))
    && (forall p :: LIST_ID in OwnLayer(y, p) ==>
          HasBit(OwnLayer(y, p)[LIST_ID].value, i) || OwnLayer(y, p)[LIST_ID].expiresAt <= deadline)
  }

  /** The bits of `t` include those of `s`. */
  ghost predicate BitsKept(s: Store, t: Store, i: int) {
    s.list.Some? && HasBit(s.list.value.bits, i) ==> t.list.Some? && HasBit(t.list.value.bits, i)
  }

  lemma UnservedSpreads(cfg: Platform, y: System, p: nat, t: Sys, i: int, deadline: int)
    requires Spreading(cfg, y, i, deadline)
    requires Unserved(cfg, View(y, p), t) && BitsKept(y.store, t.store, i)
    ensures Spreading(cfg, WrittenBack(y, p, t), i, deadline)
  {
    forall q ensures OwnLayer(WrittenBack(y, p, t), q) == if q == p then t.cache.l1 else OwnLayer(y, q) {
    }
  }

  lemma ReadSpreads(cfg: Platform, y: System, p: nat, now: int, i: int, deadline: int)
    requires Spreading(cfg, y, i, deadline)
    ensures Spreading(cfg, WrittenBack(y, p, GetStatusList(cfg, View(y, p), now).sys), i, deadline)
  {
    var t := GetStatusList(cfg, View(y, p), now).sys;
    forall q ensures OwnLayer(WrittenBack(y, p, t), q) == if q == p then t.cache.l1 else OwnLayer(y, q) {
    }
  }

  lemma TurnSpreads(cfg: Platform, dir: Directory, y: System, e: Turn, i: int, deadline: int)
    requires Spreading(cfg, y, i, deadline)
    requires Inv(cfg, y.store) && Allowed(cfg, View(y, e.pid), e.call)
    ensures Spreading(cfg, After(cfg, dir, y, e), i, deadline)
  {
    if e.call.ReadList? {
      ReadSpreads(cfg, y, e.pid, e.at, i, deadline);
    } else {
      CallKeepsBits(cfg, dir, View(y, e.pid), e.call, e.at, i);
      CallUnserved(cfg, dir, View(y, e.pid), e.call, e.at);
      UnservedSpreads(cfg, y, e.pid, Apply(cfg, dir, View(y, e.pid), e.call, e.at), i, deadline);
    }
  }

  lemma CallKeepsBits(cfg: Platform, dir: Directory, s: Sys, call: Call, now: int, i: int)
    requires Inv(cfg, s.store) && Allowed(cfg, s, call)
    ensures BitsKept(s.store, Apply(cfg, dir, s, call, now).store, i)
  {
    ApplyKeeps(cfg, dir, s, call, now);
  }

  lemma {:induction false} RunSpreads(cfg: Platform, dir: Directory, y: System, turns: seq<Turn>, now: int, i: int,
                                      deadline: int)
    requires Spreading(cfg, y, i, deadline) && Inv(cfg, y.store)
    requires LegalTurns(cfg, dir, y, turns, now)
    ensures Spreading(cfg, RunAll(cfg, dir, y, turns), i, deadline)
    ensures Inv(cfg, RunAll(cfg, dir, y, turns).store)
    decreases turns
  {
    if turns != [] {
      var before, last := turns[..|turns| - 1], turns[|turns| - 1];
      RunSpreads(cfg, dir, y, before, last.at, i, deadline);
      var z := RunAll(cfg, dir, y, before);
      TurnSpreads(cfg, dir, z, last, i, deadline);
      ApplyKeeps(cfg, dir, View(z, last.pid), last.call, last.at);
    }
  }

  /** A turn that sets a bit drops the list from both layers it can reach. */
  lemma FlipSpreads(cfg: Platform, y: System, p: nat, t: Sys, i: int, at: int)
    requires ShortLived(cfg, y, at) && y.store.list.Some? && !HasBit(y.store.list.value.bits, i)
    requires t.store.list.Some? && HasBit(t.store.list.value.bits, i)
    requires Unserved(cfg, View(y, p), t)
    ensures Spreading(cfg, WrittenBack(y, p, t), i, at + cfg.lifetimes.l1 * 1000)
  {
    forall q ensures OwnLayer(WrittenBack(y, p, t), q) == if q == p then t.cache.l1 else OwnLayer(y, q) {
    }
  }

  /** Past the deadline every reader sees the bit. */
  lemma SpreadIsRead(cfg: Platform, y: System, reader: nat, i: int, deadline: int, now: int)
    requires Spreading(cfg, y, i, deadline) && now > deadline
    ensures var read := GetStatusList(cfg, View(y, reader), now).result;
            read.Ok? && StatusList.GetBit(read.value, i) == Some(true)
  {
  }

  /** Revocation reaches every process in bounded time: once some turn has set a
      bit, whatever any number of processes do, every reading of the list more
      than the first layer's lifetime later serves a list with that bit set. */
  lemma RevocationReachesAll(cfg: Platform, dir: Directory, shared: bool, before: seq<Turn>, e: Turn, later: seq<Turn>,
                             i: int, reader: nat, now: int)
    requires cfg.lifetimes.l1 >= 0
    requires LegalTurns(cfg, dir, Boot(shared), before, e.at)
    requires var y := RunAll(cfg, dir, Boot(shared), before);
             var z := After(cfg, dir, y, e);
             && Allowed(cfg, View(y, e.pid), e.call)
             && y.store.list.Some? && !HasBit(y.store.list.value.bits, i)
             && z.store.list.Some? && HasBit(z.store.list.value.bits, i)
             && LegalTurns(cfg, dir, z, later, now)
    requires now > e.at + cfg.lifetimes.l1 * 1000
    ensures var z := After(cfg, dir, RunAll(cfg, dir, Boot(shared), before), e);
            var read := GetStatusList(cfg, View(RunAll(cfg, dir, z, later), reader), now).result;
            read.Ok? && StatusList.GetBit(read.value, i) == Some(true)
  {
    var y := RunAll(cfg, dir, Boot(shared), before);
    var z := After(cfg, dir, y, e);
    AlwaysShortLived(cfg, dir, before, shared, e.at);
    CallUnserved(cfg, dir, View(y, e.pid), e.call, e.at);
    FlipSpreads(cfg, y, e.pid, Apply(cfg, dir, View(y, e.pid), e.call, e.at), i, e.at);
    ApplyKeeps(cfg, dir, View(y, e.pid), e.call, e.at);
    RunSpreads(cfg, dir, z, later, now, i, e.at + cfg.lifetimes.l1 * 1000);
    SpreadIsRead(cfg, RunAll(cfg, dir, z, later), reader, i, e.at + cfg.lifetimes.l1 * 1000, now);
  }

  /** In particular a turn that revokes a listed credential sets its bit. */
  lemma RevokeSetsBit(cfg: Platform, dir: Directory, y: System, p: nat, id: VcId, at: int)
    requires Inv(cfg, y.store) && Listed(cfg, y.store, id)
    requires RevokeVC(cfg, View(y, p), id, at).result.Ok?
    ensures var z, i := After(cfg, dir, y, Turn(p, Revoke(id), at)), y.store.vcs[id].statusListIndex;
            && y.store.list.Some? && !HasBit(y.store.list.value.bits, i)
            && z.store.list.Some? && HasBit(z.store.list.value.bits, i)
  {
  }

  /** Revoked is seen revoked: more than the first layer's lifetime after a listed
      credential was revoked, whatever any process did since, every reading of the
      list by any process has its bit set. */
  lemma RevokedIsSeen(cfg: Platform, dir: Directory, shared: bool, before: seq<Turn>, p: nat, id: VcId, at: int,
                      later: seq<Turn>, reader: nat, now: int)
    requires cfg.lifetimes.l1 >= 0
    requires LegalTurns(cfg, dir, Boot(shared), before, at)
    requires var y := RunAll(cfg, dir, Boot(shared), before);
             && Listed(cfg, y.store, id) && RevokeVC(cfg, View(y, p), id, at).result.Ok?
             && LegalTurns(cfg, dir, After(cfg, dir, y, Turn(p, Revoke(id), at)), later, now)
    requires now > at + cfg.lifetimes.l1 * 1000
    ensures var y := RunAll(cfg, dir, Boot(shared), before);
            var end := RunAll(cfg, dir, After(cfg, dir, y, Turn(p, Revoke(id), at)), later);
            var read := GetStatusList(cfg, View(end, reader), now).result;
            read.Ok? && StatusList.GetBit(read.value, y.store.vcs[id].statusListIndex) == Some(true)
  {
    var y := RunAll(cfg, dir, Boot(shared), before);
    AlwaysShortLived(cfg, dir, before, shared, at);
    RevokeSetsBit(cfg, dir, y, p, id, at);
    RevocationReachesAll(cfg, dir, shared, before, Turn(p, Revoke(id), at), later,
                         y.store.vcs[id].statusListIndex, reader, now);
  }
}
